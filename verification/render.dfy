/**
 * The text of `post.txt`: the post template, its attached-content blocks (linked
 * video, images, poll) and, for a shared post, the share template around it.
 */
module Render {
  import opened Wrappers
  import opened Strings
  import opened Dicts
  import opened Normalizer

  /** The items of `parts` that are non-empty, in order. */
  function NonEmptyParts(parts: seq<string>): (r: seq<string>)
    ensures forall i | 0 <= i < |r| :: r[i] != "" && r[i] in parts
    ensures forall i | 0 <= i < |parts| :: parts[i] != "" ==> parts[i] in r
    ensures r == [] <==> forall i | 0 <= i < |parts| :: parts[i] == ""
  {
    if parts == [] then []
    else
      var rest := NonEmptyParts(parts[1..]);
      assert forall i | 1 <= i < |parts| :: parts[i] == parts[1..][i - 1];
      if parts[0] == "" then rest else [parts[0]] + rest
  }

  /**
   * The filter keeps order and multiplicity: filtering a concatenation is the
   * concatenation of the filtered parts, and one part is kept exactly when non-empty.
   */
  lemma {:induction false} NonEmptyPartsAppend(a: seq<string>, b: seq<string>)
    ensures NonEmptyParts(a + b) == NonEmptyParts(a) + NonEmptyParts(b)
    ensures forall x :: NonEmptyParts([x]) == if x == "" then [] else [x]
  {
    if a != [] {
      var head := if a[0] == "" then [] else [a[0]];
      assert (a + b)[0] == a[0] && (a + b)[1..] == a[1..] + b;
      assert NonEmptyParts(a + b) == head + NonEmptyParts(a[1..] + b);
      NonEmptyPartsAppend(a[1..], b);
      assert NonEmptyParts(a) == head + NonEmptyParts(a[1..]);
      assert head + (NonEmptyParts(a[1..]) + NonEmptyParts(b)) == (head + NonEmptyParts(a[1..])) + NonEmptyParts(b);
    } else {
      assert a + b == b;
    }
    forall x ensures NonEmptyParts([x]) == if x == "" then [] else [x] {
      assert [x][1..] == [];
    }
  }

  /** The linked-video block, present only when the post links a video. */
  function LinkedVideo(c: PostContent): (r: string)
    ensures r == "" <==> c.videoUrl == ""
    ensures r != "" ==> StartsWith(r, "Linked Video:\n") && EndsWith(r, "\n" + c.videoUrl)
  {
    if c.videoUrl == "" then ""
    else
      var head := "Linked Video:\n" + c.videoTitle + (if c.videoMembersOnly then " (Members only)" else "")
        + "\n" + c.videoPublishedTime;
      var r := head + ("\n" + c.videoUrl);
      assert r[..14] == "Linked Video:\n";
      assert r[|r| - |"\n" + c.videoUrl|..] == "\n" + c.videoUrl;
      r
  }

  /** The images block: one url per line under a heading, absent without images. */
  function ImageLinks(urls: seq<string>): (r: string)
    ensures r == "" <==> urls == []
  {
    if urls == [] then "" else "Images:\n" + Join("\n", urls)
  }

  lemma ImageLinksList(urls: seq<string>, i: nat)
    requires i < |urls|
    ensures StartsWith(ImageLinks(urls), "Images:\n")
    ensures Contains(ImageLinks(urls), urls[i])
  {
    var k := JoinPartAt("\n", urls, i);
    OccursAfter("Images:\n", Join("\n", urls), urls[i], k);
    assert ImageLinks(urls)[..8] == "Images:\n";
  }

  /** One poll line: the bracketed option, then its votes and percentage when non-empty. */
  function PollLine(caption: string, option: PollOption): (r: string)
    ensures StartsWith(r, "[" + caption + "]")
    ensures r == "[" + caption + "]" <==> option.votes == "" && option.percentage == ""
    ensures option.votes != "" && option.percentage != "" ==>
      r == "[" + caption + "] - " + option.votes + " - " + option.percentage
    ensures option.votes != "" && option.percentage == "" ==> r == "[" + caption + "] - " + option.votes
    ensures option.votes == "" && option.percentage != "" ==> r == "[" + caption + "] - " + option.percentage
  {
    var head := "[" + caption + "]";
    var votes := if option.votes != "" then " - " + option.votes else "";
    var percentage := if option.percentage != "" then " - " + option.percentage else "";
    var r := head + (votes + percentage);
    assert r[..|head|] == head;
    assert |r| == |head| + |votes| + |percentage|;
    r
  }

  function PollLines(poll: Dict<PollOption>): (r: seq<string>)
    ensures |r| == |poll|
    ensures forall i | 0 <= i < |poll| :: r[i] == PollLine(poll[i].0, poll[i].1)
  {
    seq(|poll|, i requires 0 <= i < |poll| => PollLine(poll[i].0, poll[i].1))
  }

  /** The poll block: one line per option in dict order, absent for an empty poll. */
  function PollBlock(poll: Dict<PollOption>): (r: string)
    ensures r == "" <==> poll == []
  {
    if poll == [] then "" else "Poll:\n" + Join("\n", PollLines(poll))
  }

  lemma PollBlockLines(poll: Dict<PollOption>, i: nat)
    requires i < |poll|
    ensures StartsWith(PollBlock(poll), "Poll:\n")
    ensures Contains(PollBlock(poll), PollLine(poll[i].0, poll[i].1))
  {
    var lines := PollLines(poll);
    var k := JoinPartAt("\n", lines, i);
    OccursAfter("Poll:\n", Join("\n", lines), lines[i], k);
    assert PollBlock(poll)[..6] == "Poll:\n";
  }

  /** The option-lines loop of the poll block. */
  method RenderPoll(poll: Dict<PollOption>) returns (text: string)
    ensures text == PollBlock(poll)
  {
    text := "";
    if poll != [] {
      var lines: seq<string> := [];
      for i := 0 to |poll|
        invariant |lines| == i
        invariant forall j | 0 <= j < i :: lines[j] == PollLine(poll[j].0, poll[j].1)
      {
        lines := lines + [PollLine(poll[i].0, poll[i].1)];
      }
      assert lines == PollLines(poll);
      text := "Poll:\n" + Join("\n", lines);
    }
  }

  function Blocks(c: PostContent, urls: seq<string>): seq<string> {
    [LinkedVideo(c), ImageLinks(urls), PollBlock(c.poll)]
  }

  /** The non-empty blocks, separated by blank lines. */
  function AttachedContent(c: PostContent, urls: seq<string>): string {
    Join("\n\n", NonEmptyParts(Blocks(c, urls)))
  }

  /**
   * The attached content is empty exactly when the post has no linked video, no
   * image and no poll, and otherwise holds every block it has.
   */
  lemma AttachedContentBlocks(c: PostContent, urls: seq<string>)
    ensures AttachedContent(c, urls) == "" <==> c.videoUrl == "" && urls == [] && c.poll == []
    ensures forall i | 0 <= i < 3 :: Blocks(c, urls)[i] != "" ==> Contains(AttachedContent(c, urls), Blocks(c, urls)[i])
  {
    var blocks := Blocks(c, urls);
    assert |blocks| == 3 && blocks[0] == LinkedVideo(c) && blocks[1] == ImageLinks(urls) && blocks[2] == PollBlock(c.poll);
    var parts := NonEmptyParts(blocks);
    JoinEmpty("\n\n", parts);
    forall i | 0 <= i < 3 && Blocks(c, urls)[i] != ""
      ensures Contains(AttachedContent(c, urls), Blocks(c, urls)[i])
    {
      var j :| 0 <= j < |parts| && parts[j] == Blocks(c, urls)[i];
      var k := JoinPartAt("\n\n", parts, j);
    }
  }

  /** `str()` of the like count, which is "None" when the post shows none. */
  function Likes(likeCount: Option<string>): string {
    match likeCount
    case None => "None"
    case Some(s) => s
  }

  function Header(c: PostContent): string {
    c.author + " - " + c.postPublishedTime + (if c.membersOnly then " - Members only" else "")
  }

  /** The post template. */
  function PostBody(c: PostContent, urls: seq<string>): string {
    Header(c) + "\n\n" + c.postText + "\n\n" + AttachedContent(c, urls) + "\n\n" + Likes(c.likeCount) + " Likes\n"
  }

  /** `post.txt`: the post template, wrapped in the share template for a shared post. */
  function PostOutput(c: PostContent, urls: seq<string>): string {
    match c.share
    case None => PostBody(c, urls)
    case Some(s) =>
      s.shareAuthor + " - " + s.shareTime + "\n\n" + s.shareText + "\n\n---\nOriginal Post:\n\n"
      + PostBody(c, urls) + "\n"
  }

  /**
   * A post's text opens with its author line and closes with its like count; a
   * shared post's text opens with the sharer's line and closes with the whole
   * original post.
   */
  lemma PostOutputShape(c: PostContent, urls: seq<string>)
    ensures c.share.None? ==>
      StartsWith(PostOutput(c, urls), Header(c) + "\n\n")
      && EndsWith(PostOutput(c, urls), "\n\n" + Likes(c.likeCount) + " Likes\n")
    ensures c.share.Some? ==>
      StartsWith(PostOutput(c, urls), c.share.value.shareAuthor + " - " + c.share.value.shareTime + "\n\n")
      && EndsWith(PostOutput(c, urls), "\n\n---\nOriginal Post:\n\n" + PostBody(c, urls) + "\n")
  {
    var body := PostBody(c, urls);
    var head := Header(c) + "\n\n";
    var tail := "\n\n" + Likes(c.likeCount) + " Likes\n";
    Framed(head, c.postText + "\n\n" + AttachedContent(c, urls), tail);
    assert body == head + (c.postText + "\n\n" + AttachedContent(c, urls)) + tail;
    if c.share.Some? {
      var s := c.share.value;
      var sHead := s.shareAuthor + " - " + s.shareTime + "\n\n";
      var sTail := "\n\n---\nOriginal Post:\n\n" + body + "\n";
      Framed(sHead, s.shareText, sTail);
      assert PostOutput(c, urls) == sHead + s.shareText + sTail;
    }
  }
}
