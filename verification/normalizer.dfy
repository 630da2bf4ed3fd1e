/**
 * The normaliser of the content exporter: it flattens one post renderer of the feed
 * API into a `PostContent` record, filling every missing field with its default.
 */
module Normalizer {
  import opened Wrappers
  import opened Strings
  import opened Json
  import opened Dicts
  import opened Seqs

  datatype PollOption = PollOption(votes: string, percentage: string)

  datatype PostShare = PostShare(shareAuthor: string, shareText: string, shareTime: string, sharePostId: string)

  /** `likeCount` is `None` when the post has no vote count text. */
  datatype PostContent = PostContent(
    videoThumbnailUrl: string,
    videoUrl: string,
    videoTitle: string,
    videoPublishedTime: string,
    videoMembersOnly: bool,
    membersOnly: bool,
    author: string,
    postText: string,
    postPublishedTime: string,
    postId: string,
    likeCount: Option<string>,
    attachedImages: seq<string>,
    poll: Dict<PollOption>,
    share: Option<PostShare>)

  const YoutubeHost := "https://youtube.com"
  const WwwYoutubeHost := "https://www.youtube.com"

  /** `.get("navigationEndpoint", {}).get("commandMetadata", {}).get("webCommandMetadata", {}).get("url", "")`. */
  function CommandUrl(j: Json): string {
    Str(Path(j, ["navigationEndpoint", "commandMetadata", "webCommandMetadata"]), "url", "")
  }

  /** A site-relative link ("/...") made absolute against `host`; any other link is kept. */
  function Absolute(host: string, link: string): (r: string)
    requires host != [] && host[0] != '/'
    ensures !StartsWith(r, "/")
    ensures r == "" <==> link == ""
    ensures EndsWith(r, link)
    ensures StartsWith(link, "/") ==> r == host + link
    ensures !StartsWith(link, "/") ==> r == link
  {
    if StartsWith(link, "/") then
      assert (host + link)[0] == host[0];
      host + link
    else link
  }

  // ---------------------------------------------------------------- post text

  function RunText(run: Json): string {
    Str(run, "text", "")
  }

  function RunLink(run: Json): string {
    Absolute(YoutubeHost, CommandUrl(run))
  }

  /**
   * A run with text `text` and absolute link `link`: the text, followed by the link
   * in parentheses when there is a link that is not the text itself.
   */
  function RenderLinked(text: string, link: string): (r: string)
    ensures StartsWith(r, text)
    ensures r == text <==> link == "" || link == text
    ensures r != text ==> r == text + " (" + link + ")"
  {
    if link != "" && text != link then
      var r := text + " (" + link + ")";
      assert r[..|text|] == text;
      r
    else text
  }

  /** One text run as `_get_post_text` renders it. */
  function RenderRun(run: Json): string {
    RenderLinked(RunText(run), RunLink(run))
  }

  /** The rendered runs, concatenated with no separator. */
  function PostText(runs: seq<Json>): string {
    if runs == [] then "" else PostText(runs[..|runs| - 1]) + RenderRun(runs[|runs| - 1])
  }

  /** Rendering distributes over concatenation of run lists. */
  lemma {:induction false} PostTextAppend(a: seq<Json>, b: seq<Json>)
    ensures PostText(a + b) == PostText(a) + PostText(b)
    decreases |b|
  {
    if b != [] {
      var n := |b| - 1;
      assert (a + b)[..|a + b| - 1] == a + b[..n];
      assert (a + b)[|a + b| - 1] == b[n];
      PostTextAppend(a, b[..n]);
    } else {
      assert a + b == a;
    }
  }

  /** `_get_post_text`. */
  method GetPostText(runs: seq<Json>) returns (text: string)
    ensures text == PostText(runs)
  {
    var parts: seq<string> := [];
    for i := 0 to |runs|
      invariant Join("", parts) == PostText(runs[..i])
    {
      var part := RenderRun(runs[i]);
      ConcatAppend(parts, part);
      assert runs[..i + 1][..i] == runs[..i];
      parts := parts + [part];
    }
    assert runs[..|runs|] == runs;
    text := Join("", parts);
  }

  // ---------------------------------------------------------------- images

  function Thumbnails(container: Json): seq<Json> {
    Arr(Path(container, ["backstageImageRenderer", "image"]), "thumbnails", [EmptyObj])
  }

  /**
   * `_get_image_urls`: the url of every thumbnail of the container's image renderer;
   * without a renderer that is the single empty url of the `[dict()]` default.
   */
  function ImageUrls(container: Json): seq<string> {
    var thumbs := Thumbnails(container);
    seq(|thumbs|, i requires 0 <= i < |thumbs| => Str(thumbs[i], "url", ""))
  }

  /** One url per thumbnail, the empty one where the thumbnail has none; `[""]` without a renderer. */
  lemma ImageUrlsShape(container: Json)
    ensures var r := ImageUrls(container);
      && |r| == |Thumbnails(container)|
      && (forall i | 0 <= i < |r| :: r[i] == Str(Thumbnails(container)[i], "url", ""))
      && (!Has(container, "backstageImageRenderer") ==> r == [""])
  {
  }

  function MultiImages(post: Json): seq<Json> {
    Arr(Path(post, ["backstageAttachment", "postMultiImageRenderer"]), "images", [])
  }


  /** The single attached image's urls, then those of each image of a multi-image attachment. */
  function AttachedImages(post: Json): seq<string> {
    ImageUrls(Obj(post, "backstageAttachment")) + FlatMap(ImageUrls, MultiImages(post))
  }

  /** A post with no attachment still lists one empty image url. */
  lemma NoAttachmentImages(post: Json)
    requires !Has(post, "backstageAttachment")
    ensures AttachedImages(post) == [""]
  {
    assert MultiImages(post) == [];
    ImageUrlsShape(Obj(post, "backstageAttachment"));
  }

  /** The image loop of `_extract_post_details`. */
  method CollectImages(post: Json) returns (urls: seq<string>)
    ensures urls == AttachedImages(post)
  {
    var single := ImageUrls(Obj(post, "backstageAttachment"));
    var images := MultiImages(post);
    urls := single;
    for i := 0 to |images|
      invariant urls == single + FlatMap(ImageUrls, images[..i])
    {
      FlatMapSnoc(single, ImageUrls, images, i);
      urls := urls + ImageUrls(images[i]);
    }
    assert images[..|images|] == images;
  }

  // ---------------------------------------------------------------- poll

  function Choices(post: Json): seq<Json> {
    Arr(Path(post, ["backstageAttachment", "pollRenderer"]), "choices", [])
  }

  /** Python truthiness of a string or `None`. */
  predicate Filled(s: Option<string>) {
    s.Some? && s.value != ""
  }

  function VotedPercentage(choice: Json): Option<string> {
    OptStr(Obj(choice, "votePercentage"), "simpleText")
  }

  function IfSelectedPercentage(choice: Json): Option<string> {
    OptStr(Obj(choice, "votePercentageIfSelected"), "simpleText")
  }

  /** One poll choice: its label (first run's text, "Null" by default) and its option. */
  function PollChoice(choice: Json): (r: Result<(string, PollOption)>)
    ensures r.Err? <==> FirstRunText(choice, "text", "Null").Err?
  {
    var caption :- FirstRunText(choice, "text", "Null");
    var voted := VotedPercentage(choice);
    var percentage := if Filled(voted) then voted else IfSelectedPercentage(choice);
    Ok((caption, PollOption(Str(choice, "numVotes", ""), if Filled(percentage) then percentage.value else "")))
  }

  /**
   * The option of a choice: its votes ("" by default) and a percentage that is the
   * voted one when that is non-empty, otherwise the one shown if selected, and empty
   * only when neither is.
   */
  lemma PollChoiceOption(choice: Json)
    requires PollChoice(choice).Ok?
    ensures var (caption, option) := PollChoice(choice).value;
      && caption == FirstRunText(choice, "text", "Null").value
      && (!Has(choice, "text") ==> caption == "Null")
      && option.votes == Str(choice, "numVotes", "")
      && (Filled(VotedPercentage(choice)) ==> option.percentage == VotedPercentage(choice).value)
      && (!Filled(VotedPercentage(choice)) && Filled(IfSelectedPercentage(choice)) ==>
          option.percentage == IfSelectedPercentage(choice).value)
      && (option.percentage == "" <==> !Filled(VotedPercentage(choice)) && !Filled(IfSelectedPercentage(choice)))
  {
  }

  /** The poll dict: each choice assigned under its label, in order. */
  function Poll(choices: seq<Json>): Result<Dict<PollOption>> {
    PutAll(MapSeq(PollChoice, choices))
  }

  /** The poll succeeds when every choice's label lookup does. */
  lemma PollOkAll(choices: seq<Json>)
    requires forall i | 0 <= i < |choices| :: PollChoice(choices[i]).Ok?
    ensures Poll(choices).Ok?
  {
    var entries := MapSeq(PollChoice, choices);
    forall i | 0 <= i < |choices| ensures entries[i].Ok? {
      MapSeqAt(PollChoice, choices, i);
    }
    PutAllOk(entries);
  }

  /** One choice whose label lookup fails makes the whole poll fail. */
  lemma PollErrFrom(choices: seq<Json>, i: nat)
    requires i < |choices| && PollChoice(choices[i]).Err?
    ensures Poll(choices).Err?
  {
    MapSeqAt(PollChoice, choices, i);
    PutAllErr(MapSeq(PollChoice, choices), i);
  }

  /** No label appears twice in the poll. */
  lemma PollKeysDistinct(choices: seq<Json>)
    requires Poll(choices).Ok?
    ensures KeysDistinct(Poll(choices).value)
  {
    PutAllKeysDistinct(MapSeq(PollChoice, choices));
  }

  /** A label maps to the option of the last choice carrying it: later choices overwrite. */
  lemma PollLastWins(choices: seq<Json>, i: nat)
    requires Poll(choices).Ok? && i < |choices|
    requires PollChoice(choices[i]).Ok?
    requires forall j | i < j < |choices| :: PollChoice(choices[j]).Ok? ==>
      PollChoice(choices[j]).value.0 != PollChoice(choices[i]).value.0
    ensures Lookup(Poll(choices).value, PollChoice(choices[i]).value.0) == Some(PollChoice(choices[i]).value.1)
  {
    var entries := MapSeq(PollChoice, choices);
    MapSeqAt(PollChoice, choices, i);
    forall j | i < j < |choices|
      ensures entries[j].Ok? ==> entries[j].value.0 != entries[i].value.0
    {
      MapSeqAt(PollChoice, choices, j);
    }
    PutAllLastWins(entries, i);
  }

  /** The poll loop of `_extract_post_details`. */
  method CollectPoll(choices: seq<Json>) returns (r: Result<Dict<PollOption>>)
    ensures r == Poll(choices)
  {
    var poll: Dict<PollOption> := [];
    for i := 0 to |choices|
      invariant Poll(choices[..i]) == Ok(poll)
    {
      var entries := MapSeq(PollChoice, choices[..i + 1]);
      MapSeqSnoc(PollChoice, choices, i);
      assert entries[..i] == MapSeq(PollChoice, choices[..i]);
      var choice := PollChoice(choices[i]);
      if choice.Err? {
        PollErrFrom(choices, i);
        return Err(choice.error);
      }
      poll := Put(poll, choice.value.0, choice.value.1);
    }
    assert choices[..|choices|] == choices;
    r := Ok(poll);
  }

  // ---------------------------------------------------------------- linked video

  function Video(post: Json): Json {
    Path(post, ["backstageAttachment", "videoRenderer"])
  }

  function BadgeLabel(badge: Json): string {
    Str(Obj(badge, "metadataBadgeRenderer"), "label", "")
  }

  predicate HasMembersBadge(badges: seq<Json>) {
    exists i | 0 <= i < |badges| :: BadgeLabel(badges[i]) == "Members only"
  }

  /** The badge loop: stops at the first "Members only" label. */
  method MembersOnlyBadge(badges: seq<Json>) returns (found: bool)
    ensures found <==> HasMembersBadge(badges)
  {
    found := false;
    var i := 0;
    while i < |badges|
      invariant 0 <= i <= |badges|
      invariant forall j | 0 <= j < i :: BadgeLabel(badges[j]) != "Members only"
    {
      if BadgeLabel(badges[i]) == "Members only" {
        found := true;
        break;
      }
      i := i + 1;
    }
  }

  /**
   * The last thumbnail's url up to its first "?": all of it when it has no "?",
   * otherwise the prefix that the first "?" follows.
   */
  function VideoThumbnail(video: Json): (r: Result<string>)
    ensures r.Err? <==> LastOf(Obj(video, "thumbnail"), "thumbnails").Err?
    ensures r.Ok? ==> var url := Str(LastOf(Obj(video, "thumbnail"), "thumbnails").value, "url", "");
      && StartsWith(url, r.value) && !Contains(r.value, "?")
      && (r.value == url || OccursAt(url, "?", |r.value|))
  {
    var last :- LastOf(Obj(video, "thumbnail"), "thumbnails");
    Ok(Before(Str(last, "url", ""), "?"))
  }

  // ---------------------------------------------------------------- whole post

  function ContentRuns(post: Json): seq<Json> {
    Arr(Obj(post, "contentText"), "runs", [])
  }

  /** `_extract_post_details`. */
  function PostDetails(post: Json): Result<PostContent> {
    var author :- FirstRunText(post, "authorText", "");
    var time :- FirstRunText(post, "publishedTimeText", "");
    var poll :- Poll(Choices(post));
    var video := Video(post);
    var title :- FirstRunText(video, "title", "");
    var thumbnail :- VideoThumbnail(video);
    Ok(PostContent(
      videoThumbnailUrl := thumbnail,
      videoUrl := Absolute(WwwYoutubeHost, CommandUrl(video)),
      videoTitle := title,
      videoPublishedTime := Str(Obj(video, "publishedTimeText"), "simpleText", ""),
      videoMembersOnly := HasMembersBadge(Arr(video, "badges", [])),
      membersOnly := Has(post, "sponsorsOnlyBadge"),
      author := author,
      postText := PostText(ContentRuns(post)),
      postPublishedTime := time,
      postId := Str(post, "postId", "no_id_found"),
      likeCount := OptStr(Obj(post, "voteCount"), "simpleText"),
      attachedImages := AttachedImages(post),
      poll := poll,
      share := None))
  }

  /**
   * Normalisation fails exactly when one of the run lists indexed with `[0]` or
   * `[-1]` is present but empty.
   */
  lemma PostDetailsErr(post: Json)
    ensures PostDetails(post).Err? <==>
      || FirstRunText(post, "authorText", "").Err?
      || FirstRunText(post, "publishedTimeText", "").Err?
      || (exists i | 0 <= i < |Choices(post)| :: FirstRunText(Choices(post)[i], "text", "Null").Err?)
      || FirstRunText(Video(post), "title", "").Err?
      || LastOf(Obj(Video(post), "thumbnail"), "thumbnails").Err?
  {
    var choices := Choices(post);
    if exists i | 0 <= i < |choices| :: FirstRunText(choices[i], "text", "Null").Err? {
      var i :| 0 <= i < |choices| && FirstRunText(choices[i], "text", "Null").Err?;
      PollErrFrom(choices, i);
    } else {
      PollOkAll(choices);
    }
  }

  /** The flags and derived fields of a normalised post. */
  lemma PostDetailsFields(post: Json)
    requires PostDetails(post).Ok?
    ensures var c := PostDetails(post).value;
      && (c.membersOnly <==> Has(post, "sponsorsOnlyBadge"))
      && (c.videoMembersOnly <==>
          exists i | 0 <= i < |Arr(Video(post), "badges", [])| ::
            BadgeLabel(Arr(Video(post), "badges", [])[i]) == "Members only")
      && c.videoThumbnailUrl == VideoThumbnail(Video(post)).value
      && (var link := CommandUrl(Video(post));
          c.videoUrl == if StartsWith(link, "/") then WwwYoutubeHost + link else link)
      && KeysDistinct(c.poll)
  {
    var c := PostDetails(post).value;
    var video := Video(post);
    var thumbnail := VideoThumbnail(video);
    var poll := Poll(Choices(post));
    assert thumbnail.Ok? && poll.Ok?;
    assert c.videoThumbnailUrl == thumbnail.value && c.poll == poll.value;
    assert c.videoUrl == Absolute(WwwYoutubeHost, CommandUrl(video));
    PollKeysDistinct(Choices(post));
  }

  /** A normalised post carries the renderer's own id, "no_id_found" when it has none, and no share. */
  lemma PostDetailsId(post: Json)
    requires PostDetails(post).Ok?
    ensures PostDetails(post).value.postId == Str(post, "postId", "no_id_found")
    ensures !Has(post, "postId") ==> PostDetails(post).value.postId == "no_id_found"
    ensures PostDetails(post).value.share.None?
  {
  }

  /** An empty renderer normalises to the defaults, with one empty image url. */
  lemma EmptyPostDetails()
    ensures PostDetails(EmptyObj) == Ok(PostContent(
      videoThumbnailUrl := "", videoUrl := "", videoTitle := "", videoPublishedTime := "",
      videoMembersOnly := false, membersOnly := false, author := "", postText := "",
      postPublishedTime := "", postId := "no_id_found", likeCount := None,
      attachedImages := [""], poll := [], share := None))
  {
    assert Video(EmptyObj) == EmptyObj;
    assert FirstRunText(EmptyObj, "authorText", "") == Ok("");
    assert FirstRunText(EmptyObj, "publishedTimeText", "") == Ok("");
    assert FirstRunText(EmptyObj, "title", "") == Ok("");
    assert Choices(EmptyObj) == [];
    assert ContentRuns(EmptyObj) == [];
    assert MultiImages(EmptyObj) == [];
    assert Arr(Video(EmptyObj), "badges", []) == [];
    assert Poll([]) == Ok([]);
    assert LastOf(Obj(EmptyObj, "thumbnail"), "thumbnails") == Ok(EmptyObj);
    assert Before("", "?") == "";
    assert VideoThumbnail(EmptyObj) == Ok("");
    assert CommandUrl(EmptyObj) == "";
    NoAttachmentImages(EmptyObj);
  }

  /** `_extract_post_details`, with its image, poll and badge loops. */
  method ExtractPostDetails(post: Json) returns (r: Result<PostContent>)
    ensures r == PostDetails(post)
  {
    var author :- FirstRunText(post, "authorText", "");
    var time :- FirstRunText(post, "publishedTimeText", "");
    var text := GetPostText(ContentRuns(post));
    var images := CollectImages(post);
    var poll :- CollectPoll(Choices(post));
    var video := Video(post);
    var title :- FirstRunText(video, "title", "");
    var thumbnail :- VideoThumbnail(video);
    var videoMembersOnly := MembersOnlyBadge(Arr(video, "badges", []));
    r := Ok(PostContent(
      videoThumbnailUrl := thumbnail,
      videoUrl := Absolute(WwwYoutubeHost, CommandUrl(video)),
      videoTitle := title,
      videoPublishedTime := Str(Obj(video, "publishedTimeText"), "simpleText", ""),
      videoMembersOnly := videoMembersOnly,
      membersOnly := Has(post, "sponsorsOnlyBadge"),
      author := author,
      postText := text,
      postPublishedTime := time,
      postId := Str(post, "postId", "no_id_found"),
      likeCount := OptStr(Obj(post, "voteCount"), "simpleText"),
      attachedImages := images,
      poll := poll,
      share := None));
  }

  // ---------------------------------------------------------------- shares

  /**
   * `_extract_post_share_detais`: the sharer's details, read from the share wrapper;
   * fails when the sharer's name or time runs are present but empty.
   */
  function ShareDetails(wrapper: Json): (r: Result<PostShare>)
    ensures r.Err? <==>
      FirstRunText(wrapper, "displayName", "N/A").Err? || FirstRunText(wrapper, "publishedTimeText", "").Err?
    ensures r.Ok? ==> !Has(wrapper, "postId") ==> r.value.sharePostId == "id_not_found"
    ensures r.Ok? ==> !Has(wrapper, "displayName") ==> r.value.shareAuthor == "N/A"
    ensures r.Ok? ==> r.value.shareText == PostText(Arr(Obj(wrapper, "content"), "runs", []))
    ensures r.Ok? ==> r.value.shareAuthor == FirstRunText(wrapper, "displayName", "N/A").value
    ensures r.Ok? ==> r.value.shareTime == FirstRunText(wrapper, "publishedTimeText", "").value
    ensures r.Ok? ==> r.value.sharePostId == Str(wrapper, "postId", "id_not_found")
  {
    var author :- FirstRunText(wrapper, "displayName", "N/A");
    var time :- FirstRunText(wrapper, "publishedTimeText", "");
    Ok(PostShare(
      shareAuthor := author,
      shareText := PostText(Arr(Obj(wrapper, "content"), "runs", [])),
      shareTime := time,
      sharePostId := Str(wrapper, "postId", "id_not_found")))
  }
}
