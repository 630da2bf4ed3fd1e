/**
 * The export ledger of the content exporter: `state` maps zero-padded post numbers
 * to post ids; a post whose id is already recorded is skipped, every other one gets
 * the next number after the largest one recorded before the run.
 */
module Exporter {
  import opened Wrappers
  import opened Strings
  import opened Json
  import opened Dicts
  import opened Seqs
  import opened Normalizer
  import opened Images
  import opened Render

  // ---------------------------------------------------------------- one feed item

  function Root(postDict: Json): Json {
    Path(postDict, ["backstagePostThreadRenderer", "post"])
  }

  predicate IsShare(postDict: Json) {
    Has(Root(postDict), "sharedPostRenderer")
  }

  /** The renderer a feed item's content comes from: for a share, the original post. */
  function ContentRenderer(postDict: Json): Json {
    if IsShare(postDict) then Path(Root(postDict), ["sharedPostRenderer", "originalPost", "backstagePostRenderer"])
    else Obj(Root(postDict), "backstagePostRenderer")
  }

  /**
   * The normalised content of a feed item. A share carries the sharer's details,
   * but its post id is the original post's.
   */
  function Prepare(postDict: Json): Result<PostContent> {
    var root := Root(postDict);
    if Has(root, "sharedPostRenderer") then
      var share :- ShareDetails(Obj(root, "sharedPostRenderer"));
      var content :- PostDetails(ContentRenderer(postDict));
      Ok(content.(share := Some(share)))
    else
      PostDetails(ContentRenderer(postDict))
  }

  /**
   * An extracted item is a share exactly when its feed item is; its id is the
   * content renderer's, and a share's own id is the share renderer's.
   */
  lemma PrepareShape(postDict: Json)
    requires Prepare(postDict).Ok?
    ensures var c := Prepare(postDict).value;
      && (c.share.Some? <==> IsShare(postDict))
      && c.postId == Str(ContentRenderer(postDict), "postId", "no_id_found")
      && (IsShare(postDict) ==>
        c.share.value.sharePostId == Str(Obj(Root(postDict), "sharedPostRenderer"), "postId", "id_not_found"))
  {
    var root := Root(postDict);
    var content := PostDetails(ContentRenderer(postDict));
    assert content.Ok?;
    PostDetailsId(ContentRenderer(postDict));
    if Has(root, "sharedPostRenderer") {
      var share := ShareDetails(Obj(root, "sharedPostRenderer"));
      assert share.Ok?;
      assert Prepare(postDict) == Ok(content.value.(share := Some(share.value)));
    } else {
      assert Prepare(postDict) == content;
    }
  }

  /** The per-item extraction of `export_posts`. */
  method PreparePost(postDict: Json) returns (r: Result<PostContent>)
    ensures r == Prepare(postDict)
  {
    var root := Root(postDict);
    if Has(root, "sharedPostRenderer") {
      var share :- ShareDetails(Obj(root, "sharedPostRenderer"));
      var content :- ExtractPostDetails(ContentRenderer(postDict));
      r := Ok(content.(share := Some(share)));
    } else {
      r := ExtractPostDetails(ContentRenderer(postDict));
    }
  }

  /** The id in the directory name: the share's own id when it has one. */
  function PathId(c: PostContent): string {
    if c.share.Some? && c.share.value.sharePostId != "" then c.share.value.sharePostId else c.postId
  }

  /** The post number as stored in the ledger and shown in the directory name. */
  function PostNum(num: nat): string {
    ZFill(num, 4)
  }

  /** `[{num}]{ (Members only)} {id}`. */
  function DirName(num: nat, c: PostContent): (r: string)
    ensures StartsWith(r, "[" + PostNum(num) + "]")
    ensures EndsWith(r, " " + PathId(c))
    ensures c.membersOnly ==> r == "[" + PostNum(num) + "] (Members only) " + PathId(c)
    ensures !c.membersOnly ==> r == "[" + PostNum(num) + "] " + PathId(c)
  {
    var head := "[" + PostNum(num) + "]";
    var tail := " " + PathId(c);
    var middle := if c.membersOnly then " (Members only)" else "";
    Framed(head, middle, tail);
    head + middle + tail
  }

  /**
   * What exporting one post produces: its directory, the text of `post.txt`, the
   * renderer dumped to `post.json`, the image urls and the video thumbnail to fetch.
   */
  datatype Export = Export(dirName: string, text: string, raw: Json, images: seq<string>, thumbnail: string)

  /** A post the run exports: its feed item, its content and its number. */
  datatype Written = Written(postDict: Json, content: PostContent, num: nat)

  function ExportOf(w: Written): Export {
    var urls := Deduplicated(w.content.attachedImages);
    Export(DirName(w.num, w.content), PostOutput(w.content, urls), ContentRenderer(w.postDict), urls,
      w.content.videoThumbnailUrl)
  }

  /** `exports` are the exports of `written`, in order. */
  predicate ExportsOf(exports: seq<Export>, written: seq<Written>) {
    |exports| == |written| && forall i | 0 <= i < |exports| :: exports[i] == ExportOf(written[i])
  }

  lemma ExportsOfAppend(exports: seq<Export>, written: seq<Written>, e: Export, w: Written)
    requires ExportsOf(exports, written) && e == ExportOf(w)
    ensures ExportsOf(exports + [e], written + [w])
  {
    forall i | 0 <= i < |exports| + 1 ensures (exports + [e])[i] == ExportOf((written + [w])[i]) {
      if i < |exports| {
        assert (exports + [e])[i] == exports[i] && (written + [w])[i] == written[i];
      }
    }
  }

  /** The files `export_posts` writes for one post it does not skip. */
  method ExportPost(w: Written) returns (e: Export)
    ensures e == ExportOf(w)
  {
    var images := DeduplicateImages(w.content.attachedImages);
    var text := PostOutput(w.content, images);
    e := Export(DirName(w.num, w.content), text, ContentRenderer(w.postDict), images, w.content.videoThumbnailUrl);
  }

  // ---------------------------------------------------------------- the ledger

  /** A loaded ledger: distinct keys, each a non-empty string of decimal digits. */
  predicate Ledger(state: Dict<string>) {
    KeysDistinct(state) && forall i | 0 <= i < |state| :: state[i].0 != "" && IsDigits(state[i].0)
  }

  /** `max(int(key) for key in keys)`, or 0 with no keys. */
  function MaxKey(keys: seq<string>): (r: nat)
    requires forall i | 0 <= i < |keys| :: IsDigits(keys[i])
    ensures forall i | 0 <= i < |keys| :: DigitsValue(keys[i]) <= r
    ensures keys == [] ==> r == 0
    ensures keys != [] ==> exists i | 0 <= i < |keys| :: DigitsValue(keys[i]) == r
  {
    if keys == [] then 0
    else
      var n := |keys| - 1;
      var m := MaxKey(keys[..n]);
      assert forall i | 0 <= i < n :: keys[..n][i] == keys[i];
      if DigitsValue(keys[n]) > m then DigitsValue(keys[n]) else m
  }

  /** The ledger and the posts written after some posts; `failed` once an extraction raised. */
  datatype Outcome = Outcome(state: Dict<string>, written: seq<Written>, failed: bool)

  /** The extraction of every post, in order. */
  function PrepareAll(posts: seq<Json>): seq<Result<PostContent>> {
    MapSeq(Prepare, posts)
  }

  /** One iteration of `export_posts`, for the post numbered `num` whose extraction gave `prepared`. */
  function ExportStep(o: Outcome, postDict: Json, prepared: Result<PostContent>, num: nat): Outcome {
    if o.failed then o
    else
      match prepared
      case Err(_) => o.(failed := true)
      case Ok(c) =>
        if c.postId in Values(o.state) then o
        else Outcome(Put(o.state, PostNum(num), c.postId), o.written + [Written(postDict, c, num)], false)
  }

  /**
   * `export_posts` over `posts` whose extractions gave `prepared`, the i-th post
   * (from 1) numbered `i + offset`.
   */
  function ExportRun(state: Dict<string>, posts: seq<Json>, prepared: seq<Result<PostContent>>, offset: nat): Outcome
    requires |prepared| == |posts|
  {
    if posts == [] then Outcome(state, [], false)
    else
      var n := |posts| - 1;
      ExportStep(ExportRun(state, posts[..n], prepared[..n], offset), posts[n], prepared[n], |posts| + offset)
  }

  /** `export_posts` run on `state`. */
  function ExportPostsSpec(state: Dict<string>, posts: seq<Json>): Outcome
    requires Ledger(state)
  {
    ExportRun(state, posts, PrepareAll(posts), MaxKey(Keys(state)))
  }

  /** The conditions every ledger lemma starts from. */
  predicate Start(state: Dict<string>, posts: seq<Json>, prepared: seq<Result<PostContent>>, offset: nat) {
    Ledger(state) && MaxKey(Keys(state)) <= offset && |prepared| == |posts|
  }

  lemma ExportRunFailedStep(state: Dict<string>, posts: seq<Json>, prepared: seq<Result<PostContent>>, offset: nat)
    requires |prepared| == |posts| && posts != []
    requires ExportRun(state, posts[..|posts| - 1], prepared[..|posts| - 1], offset).failed
    ensures ExportRun(state, posts, prepared, offset) == ExportRun(state, posts[..|posts| - 1], prepared[..|posts| - 1], offset)
  {
  }

  /** A run that failed stays failed and changes nothing more. */
  lemma {:induction false} ExportRunFailed(
    state: Dict<string>, posts: seq<Json>, prepared: seq<Result<PostContent>>, offset: nat, j: nat)
    requires |prepared| == |posts| && j <= |posts|
    requires ExportRun(state, posts[..j], prepared[..j], offset).failed
    ensures ExportRun(state, posts, prepared, offset) == ExportRun(state, posts[..j], prepared[..j], offset)
    decreases |posts| - j
  {
    if j < |posts| {
      var ps, qs := posts[..j + 1], prepared[..j + 1];
      assert ps[..j] == posts[..j] && qs[..j] == prepared[..j];
      ExportRunFailedStep(state, ps, qs, offset);
      ExportRunFailed(state, posts, prepared, offset, j + 1);
    } else {
      assert posts[..j] == posts;
      assert prepared[..j] == prepared;
    }
  }

  /**
   * The skip rule: a post whose id is recorded leaves the ledger as it is; any other
   * post appends exactly one entry, its number and its id, after the existing ones.
   */
  lemma {:induction false} ExportStepAppends(
    state: Dict<string>, posts: seq<Json>, prepared: seq<Result<PostContent>>, offset: nat)
    requires Start(state, posts, prepared, offset) && posts != []
    ensures var n := |posts| - 1;
      var o := ExportRun(state, posts[..n], prepared[..n], offset);
      ExportRun(state, posts, prepared, offset).state ==
        if !o.failed && prepared[n].Ok? && prepared[n].value.postId !in Values(o.state)
        then o.state + [(PostNum(|posts| + offset), prepared[n].value.postId)]
        else o.state
    decreases |posts|, 0
  {
    var n := |posts| - 1;
    ExportRunKeys(state, posts[..n], prepared[..n], offset);
    var o := ExportRun(state, posts[..n], prepared[..n], offset);
    if !o.failed && prepared[n].Ok? && prepared[n].value.postId !in Values(o.state) {
      var key := PostNum(|posts| + offset);
      OldKeysBelow(state, o.state, |posts| + offset);
      assert key !in Keys(o.state);
      PutNew(o.state, key, prepared[n].value.postId);
    }
  }

  /** Keys of a ledger extending `state` by entries numbered below `num` are all numbered below `num`. */
  lemma OldKeysBelow(state: Dict<string>, s: Dict<string>, num: nat)
    requires Ledger(state) && MaxKey(Keys(state)) < num
    requires |state| <= |s| && s[..|state|] == state
    requires forall i | |state| <= i < |s| :: IsDigits(s[i].0) && DigitsValue(s[i].0) < num
    ensures forall i | 0 <= i < |s| :: IsDigits(s[i].0) && DigitsValue(s[i].0) < num
  {
    forall i | 0 <= i < |state|
      ensures IsDigits(s[i].0) && DigitsValue(s[i].0) < num
    {
      assert s[i] == s[..|state|][i] == state[i];
      assert Keys(state)[i] == state[i].0;
    }
  }

  /** Every key from index `base` on is a number in `(lo, hi]`. */
  predicate NumberedIn(s: Dict<string>, base: nat, lo: nat, hi: nat) {
    forall i | base <= i < |s| :: IsDigits(s[i].0) && lo < DigitsValue(s[i].0) <= hi
  }

  lemma NumberedInAppend(s: Dict<string>, base: nat, lo: nat, hi: nat, num: nat, id: string)
    requires base <= |s| && NumberedIn(s, base, lo, hi) && lo < num && hi < num
    ensures NumberedIn(s + [(PostNum(num), id)], base, lo, num)
  {
    var t := s + [(PostNum(num), id)];
    forall i | base <= i < |t|
      ensures IsDigits(t[i].0) && lo < DigitsValue(t[i].0) <= num
    {
      if i < |s| {
        assert t[i] == s[i];
      } else {
        assert t[i].0 == PostNum(num);
      }
    }
  }

  /**
   * The ledger after a run starts with the ledger before it, untouched; every entry
   * it adds has a key numbered above `offset` (so above every key there was) and at
   * most `offset + |posts|`.
   */
  lemma {:induction false} ExportRunKeys(
    state: Dict<string>, posts: seq<Json>, prepared: seq<Result<PostContent>>, offset: nat)
    requires Start(state, posts, prepared, offset)
    ensures var r := ExportRun(state, posts, prepared, offset);
      && |state| <= |r.state| && r.state[..|state|] == state
      && NumberedIn(r.state, |state|, offset, offset + |posts|)
    decreases |posts|, 1
  {
    if posts != [] {
      var n := |posts| - 1;
      ExportRunKeys(state, posts[..n], prepared[..n], offset);
      ExportStepAppends(state, posts, prepared, offset);
      var o := ExportRun(state, posts[..n], prepared[..n], offset);
      var r := ExportRun(state, posts, prepared, offset);
      if r.state != o.state {
        NumberedInAppend(o.state, |state|, offset, offset + n, |posts| + offset, prepared[n].value.postId);
        assert r.state[..|o.state|] == o.state;
        assert r.state[..|state|] == o.state[..|state|];
      }
    }
  }

  /** Appending an entry numbered above every key keeps a ledger a ledger. */
  lemma LedgerAppend(s: Dict<string>, key: string, id: string)
    requires Ledger(s) && key != "" && IsDigits(key)
    requires forall i | 0 <= i < |s| :: DigitsValue(s[i].0) < DigitsValue(key)
    ensures Ledger(s + [(key, id)])
  {
    var t := s + [(key, id)];
    forall i, j | 0 <= i < j < |t|
      ensures t[i].0 != t[j].0
    {
      if j == |s| {
        assert DigitsValue(t[i].0) < DigitsValue(key);
      } else {
        assert t[i] == s[i] && t[j] == s[j];
      }
    }
  }

  /** Appending an entry keeps every value and adds its own. */
  lemma ValuesAppend(s: Dict<string>, key: string, id: string)
    ensures Values(s + [(key, id)]) == Values(s) + [id]
  {
  }

  /** The ledger stays a ledger: its keys stay distinct digit strings. */
  lemma {:induction false} ExportRunLedger(
    state: Dict<string>, posts: seq<Json>, prepared: seq<Result<PostContent>>, offset: nat)
    requires Start(state, posts, prepared, offset)
    ensures Ledger(ExportRun(state, posts, prepared, offset).state)
  {
    if posts != [] {
      var n := |posts| - 1;
      ExportRunLedger(state, posts[..n], prepared[..n], offset);
      ExportRunKeys(state, posts[..n], prepared[..n], offset);
      ExportStepAppends(state, posts, prepared, offset);
      var o := ExportRun(state, posts[..n], prepared[..n], offset);
      var r := ExportRun(state, posts, prepared, offset);
      if r.state != o.state {
        OldKeysBelow(state, o.state, |posts| + offset);
        LedgerAppend(o.state, PostNum(|posts| + offset), prepared[n].value.postId);
      }
    }
  }

  /** Every entry from index `base` on holds an id no earlier entry holds. */
  predicate FreshFrom(s: Dict<string>, base: nat) {
    forall i | base <= i < |s| :: s[i].1 !in Values(s[..i])
  }

  lemma FreshFromAppend(s: Dict<string>, base: nat, key: string, id: string)
    requires FreshFrom(s, base) && id !in Values(s)
    ensures FreshFrom(s + [(key, id)], base)
  {
    var t := s + [(key, id)];
    forall i | base <= i < |t|
      ensures t[i].1 !in Values(t[..i])
    {
      if i < |s| {
        assert t[..i] == s[..i] && t[i] == s[i];
      } else {
        assert t[..i] == s;
      }
    }
  }

  /** An entry the run adds holds an id the ledger did not hold before it. */
  lemma {:induction false} ExportRunFreshIds(
    state: Dict<string>, posts: seq<Json>, prepared: seq<Result<PostContent>>, offset: nat)
    requires Start(state, posts, prepared, offset)
    ensures FreshFrom(ExportRun(state, posts, prepared, offset).state, |state|)
  {
    if posts != [] {
      var n := |posts| - 1;
      ExportRunFreshIds(state, posts[..n], prepared[..n], offset);
      ExportStepAppends(state, posts, prepared, offset);
      var o := ExportRun(state, posts[..n], prepared[..n], offset);
      var r := ExportRun(state, posts, prepared, offset);
      if r.state != o.state {
        FreshFromAppend(o.state, |state|, PostNum(|posts| + offset), prepared[n].value.postId);
      }
    }
  }

  /** The ledger entries from index `base` on are, in order, the number and id of each written post. */
  predicate EntriesOf(s: Dict<string>, base: nat, written: seq<Written>) {
    base <= |s| && |written| == |s| - base
    && forall i | 0 <= i < |written| :: s[base + i] == (PostNum(written[i].num), written[i].content.postId)
  }

  lemma EntriesOfAppend(s: Dict<string>, base: nat, written: seq<Written>, w: Written)
    requires EntriesOf(s, base, written)
    ensures EntriesOf(s + [(PostNum(w.num), w.content.postId)], base, written + [w])
  {
  }

  /** The run's ledger gains exactly one entry per written post, in order: its number and its id. */
  lemma {:induction false} ExportRunWritten(
    state: Dict<string>, posts: seq<Json>, prepared: seq<Result<PostContent>>, offset: nat)
    requires Start(state, posts, prepared, offset)
    ensures var r := ExportRun(state, posts, prepared, offset); EntriesOf(r.state, |state|, r.written)
  {
    if posts != [] {
      var n := |posts| - 1;
      ExportRunWritten(state, posts[..n], prepared[..n], offset);
      ExportStepAppends(state, posts, prepared, offset);
      var o := ExportRun(state, posts[..n], prepared[..n], offset);
      var r := ExportRun(state, posts, prepared, offset);
      if r.state != o.state {
        var w := Written(posts[n], prepared[n].value, |posts| + offset);
        assert r.written == o.written + [w];
        EntriesOfAppend(o.state, |state|, o.written, w);
      } else {
        assert r.written == o.written;
      }
    }
  }

  /** Every extraction in `prepared` succeeded, and its id is among `ids`. */
  predicate AllRecorded(prepared: seq<Result<PostContent>>, ids: seq<string>) {
    forall j | 0 <= j < |prepared| :: prepared[j].Ok? && prepared[j].value.postId in ids
  }

  lemma AllRecordedGrow(prepared: seq<Result<PostContent>>, before: seq<string>, after: seq<string>)
    requires prepared != [] && AllRecorded(prepared[..|prepared| - 1], before)
    requires prepared[|prepared| - 1].Ok?
    requires after == before || after == before + [prepared[|prepared| - 1].value.postId]
    requires prepared[|prepared| - 1].value.postId in after
    ensures AllRecorded(prepared, after)
  {
    var n := |prepared| - 1;
    forall j | 0 <= j < n
      ensures prepared[j].Ok? && prepared[j].value.postId in after
    {
      assert prepared[..n][j] == prepared[j];
    }
  }

  /** Every post of a run that did not fail has its id in the ledger afterwards. */
  lemma {:induction false} ExportRunRecords(
    state: Dict<string>, posts: seq<Json>, prepared: seq<Result<PostContent>>, offset: nat)
    requires Start(state, posts, prepared, offset)
    requires !ExportRun(state, posts, prepared, offset).failed
    ensures AllRecorded(prepared, Values(ExportRun(state, posts, prepared, offset).state))
  {
    if posts != [] {
      var n := |posts| - 1;
      var o := ExportRun(state, posts[..n], prepared[..n], offset);
      var r := ExportRun(state, posts, prepared, offset);
      assert !o.failed && prepared[n].Ok?;
      ExportRunRecords(state, posts[..n], prepared[..n], offset);
      ExportStepAppends(state, posts, prepared, offset);
      var id := prepared[n].value.postId;
      ValuesAppend(o.state, PostNum(|posts| + offset), id);
      AllRecordedGrow(prepared, Values(o.state), Values(r.state));
    }
  }

  /** A run over posts that are all recorded already adds nothing. */
  lemma {:induction false} ExportRunRecorded(
    state: Dict<string>, posts: seq<Json>, prepared: seq<Result<PostContent>>, offset: nat)
    requires |prepared| == |posts|
    requires AllRecorded(prepared, Values(state))
    ensures ExportRun(state, posts, prepared, offset) == Outcome(state, [], false)
  {
    if posts != [] {
      var n := |posts| - 1;
      assert AllRecorded(prepared[..n], Values(state)) by {
        forall j | 0 <= j < n
          ensures prepared[..n][j].Ok? && prepared[..n][j].value.postId in Values(state)
        {
          assert prepared[..n][j] == prepared[j];
        }
      }
      ExportRunRecorded(state, posts[..n], prepared[..n], offset);
    }
  }

  /** Exporting the same posts a second time, whatever the offset, changes nothing. */
  lemma ExportRunIdempotent(
    state: Dict<string>, posts: seq<Json>, prepared: seq<Result<PostContent>>, offset: nat, offset2: nat)
    requires Start(state, posts, prepared, offset)
    requires !ExportRun(state, posts, prepared, offset).failed
    ensures var r := ExportRun(state, posts, prepared, offset);
      ExportRun(r.state, posts, prepared, offset2) == Outcome(r.state, [], false)
  {
    ExportRunRecords(state, posts, prepared, offset);
    ExportRunRecorded(ExportRun(state, posts, prepared, offset).state, posts, prepared, offset2);
  }

  /** The run over one more post, when its extraction raised: the run stops there, failed. */
  lemma ExportRunStops(
    state: Dict<string>, posts: seq<Json>, prepared: seq<Result<PostContent>>, offset: nat, index: nat)
    requires |prepared| == |posts| && index < |posts| && prepared[index].Err?
    requires !ExportRun(state, posts[..index], prepared[..index], offset).failed
    ensures ExportRun(state, posts, prepared, offset)
      == ExportRun(state, posts[..index], prepared[..index], offset).(failed := true)
  {
    assert posts[..index + 1][..index] == posts[..index];
    assert prepared[..index + 1][..index] == prepared[..index];
    ExportRunFailed(state, posts, prepared, offset, index + 1);
  }

  /** The run over one more post, the `index`-th, when its extraction succeeded: skipped or recorded. */
  lemma ExportRunNext(
    state: Dict<string>, posts: seq<Json>, prepared: seq<Result<PostContent>>, offset: nat, index: nat,
    o: Outcome, c: PostContent)
    requires |prepared| == |posts| && 0 < index <= |posts| && prepared[index - 1] == Ok(c)
    requires o == ExportRun(state, posts[..index - 1], prepared[..index - 1], offset) && !o.failed
    ensures ExportRun(state, posts[..index], prepared[..index], offset)
      == if c.postId in Values(o.state) then o
         else Outcome(Put(o.state, PostNum(index + offset), c.postId),
           o.written + [Written(posts[index - 1], c, index + offset)], false)
  {
    var n := index - 1;
    var ps, qs := posts[..index], prepared[..index];
    assert ps[..n] == posts[..n] && qs[..n] == prepared[..n];
    assert ps[n] == posts[n] && qs[n] == Ok(c);
    assert ExportRun(state, ps, qs, offset) == ExportStep(o, posts[n], Ok(c), index + offset);
  }

  /** The run over the whole prefix is the run. */
  lemma ExportRunAll(state: Dict<string>, posts: seq<Json>, prepared: seq<Result<PostContent>>, offset: nat)
    requires |prepared| == |posts|
    ensures ExportRun(state, posts[..|posts|], prepared[..|posts|], offset) == ExportRun(state, posts, prepared, offset)
  {
    assert posts[..|posts|] == posts;
    assert prepared[..|posts|] == prepared;
  }

  // ---------------------------------------------------------------- the exporter

  class ContentExporter {
    /** The archive: post numbers to the ids exported under them, in file order. */
    var state: Dict<string>

    predicate Valid()
      reads this
    {
      Ledger(state)
    }

    /** An exporter over an archive already loaded. */
    constructor (archive: Dict<string>)
      requires Ledger(archive)
      ensures Valid() && state == archive
    {
      state := archive;
    }

    /**
     * `export_posts`: numbers the posts after the largest recorded number, skips
     * the ones already recorded, and records and exports the others. `failed` when
     * an extraction raised; the entries recorded before that stay.
     */
    method ExportPosts(posts: seq<Json>) returns (exports: seq<Export>, failed: bool)
      requires Valid()
      modifies this`state
      ensures Valid()
      ensures var r := ExportPostsSpec(old(state), posts);
        && state == r.state && failed == r.failed
        && |exports| == |r.written| && forall i | 0 <= i < |exports| :: exports[i] == ExportOf(r.written[i])
    {
      var offset := MaxKey(Keys(state));
      ghost var start := state;
      ghost var prepared := PrepareAll(posts);
      ghost var written: seq<Written> := [];
      exports := [];
      failed := false;
      var index := 0;
      while index < |posts|
        invariant 0 <= index <= |posts| && !failed
        invariant Outcome(state, written, false) == ExportRun(start, posts[..index], prepared[..index], offset)
        invariant ExportsOf(exports, written)
      {
        var postDict := posts[index];
        var content := PreparePost(postDict);
        MapSeqAt(Prepare, posts, index);
        if content.Err? {
          ExportRunStops(start, posts, prepared, offset, index);
          failed := true;
          break;
        }
        var c := content.value;
        index := index + 1;
        ExportRunNext(start, posts, prepared, offset, index, Outcome(state, written, false), c);
        if c.postId !in Values(state) {
          var w := Written(postDict, c, index + offset);
          var e := ExportPost(w);
          ExportsOfAppend(exports, written, e, w);
          written := written + [w];
          exports := exports + [e];
          state := Put(state, PostNum(index + offset), c.postId);
        }
      }
      if !failed {
        ExportRunAll(start, posts, prepared, offset);
      }
      ExportRunLedger(start, posts, prepared, offset);
    }
  }
}
