/**
 * The feed walker (src/extractor.py): the continuation-token pagination of the
 * community feed, the run-scoped de-duplication of posts by id, and the lookup of a
 * single post.
 *
 * HTTP is not modelled: the parsed JSON of each response is an input. The first
 * paginated request is answered by `initResponse`; the k-th continuation request
 * (counting from 0) by `responses[k]`, and a request past the end of `responses` by
 * `{}`, which carries no items.
 */
module Extractor {
  import opened Wrappers
  import opened Strings
  import opened Json
  import opened Dicts

  /** What `extract_init_info` scraped from the channel page. */
  datatype InitData = InitData(apiKey: string, requestBody: map<string, Json>)

  /**
   * `get_continuation_token`: the string at
   * `continuationItemRenderer.continuationEndpoint.continuationCommand.token`.
   */
  function ContinuationToken(container: Json): (r: Option<string>)
    ensures r.Some? <==>
      && Has(container, "continuationItemRenderer")
      && container.fields["continuationItemRenderer"].JObj?
      && Has(container.fields["continuationItemRenderer"], "continuationEndpoint")
      && container.fields["continuationItemRenderer"].fields["continuationEndpoint"].JObj?
      && Has(container.fields["continuationItemRenderer"].fields["continuationEndpoint"], "continuationCommand")
      && container.fields["continuationItemRenderer"].fields["continuationEndpoint"]
           .fields["continuationCommand"].JObj?
      && Has(container.fields["continuationItemRenderer"].fields["continuationEndpoint"]
               .fields["continuationCommand"], "token")
      && container.fields["continuationItemRenderer"].fields["continuationEndpoint"]
           .fields["continuationCommand"].fields["token"].JStr?
    ensures r.Some? ==>
      r.value == container.fields["continuationItemRenderer"].fields["continuationEndpoint"]
        .fields["continuationCommand"].fields["token"].s
  {
    OptStr(Path(container, ["continuationItemRenderer", "continuationEndpoint", "continuationCommand"]), "token")
  }

  /** `while token:` goes on only with a non-empty token. */
  predicate Proceed(token: Option<string>) {
    token.Some? && token.value != ""
  }

  /** `is_community_tab`: the tab's `webCommandMetadata.url` ends with "/community". */
  predicate IsCommunityTab(tab: Json) {
    EndsWith(Str(Path(tab, ["tabRenderer", "endpoint", "commandMetadata", "webCommandMetadata"]), "url", ""),
      "/community")
  }

  /** The id the walker de-duplicates by (empty for a shared post). */
  function PostId(post: Json): string {
    Str(Path(post, ["backstagePostThreadRenderer", "post", "backstagePostRenderer"]), "postId", "")
  }

  function Tabs(response: Json): seq<Json> {
    Arr(Path(response, ["contents", "twoColumnBrowseResultsRenderer"]), "tabs", [])
  }

  /**
   * The item list of a community tab: the `itemSectionRenderer.contents` of the first
   * entry of its `sectionListRenderer.contents`; an empty entry list fails the lookup.
   */
  function SectionItems(tab: Json): (r: Result<seq<Json>>)
    ensures var sl := Path(tab, ["tabRenderer", "content", "sectionListRenderer"]);
      && (r.Err? <==> Has(sl, "contents") && sl.fields["contents"] == JArr([]))
      && (Has(sl, "contents") && sl.fields["contents"].JArr? && sl.fields["contents"].items != [] ==>
            r == Ok(Arr(Obj(sl.fields["contents"].items[0], "itemSectionRenderer"), "contents", [])))
      && (!(Has(sl, "contents") && sl.fields["contents"].JArr?) ==> r == Ok([]))
  {
    var section :- FirstOf(Path(tab, ["tabRenderer", "content", "sectionListRenderer"]), "contents");
    Ok(Arr(Obj(section, "itemSectionRenderer"), "contents", []))
  }

  /** The item list of the first community tab of `tabs`; `None` when there is none. */
  function CommunityItems(tabs: seq<Json>): (r: Result<Option<seq<Json>>>)
    ensures r == Ok(None) <==> forall i | 0 <= i < |tabs| :: !IsCommunityTab(tabs[i])
  {
    if tabs == [] then Ok(None)
    else if IsCommunityTab(tabs[0]) then
      var items :- SectionItems(tabs[0]);
      Ok(Some(items))
    else
      var r := CommunityItems(tabs[1..]);
      assert forall i | 1 <= i < |tabs| :: tabs[i] == tabs[1..][i - 1];
      r
  }

  /** The tabs before the first community tab are passed over; its item list is the result. */
  lemma {:induction false} CommunityItemsFirst(tabs: seq<Json>, i: nat)
    requires i < |tabs| && IsCommunityTab(tabs[i]) && forall j | 0 <= j < i :: !IsCommunityTab(tabs[j])
    ensures SectionItems(tabs[i]).Err? ==> CommunityItems(tabs) == Err(SectionItems(tabs[i]).error)
    ensures SectionItems(tabs[i]).Ok? ==> CommunityItems(tabs) == Ok(Some(SectionItems(tabs[i]).value))
  {
    if i > 0 {
      assert forall j | 0 <= j < i - 1 :: tabs[1..][j] == tabs[j + 1];
      CommunityItemsFirst(tabs[1..], i - 1);
    }
  }

  /** The response handling of `_get_posts_init`. */
  function InitPostList(response: Json): Result<Option<seq<Json>>> {
    CommunityItems(Tabs(response))
  }

  /** The response handling of `_get_posts`. */
  function ContinuationItems(response: Json): (r: Result<seq<Json>>)
    ensures r.Err? <==>
      Has(response, "onResponseReceivedEndpoints") && response.fields["onResponseReceivedEndpoints"] == JArr([])
    ensures
      (&& Has(response, "onResponseReceivedEndpoints") && response.fields["onResponseReceivedEndpoints"].JArr?
       && response.fields["onResponseReceivedEndpoints"].items != []) ==>
        var first := response.fields["onResponseReceivedEndpoints"].items[0];
        r == Ok(Arr(Obj(first, "appendContinuationItemsAction"), "continuationItems", []))
    ensures !(Has(response, "onResponseReceivedEndpoints") && response.fields["onResponseReceivedEndpoints"].JArr?) ==>
      r == Ok([])
  {
    var first :- FirstOf(response, "onResponseReceivedEndpoints");
    Ok(Arr(Obj(first, "appendContinuationItemsAction"), "continuationItems", []))
  }

  /** The posts one continuation page contributes and the token it hands on. */
  datatype Split = Split(items: seq<Json>, next: Option<string>)

  /** Whether the item is a continuation marker (`continuationItemRenderer` is truthy). */
  predicate IsMarker(item: Json) {
    Has(item, "continuationItemRenderer") && Truthy(item.fields["continuationItemRenderer"])
  }

  /** How the loop body of `get_posts` splits one continuation page. */
  function SplitPage(page: seq<Json>): (r: Split)
    ensures page == [] ==> r == Split([], None)
    ensures page != [] && IsMarker(page[|page| - 1]) ==>
      r.items + [page[|page| - 1]] == page && r.next == ContinuationToken(page[|page| - 1])
    ensures page != [] && !IsMarker(page[|page| - 1]) ==> r == Split(page, None)
  {
    if page == [] then Split([], None)
    else if IsMarker(page[|page| - 1]) then
      Split(page[..|page| - 1], ContinuationToken(page[|page| - 1]))
    else Split(page, None)
  }

  /** The posts collected and the tokens sent while following the continuation chain. */
  datatype Walked = Walked(items: seq<Json>, tokens: seq<string>)

  function Prepend(items: seq<Json>, token: string, r: Result<Walked>): Result<Walked> {
    match r
    case Ok(w) => Ok(Walked(items + w.items, [token] + w.tokens))
    case Err(e) => Err(e)
  }

  /** Items and tokens gathered so far, followed by what the rest of the walk gathers. */
  function Glue(items: seq<Json>, tokens: seq<string>, r: Result<Walked>): Result<Walked> {
    match r
    case Ok(w) => Ok(Walked(items + w.items, tokens + w.tokens))
    case Err(e) => Err(e)
  }

  lemma GlueAssoc(c: seq<Json>, t: seq<string>, items: seq<Json>, token: string, r: Result<Walked>)
    ensures Glue(c, t, Prepend(items, token, r)) == Glue(c + items, t + [token], r)
  {
    match r {
      case Ok(w) =>
        assert c + (items + w.items) == (c + items) + w.items;
        assert t + ([token] + w.tokens) == (t + [token]) + w.tokens;
      case Err(_) =>
    }
  }

  /**
   * The `while token:` loop of `get_posts`, starting at `token` with the responses
   * from the `from`-th on still to come.
   */
  function Walk(responses: seq<Json>, from: nat, token: Option<string>): Result<Walked>
    decreases |responses| - from
  {
    if !Proceed(token) then Ok(Walked([], []))
    else if from >= |responses| then Ok(Walked([], [token.value]))
    else
      match ContinuationItems(responses[from])
      case Err(e) => Err(e)
      case Ok(page) =>
        var split := SplitPage(page);
        Prepend(split.items, token.value, Walk(responses, from + 1, split.next))
  }

  /** The posts collected from the first page and the continuation chain it starts. */
  function Collected(initPosts: Option<seq<Json>>, responses: seq<Json>): Result<Walked> {
    match initPosts
    case None => Ok(Walked([], []))
    case Some(ps) =>
      if ps == [] then Ok(Walked([], []))
      else
        var w :- Walk(responses, 0, ContinuationToken(ps[|ps| - 1]));
        Ok(Walked(ps[..|ps| - 1] + w.items, w.tokens))
  }

  /** The post at index `i` is the first with its id and its id was not seen before. */
  predicate FirstNew(key: Json -> string, posts: seq<Json>, seen: set<string>, i: nat)
    requires i < |posts|
  {
    key(posts[i]) !in seen && forall j | 0 <= j < i :: key(posts[j]) != key(posts[i])
  }

  /** Reference definition: the posts that are the first new occurrence of their id, in order. */
  function FirstNewPosts(key: Json -> string, posts: seq<Json>, seen: set<string>): seq<Json> {
    if posts == [] then []
    else
      FirstNewPosts(key, posts[..|posts| - 1], seen)
      + (if FirstNew(key, posts, seen, |posts| - 1) then [posts[|posts| - 1]] else [])
  }

  /** The de-duplication loop of `get_posts`: kept posts and the seen-set afterwards. */
  function Dedup(key: Json -> string, posts: seq<Json>, seen: set<string>): (seq<Json>, set<string>) {
    if posts == [] then ([], seen)
    else
      var (kept, now) := Dedup(key, posts[..|posts| - 1], seen);
      var id := key(posts[|posts| - 1]);
      if id in now then (kept, now) else (kept + [posts[|posts| - 1]], now + {id})
  }

  /** The ids of a list of posts. */
  function Ids(key: Json -> string, posts: seq<Json>): (r: set<string>)
    ensures forall i | 0 <= i < |posts| :: key(posts[i]) in r
  {
    if posts == [] then {}
    else Ids(key, posts[..|posts| - 1]) + {key(posts[|posts| - 1])}
  }

  /** Every id in `Ids(key, posts)` belongs to one of the posts. */
  lemma {:induction false} IdsWitness(key: Json -> string, posts: seq<Json>, id: string) returns (j: nat)
    requires id in Ids(key, posts)
    ensures j < |posts| && key(posts[j]) == id
  {
    var n := |posts| - 1;
    if key(posts[n]) == id {
      j := n;
    } else {
      j := IdsWitness(key, posts[..n], id);
    }
  }

  /** The result of `get_posts`. */
  datatype Fetched = Fetched(posts: seq<Json>, seen: set<string>, tokens: seq<string>)

  function GetPostsSpec(init: InitData, initResponse: Json, responses: seq<Json>, seen: set<string>)
    : Result<Option<Fetched>>
  {
    if init.apiKey == "" || init.requestBody == map[] then Ok(None)
    else
      var initPosts :- InitPostList(initResponse);
      var w :- Collected(initPosts, responses);
      var (kept, now) := Dedup(PostId, w.items, seen);
      Ok(Some(Fetched(kept, now, w.tokens)))
  }

  /** The first item of a community tab's section; `None` for any other tab. */
  function TabPost(tab: Json): (r: Result<Option<Json>>)
    ensures !IsCommunityTab(tab) ==> r == Ok(None)
  {
    if IsCommunityTab(tab) then
      var section :- FirstOf(Path(tab, ["tabRenderer", "content", "sectionListRenderer"]), "contents");
      var post :- FirstOf(Obj(section, "itemSectionRenderer"), "contents");
      Ok(Some(post))
    else Ok(None)
  }

  /**
   * The first candidate, searching the tabs from the `from`-th on, whose `key` is
   * non-empty and not in `seen`; `pick` gives each tab's candidate, and its first
   * failure fails the search.
   */
  function FirstFresh(pick: Json -> Result<Option<Json>>, key: Json -> string, tabs: seq<Json>, seen: set<string>,
    from: nat): Result<Option<Json>>
    decreases |tabs| - from
  {
    if from >= |tabs| then Ok(None)
    else
      match pick(tabs[from])
      case Err(e) => Err(e)
      case Ok(Some(post)) =>
        if key(post) != "" && key(post) !in seen then Ok(Some(post))
        else FirstFresh(pick, key, tabs, seen, from + 1)
      case Ok(None) => FirstFresh(pick, key, tabs, seen, from + 1)
  }

  /** A candidate the search accepts: present, with a non-empty key not in `seen`. */
  predicate Fresh(key: Json -> string, candidate: Option<Json>, seen: set<string>) {
    candidate.Some? && key(candidate.value) != "" && key(candidate.value) !in seen
  }

  /** Tabs whose candidates are all readable and not fresh are passed over. */
  predicate PassedOver(pick: Json -> Result<Option<Json>>, key: Json -> string, tabs: seq<Json>, seen: set<string>,
    from: nat, to: nat)
    requires to <= |tabs|
  {
    forall j | from <= j < to :: pick(tabs[j]).Ok? && !Fresh(key, pick(tabs[j]).value, seen)
  }

  /**
   * A candidate the search returns was picked from one of the tabs it searched; `i` is
   * that tab, and every tab searched before it was passed over.
   */
  lemma {:induction false} FirstFreshFound(
    pick: Json -> Result<Option<Json>>, key: Json -> string, tabs: seq<Json>, seen: set<string>, from: nat, post: Json)
    returns (i: nat)
    requires FirstFresh(pick, key, tabs, seen, from) == Ok(Some(post))
    ensures key(post) != "" && key(post) !in seen
    ensures from <= i < |tabs| && pick(tabs[i]) == Ok(Some(post))
    ensures PassedOver(pick, key, tabs, seen, from, i)
    decreases |tabs| - from
  {
    var first := pick(tabs[from]);
    if first.Ok? && Fresh(key, first.value, seen) {
      i := from;
    } else {
      assert first.Ok? && FirstFresh(pick, key, tabs, seen, from) == FirstFresh(pick, key, tabs, seen, from + 1);
      i := FirstFreshFound(pick, key, tabs, seen, from + 1, post);
    }
  }

  /** The search finds nothing exactly when every tab it searches is passed over. */
  lemma {:induction false} FirstFreshNone(
    pick: Json -> Result<Option<Json>>, key: Json -> string, tabs: seq<Json>, seen: set<string>, from: nat)
    requires from <= |tabs|
    ensures FirstFresh(pick, key, tabs, seen, from) == Ok(None) <==> PassedOver(pick, key, tabs, seen, from, |tabs|)
    decreases |tabs| - from
  {
    if from < |tabs| {
      FirstFreshNone(pick, key, tabs, seen, from + 1);
      var first := pick(tabs[from]);
      if first.Ok? && !Fresh(key, first.value, seen) {
        assert PassedOver(pick, key, tabs, seen, from, |tabs|) <==> PassedOver(pick, key, tabs, seen, from + 1, |tabs|);
      } else {
        assert !PassedOver(pick, key, tabs, seen, from, |tabs|) by {
          assert !(pick(tabs[from]).Ok? && !Fresh(key, pick(tabs[from]).value, seen));
        }
      }
    }
  }

  /** The post a single-post page yields, searching the tabs from the `from`-th on, in order. */
  function IndividualPost(tabs: seq<Json>, seen: set<string>, from: nat): Result<Option<Json>> {
    FirstFresh(TabPost, PostId, tabs, seen, from)
  }

  /** Every id the walker sees is recorded, whether or not its post is kept. */
  lemma {:induction false} DedupSeenAll(key: Json -> string, posts: seq<Json>, seen: set<string>)
    ensures Dedup(key, posts, seen).1 == seen + Ids(key, posts)
  {
    if posts != [] {
      DedupSeenAll(key, posts[..|posts| - 1], seen);
    }
  }

  /** The seen-set afterwards is the old one plus exactly the ids of the kept posts. */
  lemma {:induction false} DedupSeenKept(key: Json -> string, posts: seq<Json>, seen: set<string>)
    ensures Dedup(key, posts, seen).1 == seen + Ids(key, Dedup(key, posts, seen).0)
  {
    if posts != [] {
      var n := |posts| - 1;
      DedupSeenKept(key, posts[..n], seen);
      var kept := Dedup(key, posts[..n], seen).0;
      assert (kept + [posts[n]])[..|kept|] == kept;
    }
  }

  /** Kept posts have pairwise distinct ids, none of which was seen before. */
  lemma {:induction false} DedupDistinctFresh(key: Json -> string, posts: seq<Json>, seen: set<string>)
    ensures var kept := Dedup(key, posts, seen).0;
      && (forall i | 0 <= i < |kept| :: key(kept[i]) !in seen)
      && (forall i, j | 0 <= i < j < |kept| :: key(kept[i]) != key(kept[j]))
  {
    if posts != [] {
      var n := |posts| - 1;
      DedupDistinctFresh(key, posts[..n], seen);
      DedupSeenKept(key, posts[..n], seen);
      var (kept, now) := Dedup(key, posts[..n], seen);
      var id := key(posts[n]);
      if id !in now {
        var kept' := kept + [posts[n]];
        assert forall i | 0 <= i < |kept| :: kept'[i] == kept[i] && key(kept[i]) in now;
      }
    }
  }

  /** The set-backed loop keeps exactly the first new occurrence of each id, in order. */
  lemma {:induction false} DedupIsFirstNew(key: Json -> string, posts: seq<Json>, seen: set<string>)
    ensures Dedup(key, posts, seen).0 == FirstNewPosts(key, posts, seen)
  {
    if posts != [] {
      var n := |posts| - 1;
      var prefix := posts[..n];
      DedupIsFirstNew(key, prefix, seen);
      DedupSeenAll(key, prefix, seen);
      var id := key(posts[n]);
      assert id in seen + Ids(key, prefix) <==> !FirstNew(key, posts, seen, n) by {
        assert forall j | 0 <= j < n :: prefix[j] == posts[j];
        if id in Ids(key, prefix) {
          var j := IdsWitness(key, prefix, id);
          assert key(posts[j]) == id;
        }
      }
    }
  }

  /** A post past a kept post with the same id, shared posts' "" included, is dropped. */
  lemma SameIdLaterDropped(key: Json -> string, posts: seq<Json>, seen: set<string>, i: nat, j: nat)
    requires i < j < |posts| && key(posts[i]) == key(posts[j])
    ensures !FirstNew(key, posts, seen, j)
  {
  }

  /** Each continuation request carries a non-empty token, and at most one more request is made than there are pages. */
  lemma {:induction false} WalkTokens(responses: seq<Json>, from: nat, token: Option<string>)
    requires from <= |responses| && Walk(responses, from, token).Ok?
    ensures var tokens := Walk(responses, from, token).value.tokens;
      && |tokens| <= |responses| - from + 1
      && (forall i | 0 <= i < |tokens| :: tokens[i] != "")
      && (Proceed(token) <==> tokens != [])
      && (Proceed(token) ==> tokens[0] == token.value)
    decreases |responses| - from
  {
    if Proceed(token) && from < |responses| {
      var page := ContinuationItems(responses[from]).value;
      WalkTokens(responses, from + 1, SplitPage(page).next);
    }
  }

  /** Every collected post is an item of some continuation page that was fetched; `k` is its page. */
  lemma {:induction false} WalkItemsFromPages(responses: seq<Json>, from: nat, token: Option<string>, x: Json)
    returns (k: nat)
    requires Walk(responses, from, token).Ok? && x in Walk(responses, from, token).value.items
    ensures from <= k < |responses| && ContinuationItems(responses[k]).Ok? && x in ContinuationItems(responses[k]).value
    decreases |responses| - from
  {
    var page := ContinuationItems(responses[from]).value;
    var split := SplitPage(page);
    if x in split.items {
      k := from;
    } else {
      k := WalkItemsFromPages(responses, from + 1, split.next, x);
    }
  }

  /**
   * Every item of the first page but its last is a post; the last only seeds the
   * token, so when it carries none the walk ends with exactly those posts.
   */
  lemma FirstPageSplit(ps: seq<Json>, responses: seq<Json>)
    requires ps != [] && Collected(Some(ps), responses).Ok?
    ensures var w := Collected(Some(ps), responses).value;
      && |ps| - 1 <= |w.items| && w.items[..|ps| - 1] == ps[..|ps| - 1]
      && (!Proceed(ContinuationToken(ps[|ps| - 1])) ==> w.items == ps[..|ps| - 1] && w.tokens == [])
  {
    var w := Collected(Some(ps), responses).value;
    assert w.items == ps[..|ps| - 1] + Walk(responses, 0, ContinuationToken(ps[|ps| - 1])).value.items;
  }

  /** `get_posts` returns `None` exactly when the API key or the request body is empty. */
  lemma GetPostsNone(init: InitData, initResponse: Json, responses: seq<Json>, seen: set<string>)
    ensures GetPostsSpec(init, initResponse, responses, seen) == Ok(None) <==>
      init.apiKey == "" || init.requestBody == map[]
  {
  }

  /**
   * The posts `get_posts` returns have pairwise distinct ids, none seen before the
   * call, and the seen-set grows by exactly their ids.
   */
  lemma GetPostsNewIds(init: InitData, initResponse: Json, responses: seq<Json>, seen: set<string>)
    requires GetPostsSpec(init, initResponse, responses, seen).Ok?
    requires GetPostsSpec(init, initResponse, responses, seen).value.Some?
    ensures var f := GetPostsSpec(init, initResponse, responses, seen).value.value;
      && f.seen == seen + Ids(PostId, f.posts)
      && (forall i | 0 <= i < |f.posts| :: PostId(f.posts[i]) !in seen)
      && (forall i, j | 0 <= i < j < |f.posts| :: PostId(f.posts[i]) != PostId(f.posts[j]))
  {
    var initPosts := InitPostList(initResponse).value;
    var w := Collected(initPosts, responses).value;
    DedupSeenKept(PostId, w.items, seen);
    DedupDistinctFresh(PostId, w.items, seen);
  }

  /**
   * A post the single-post lookup returns is the first item of a community tab's
   * section, with a non-empty id not seen before, and no earlier tab offered one.
   */
  lemma IndividualPostFound(tabs: seq<Json>, seen: set<string>, post: Json) returns (i: nat)
    requires IndividualPost(tabs, seen, 0) == Ok(Some(post))
    ensures PostId(post) != "" && PostId(post) !in seen
    ensures i < |tabs| && IsCommunityTab(tabs[i]) && TabPost(tabs[i]) == Ok(Some(post))
    ensures forall j | 0 <= j < i :: TabPost(tabs[j]).Ok? && !Fresh(PostId, TabPost(tabs[j]).value, seen)
  {
    i := FirstFreshFound(TabPost, PostId, tabs, seen, 0, post);
  }

  /**
   * The lookup finds nothing exactly when no community tab offers a post with a
   * non-empty, unseen id and none fails to offer one.
   */
  lemma IndividualPostNone(tabs: seq<Json>, seen: set<string>)
    ensures IndividualPost(tabs, seen, 0) == Ok(None) <==>
      forall j | 0 <= j < |tabs| :: TabPost(tabs[j]).Ok? && !Fresh(PostId, TabPost(tabs[j]).value, seen)
  {
    FirstFreshNone(TabPost, PostId, tabs, seen, 0);
  }

  /** The `Cookie` header: `"; ".join(f"{k}={v}" ...)` over the cookies in order. */
  function CookieHeader(cookies: Dict<string>): string {
    Join("; ", CookiePairs(cookies))
  }

  function CookiePairs(cookies: Dict<string>): (r: seq<string>)
    ensures |r| == |cookies|
    ensures forall i | 0 <= i < |r| :: r[i] == cookies[i].0 + "=" + cookies[i].1
  {
    if cookies == [] then [] else [cookies[0].0 + "=" + cookies[0].1] + CookiePairs(cookies[1..])
  }

  /**
   * The header carries every cookie as `name=value`, and is empty exactly when there
   * are no cookies.
   */
  lemma CookieHeaderPairs(cookies: Dict<string>)
    ensures CookieHeader(cookies) == "" <==> cookies == []
    ensures forall i | 0 <= i < |cookies| :: Contains(CookieHeader(cookies), cookies[i].0 + "=" + cookies[i].1)
  {
    var pairs := CookiePairs(cookies);
    forall i | 0 <= i < |cookies|
      ensures Contains(CookieHeader(cookies), cookies[i].0 + "=" + cookies[i].1)
    {
      var k := JoinPartAt("; ", pairs, i);
    }
    if cookies != [] {
      var k := JoinPartAt("; ", pairs, 0);
      assert |pairs[0]| > 0;
    }
  }

  /** The items of one continuation page: all of them, or all but a trailing continuation marker, whose token comes next. */
  method TakePage(items: seq<Json>) returns (posts: seq<Json>, next: Option<string>)
    ensures Split(posts, next) == SplitPage(items)
  {
    posts, next := items, None;
    if items != [] && IsMarker(items[|items| - 1]) {
      posts := items[..|items| - 1];
      next := ContinuationToken(items[|items| - 1]);
    }
  }

  lemma GlueNothing(r: Result<Walked>)
    ensures Glue([], [], r) == r
  {
    match r {
      case Ok(w) => assert [] + w.items == w.items && [] + w.tokens == w.tokens;
      case Err(_) =>
    }
  }

  /** A page that cannot be read fails the walk. */
  lemma GlueWalkFails(c: seq<Json>, t: seq<string>, responses: seq<Json>, k: nat, token: Option<string>)
    requires Proceed(token) && k < |responses| && ContinuationItems(responses[k]).Err?
    ensures Glue(c, t, Walk(responses, k, token)) == Err(ContinuationItems(responses[k]).error)
  {
  }

  /** A walk without a token gathers nothing more. */
  lemma GlueWalkDone(c: seq<Json>, t: seq<string>, responses: seq<Json>, k: nat, token: Option<string>)
    requires !Proceed(token)
    ensures Glue(c, t, Walk(responses, k, token)) == Ok(Walked(c, t))
  {
    assert c + [] == c && t + [] == t;
  }

  /** One page of the walk moves its items and its token into what was gathered. */
  lemma GlueWalkStep(c: seq<Json>, t: seq<string>, responses: seq<Json>, k: nat, token: Option<string>, page: seq<Json>)
    requires Proceed(token) && k < |responses| && ContinuationItems(responses[k]) == Ok(page)
    ensures Glue(c, t, Walk(responses, k, token))
      == Glue(c + SplitPage(page).items, t + [token.value], Walk(responses, k + 1, SplitPage(page).next))
  {
    GlueAssoc(c, t, SplitPage(page).items, token.value, Walk(responses, k + 1, SplitPage(page).next));
  }

  /** Past the last response, the walk sends its token and gathers nothing more. */
  lemma GlueWalkEnd(c: seq<Json>, t: seq<string>, responses: seq<Json>, k: nat, token: Option<string>)
    requires Proceed(token) && k == |responses|
    ensures Glue(c, t, Walk(responses, k, token)) == Glue(c, t + [token.value], Walk(responses, k, None))
  {
    assert c + [] == c && t + [token.value] + [] == t + [token.value];
  }

  /** The `while token:` loop of `get_posts`. */
  method FollowContinuations(responses: seq<Json>, firstToken: Option<string>) returns (r: Result<Walked>)
    ensures r == Walk(responses, 0, firstToken)
  {
    var token := firstToken;
    var k := 0;
    var collected: seq<Json> := [];
    var tokens: seq<string> := [];
    GlueNothing(Walk(responses, 0, firstToken));
    while Proceed(token)
      invariant k <= |responses|
      invariant Walk(responses, 0, firstToken) == Glue(collected, tokens, Walk(responses, k, token))
      decreases |responses| - k, if Proceed(token) then 1 else 0
    {
      var sent := token.value;
      if k == |responses| {
        // The request past the last given response is answered by `{}`: no items.
        GlueWalkEnd(collected, tokens, responses, k, token);
        tokens := tokens + [sent];
        token := None;
      } else {
        var batch := ContinuationItems(responses[k]);
        if batch.Err? {
          GlueWalkFails(collected, tokens, responses, k, token);
          return Err(batch.error);
        }
        var items := batch.value;
        GlueWalkStep(collected, tokens, responses, k, token, items);
        var posts, next := TakePage(items);
        collected := collected + posts;
        tokens := tokens + [sent];
        token := next;
        k := k + 1;
      }
    }
    GlueWalkDone(collected, tokens, responses, k, token);
    r := Ok(Walked(collected, tokens));
  }

  class PostExtractor {
    const cookies: Dict<string>
    const headers: Dict<string>
    /** The ids handed out so far, shared by `GetPosts` and `GetIndividualPost`. */
    var extractedPosts: set<string>

    constructor (cookies: Dict<string>)
      ensures this.cookies == cookies
      ensures headers == [
        ("Cookie", CookieHeader(cookies)),
        ("X-Goog-AuthUser", "0"),
        ("X-Origin", "https://www.youtube.com"),
        ("X-Youtube-Bootstrap-Logged-In", "true")]
      ensures extractedPosts == {}
    {
      this.cookies := cookies;
      headers := [
        ("Cookie", CookieHeader(cookies)),
        ("X-Goog-AuthUser", "0"),
        ("X-Origin", "https://www.youtube.com"),
        ("X-Youtube-Bootstrap-Logged-In", "true")];
      extractedPosts := {};
    }

    /**
     * `get_posts`: `Ok(None)` when the scraped API key or request body is empty,
     * otherwise the new posts of the whole feed; `tokens` are the continuation tokens
     * sent, in order.
     */
    method GetPosts(init: InitData, initResponse: Json, responses: seq<Json>)
      returns (r: Result<Option<seq<Json>>>, tokens: seq<string>)
      modifies this`extractedPosts
      ensures var spec := GetPostsSpec(init, initResponse, responses, old(extractedPosts));
        match spec
        case Err(e) => r == Err(e) && extractedPosts == old(extractedPosts)
        case Ok(None) => r == Ok(None) && extractedPosts == old(extractedPosts) && tokens == []
        case Ok(Some(f)) => r == Ok(Some(f.posts)) && extractedPosts == f.seen && tokens == f.tokens
    {
      tokens := [];
      if init.apiKey == "" || init.requestBody == map[] {
        return Ok(None), tokens;
      }
      var initPosts := InitPostList(initResponse);
      if initPosts.Err? {
        return Err(initPosts.error), tokens;
      }
      var walked := CollectPosts(initPosts.value, responses);
      if walked.Err? {
        return Err(walked.error), tokens;
      }
      tokens := walked.value.tokens;
      r := DedupPosts(walked.value.items);
    }

    /** The first page's posts, but its last item, followed by every continuation page's. */
    method CollectPosts(initPosts: Option<seq<Json>>, responses: seq<Json>) returns (r: Result<Walked>)
      ensures r == Collected(initPosts, responses)
    {
      if initPosts.None? || initPosts.value == [] {
        return Ok(Walked([], []));
      }
      var ps := initPosts.value;
      var walked := FollowContinuations(responses, ContinuationToken(ps[|ps| - 1]));
      if walked.Err? {
        return Err(walked.error);
      }
      r := Ok(Walked(ps[..|ps| - 1] + walked.value.items, walked.value.tokens));
    }

    /** The de-duplication loop of `get_posts`. */
    method DedupPosts(posts: seq<Json>) returns (r: Result<Option<seq<Json>>>)
      modifies this`extractedPosts
      ensures (r, extractedPosts) == (Ok(Some(Dedup(PostId, posts, old(extractedPosts)).0)), Dedup(PostId, posts, old(extractedPosts)).1)
    {
      var newPosts: seq<Json> := [];
      var i := 0;
      while i < |posts|
        invariant 0 <= i <= |posts|
        invariant Dedup(PostId, posts[..i], old(extractedPosts)) == (newPosts, extractedPosts)
      {
        assert posts[..i + 1][..i] == posts[..i];
        var id := PostId(posts[i]);
        if id !in extractedPosts {
          extractedPosts := extractedPosts + {id};
          newPosts := newPosts + [posts[i]];
        }
        i := i + 1;
      }
      assert posts[..i] == posts;
      r := Ok(Some(newPosts));
    }

    /**
     * `get_individual_post` given the page's parsed `ytInitialData`, or `None` when the
     * request failed or the page held no such data.
     */
    method GetIndividualPost(initialData: Option<Json>) returns (r: Result<Option<Json>>)
      modifies this`extractedPosts
      ensures initialData.None? ==> r == Ok(None)
      ensures initialData.Some? ==> r == IndividualPost(Tabs(initialData.value), old(extractedPosts), 0)
      ensures extractedPosts == if r.Ok? && r.value.Some? then old(extractedPosts) + {PostId(r.value.value)}
                                else old(extractedPosts)
    {
      if initialData.None? {
        return Ok(None);
      }
      var tabs := Tabs(initialData.value);
      var i := 0;
      while i < |tabs|
        invariant 0 <= i <= |tabs|
        invariant IndividualPost(tabs, extractedPosts, 0) == IndividualPost(tabs, extractedPosts, i)
        invariant extractedPosts == old(extractedPosts)
      {
        var candidate := TabPost(tabs[i]);
        if candidate.Err? {
          return Err(candidate.error);
        }
        if candidate.value.Some? {
          var post := candidate.value.value;
          var id := PostId(post);
          if id != "" && id !in extractedPosts {
            extractedPosts := extractedPosts + {id};
            return Ok(Some(post));
          }
        }
        i := i + 1;
      }
      r := Ok(None);
    }
  }
}
