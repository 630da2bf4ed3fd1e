# Community-post archiver core, modelled in Dafny

This project models the core of a YouTube community-post archiver. The core has three parts:

- **The feed walker** (`src/extractor.py`):
  - It reads the first page of a channel's community tab.
  - It follows the chain of continuation tokens through the later pages.
  - It de-duplicates the posts it collects by post id, remembering across calls every id it has handed out.
  - It can also look up a single post on a post page.
- **The content exporter** (`src/content_exporter.py`):
  - It normalises each feed item into a `PostContent` record: author, text with inline links, images, poll, linked video and share details.
  - It collapses image urls to their full-size form.
  - It renders `post.txt`.
  - It keeps the export ledger, a map from zero-padded post numbers to post ids. A post whose id is already in the ledger is skipped. Every other post is numbered after the largest number recorded before the run.
- **The session cookies** (`src/cookies.py`):
  - It parses a Netscape cookie file.
  - It normalises the CONSENT cookie.
  - It assembles the cookie set, and from it the `Cookie` header.

Modules:

| file | module | models |
|---|---|---|
| `wrappers.dfy` | `Wrappers` | `Option`; `Result`, whose error is the `IndexError` the code can raise |
| `seqs.dfy` | `Seqs` | list comprehensions and concatenated maps |
| `strings.dfy` | `Strings` | `startswith`, `endswith`, `in`, `split(sep)[0]`, `join`, `str(n)`, `zfill` |
| `json.dfy` | `Json` | parsed JSON and the `.get(key, default)` chains over it |
| `dicts.dfy` | `Dicts` | Python's insertion-ordered `dict` as a sequence of entries |
| `normalizer.dfy` | `Normalizer` | `_get_post_text`, `_get_image_urls`, `_extract_post_details`, `_extract_post_share_detais` |
| `images.dfy` | `Images` | `deduplicate_images` |
| `render.dfy` | `Render` | the post and share templates and the attached-content blocks |
| `exporter.dfy` | `Exporter` | `export_posts`, the ledger and class `ContentExporter` |
| `cookies.dfy` | `Cookies` | `_load_cookies_file`, `_init_consent`, `initialize_cookies` |
| `extractor.dfy` | `Extractor` | `get_posts`, `get_continuation_token`, `get_individual_post`, `is_community_tab`, the `Cookie` header and class `PostExtractor` |

Style of the model:

- Each `for` or `while` statement of the modelled code is a `method` with a loop, with one exception. The exception is the tab search of `_get_posts_init`, which returns from inside its loop at the first community tab; it is the recursive function `Extractor.CommunityItems`.
- Each such method is proved equal to a specification function, and the properties are lemmas about that function.
- List comprehensions are functions.
- The de-duplication set of `PostExtractor` is a field that the methods update.
- The ledger of `ContentExporter` is also a field that the methods update.

Two behaviours of the code that the model keeps:

- **Shared posts.** For a shared post, the ledger records `post_content.post_id`, which comes from the original post's renderer. The directory name uses the share wrapper's own `postId` whenever it is non-empty (`src/content_exporter.py:314-316`).
- **Failures.** A list indexed with `[0]` or `[-1]` that is present but empty raises `IndexError`, and that aborts the run. It is modelled as `Err`. The lists are:
  - on a feed page, a community tab's `sectionListRenderer.contents` (`src/extractor.py:66`) and a continuation response's `onResponseReceivedEndpoints` (`src/extractor.py:89`);
  - on a post page, `sectionListRenderer.contents` and `itemSectionRenderer.contents` (`src/extractor.py:228-230`);
  - in a post, the `runs` of the author, the time, a poll choice and the video title, and the video's `thumbnails` (`src/content_exporter.py:170-233`);
  - in a share, the `runs` of the sharer's name and time (`src/content_exporter.py:157-159`).

## Model

| member | source | states |
|---|---|---|
| Json.FirstOf | src/extractor.py:88-89 | `d.get(key, [dict()])[0]` fails exactly when the list is present but empty; a non-empty list gives its first element; without the list it yields `{}` |
| Json.LastOf | src/content_exporter.py:231-234 | `[-1]` on the `[dict()]` default fails exactly when the list is present but empty; a non-empty list gives its last element; without the list it yields `{}` |
| Json.FirstRunText | src/content_exporter.py:169-174 | fails exactly when `runs` is present but empty; a non-empty `runs` gives the first run's `text` (or the default); without a `runs` list, whether or not `key` is present, it is the default |
| Strings.FindFrom | src/content_exporter.py:268 | the position found is an occurrence of the separator, and no earlier position from `from` on is one |
| Strings.Before | src/content_exporter.py:235 | `s.split(sep)[0]` is a prefix of `s` that does not contain `sep`, and it is all of `s` or is followed by `sep` |
| Strings.JoinPartAt | src/extractor.py:20 | every part occurs in `sep.join(parts)` |
| Strings.JoinEmpty | src/content_exporter.py:362-364 | a join of non-empty parts is empty exactly when there are no parts |
| Strings.DecimalValue | src/content_exporter.py:305 | reading `str(n)` back as an integer gives `n` |
| Strings.ZFill | src/content_exporter.py:305 | `str(n).zfill(width)` is `str(n)` left-padded with zeros to `max(width, len(str(n)))` characters, and reads back as `n` |
| Dicts.Lookup | src/cookies.py:57-63 | `d.get(k)` is `None` exactly when `k` is not a key, and otherwise is the value of an entry with key `k` |
| Dicts.Put | src/content_exporter.py:220 | `d[k] = v` keeps the key order when `k` is present and appends `k` otherwise |
| Dicts.PutLookup | src/content_exporter.py:220 | after `d[k] = v`, `k` maps to `v` and every other key maps to what it mapped to before |
| Dicts.PutKeysDistinct | src/content_exporter.py:220 | assignment never gives two entries the same key |
| Dicts.PutNew | src/content_exporter.py:391 | assigning a key not yet present appends the entry at the end |
| Dicts.PutToMap | src/cookies.py:55-75 | `d[k] = v` is the map update `m[k := v]` of the dict's contents |
| Dicts.LookupToMap | src/cookies.py:55-75 | looking a key up in the dict agrees with looking it up in its contents |
| Dicts.PutAllOk | src/content_exporter.py:208-223 | assigning entries that all succeed succeeds |
| Dicts.PutAllErr | src/content_exporter.py:208-223 | one entry that raises makes the whole sequence of assignments raise |
| Dicts.PutAllKeysDistinct | src/content_exporter.py:208-223 | the assigned dict never holds a key twice |
| Dicts.PutAllLastWins | src/content_exporter.py:220 | a key maps to the value of the last entry that assigns it |
| Normalizer.Absolute | src/content_exporter.py:143-144 | a link starting with "/" becomes the host followed by the link; any other link is kept as is |
| Normalizer.RenderLinked | src/content_exporter.py:146-147 | a run's text is followed by " (link)" exactly when the link is non-empty and differs from the text |
| Normalizer.PostTextAppend | src/content_exporter.py:131-151 | rendering distributes over concatenation of run lists |
| Normalizer.GetPostText | src/content_exporter.py:131-151 | the parts loop and `"".join` give the rendered runs in order |
| Normalizer.ImageUrlsShape | src/content_exporter.py:121-129 | one url per thumbnail, "" where a thumbnail has none; a container without an image renderer gives `[""]` |
| Normalizer.NoAttachmentImages | src/content_exporter.py:184-199 | a post without an attachment still lists one empty image url |
| Normalizer.CollectImages | src/content_exporter.py:184-199 | the image loop yields the single image's urls, then those of every multi-image entry, in order |
| Normalizer.PollChoice | src/content_exporter.py:209-211 | a poll choice raises exactly when its label's `runs` is present but empty |
| Normalizer.PollChoiceOption | src/content_exporter.py:209-223 | label "Null" by default; votes from `numVotes`; the voted percentage when non-empty, else the if-selected one, and "" only when both are empty |
| Normalizer.PollOkAll | src/content_exporter.py:208-223 | the poll succeeds when every choice's label does |
| Normalizer.PollErrFrom | src/content_exporter.py:208-223 | one choice whose label raises makes the whole poll raise |
| Normalizer.PollKeysDistinct | src/content_exporter.py:220 | no label appears twice in the poll |
| Normalizer.PollLastWins | src/content_exporter.py:220 | a label maps to the option of the last choice carrying it |
| Normalizer.CollectPoll | src/content_exporter.py:202-223 | the poll loop builds the poll dict, or raises at the first bad choice |
| Normalizer.MembersOnlyBadge | src/content_exporter.py:253-259 | the badge loop finds a "Members only" label exactly when some badge has one |
| Normalizer.VideoThumbnail | src/content_exporter.py:231-236 | the thumbnail url is the last thumbnail's url cut before its first "?" (the whole url without one); it fails exactly when the list is present but empty |
| Normalizer.PostDetailsErr | src/content_exporter.py:164-261 | normalisation fails exactly when the author, time, video title, thumbnail or a poll label list is present but empty |
| Normalizer.PostDetailsFields | src/content_exporter.py:175-259 | members-only flags, the thumbnail url as `VideoThumbnail` gives it, the video url as the command url made absolute, and distinct poll labels |
| Normalizer.PostDetailsId | src/content_exporter.py:165-168 | the id is the renderer's `postId`, "no_id_found" without one, and the record has no share |
| Normalizer.EmptyPostDetails | src/content_exporter.py:164-261 | an empty renderer normalises to the defaults, with one empty image url and no like count |
| Normalizer.ExtractPostDetails | src/content_exporter.py:164-261 | the method with its text, image, poll and badge loops computes the normalised record or its error |
| Normalizer.ShareDetails | src/content_exporter.py:153-161 | the share fails exactly when the sharer's name or time runs are present but empty; otherwise the author is the first name run ("N/A" by default), the time the first time run, the id the wrapper's `postId` ("id_not_found" by default) and the text the rendered content runs |
| Images.Canonical | src/content_exporter.py:268 | the full-size url is the url cut before its first "=s" (all of it without one) followed by "=s0" |
| Images.CanonicalIdempotent | src/content_exporter.py:268 | canonicalising a canonical url changes nothing |
| Images.SizeVariantsCollapse | src/content_exporter.py:268 | urls that differ only after their first "=s" have the same canonical form |
| Images.DeduplicateImages | src/content_exporter.py:263-271 | the loop computes the canonical forms of the non-empty urls, each once |
| Images.DeduplicatedDistinct | src/content_exporter.py:264-269 | no url appears twice in the result |
| Images.DeduplicatedFrom | src/content_exporter.py:266-269 | every url of the result is the canonical form of a non-empty input url |
| Images.DeduplicatedCovers | src/content_exporter.py:266-269 | the canonical form of every non-empty input url is in the result |
| Images.DeduplicatedCanonical | src/content_exporter.py:268 | every url of the result is already canonical |
| Images.DeduplicatedBound | src/content_exporter.py:263-271 | there are at most as many urls as non-empty inputs |
| Render.NonEmptyParts | src/content_exporter.py:363 | the filter keeps exactly the non-empty blocks, and is empty exactly when all blocks are |
| Render.NonEmptyPartsAppend | src/content_exporter.py:363 | the filter keeps order and multiplicity: it distributes over concatenation and keeps a single block exactly when it is non-empty |
| Render.LinkedVideo | src/content_exporter.py:335-341 | the linked-video block is absent exactly without a video url, and otherwise opens with "Linked Video:" and ends with the url |
| Render.ImageLinks | src/content_exporter.py:343-346 | the images block is absent exactly when there are no images |
| Render.ImageLinksList | src/content_exporter.py:343-346 | the images block opens with "Images:" and lists every url |
| Render.PollLine | src/content_exporter.py:352-357 | an option line is `[label]`, followed by ` - votes` when there are votes and by ` - percentage` when there is a percentage |
| Render.PollBlock | src/content_exporter.py:348-360 | the poll block is absent exactly for an empty poll |
| Render.PollBlockLines | src/content_exporter.py:348-360 | the poll block opens with "Poll:" and holds the line of every option |
| Render.RenderPoll | src/content_exporter.py:348-360 | the option-lines loop builds the poll block |
| Render.AttachedContentBlocks | src/content_exporter.py:362-364 | the attached content is empty exactly without video, images and poll, and holds every block present |
| Render.PostOutputShape | src/content_exporter.py:366-381 | a post's text opens with its author line and closes with its likes; a share opens with the sharer's line and closes with the whole original post |
| Exporter.PrepareShape | src/content_exporter.py:284-302 | an item carries a share exactly when its root has `sharedPostRenderer`; its id is the content renderer's; a share's own id is the wrapper's |
| Exporter.PreparePost | src/content_exporter.py:284-302 | the per-item extraction computes the normalised record, with the share attached, or its error |
| Exporter.DirName | src/content_exporter.py:305-321 | the directory name is `[num]`, then ` (Members only)` for a members-only post, then a space and the path id |
| Exporter.ExportPost | src/content_exporter.py:326-389 | the files written for one post: directory, rendered text over the de-duplicated images, raw renderer, images and thumbnail |
| Exporter.MaxKey | src/content_exporter.py:274-276 | the offset is at least every ledger key's value, is one of them, and is 0 for an empty ledger |
| Exporter.ExportRunFailed | src/content_exporter.py:280-299 | once an extraction has raised, later posts change nothing |
| Exporter.ExportRunStops | src/content_exporter.py:280-299 | the run stops, failed, at the first post whose extraction raises |
| Exporter.ExportRunNext | src/content_exporter.py:304-391 | one more post is skipped when its id is recorded, and otherwise is recorded under number `index + offset` and written |
| Exporter.ExportStepAppends | src/content_exporter.py:304-391 | a skipped post leaves the ledger as it is; any other post appends exactly one entry after the existing ones |
| Exporter.ExportRunKeys | src/content_exporter.py:274-305 | the run keeps the old ledger as a prefix, and each new key is numbered above the old maximum and at most that plus the number of posts |
| Exporter.ExportRunLedger | src/content_exporter.py:391 | the ledger's keys stay distinct decimal numbers |
| Exporter.ExportRunFreshIds | src/content_exporter.py:304 | every entry the run adds holds an id not recorded before it |
| Exporter.ExportRunWritten | src/content_exporter.py:304-391 | the entries the run adds are, in order, the number and id of each written post |
| Exporter.ExportRunRecords | src/content_exporter.py:304-391 | after a run that did not fail, every post's id is in the ledger |
| Exporter.ExportRunRecorded | src/content_exporter.py:304 | a run over posts that are all recorded changes nothing and writes nothing |
| Exporter.ExportRunIdempotent | src/content_exporter.py:273-397 | exporting the same posts a second time, with any offset, changes nothing and writes nothing |
| Exporter.ContentExporter.constructor | src/content_exporter.py:66-71 | the exporter starts from the loaded archive |
| Exporter.ContentExporter.ExportPosts | src/content_exporter.py:273-397 | the loop's new ledger, failure flag and written files are those of the run numbered after the largest key, and the ledger stays a ledger |
| Cookies.Fields | src/cookies.py:25 | `re.split("\s+", line)` gives at least one piece, and no piece holds whitespace |
| Cookies.FieldsFirst | src/cookies.py:25 | the first piece is empty exactly when the line is empty or starts with whitespace |
| Cookies.FieldsPieces | src/cookies.py:25 | the pieces, re-joined with the maximal whitespace runs between them, give the line back; only the first and the last piece can be empty |
| Cookies.FieldsOfJoin | src/cookies.py:25 | non-empty fields separated by single tabs split back into exactly those fields |
| Cookies.ParseCookieLine | src/cookies.py:25-30 | a line with fewer than 6 fields raises; the key is the 6th field, the value is the 7th or "" |
| Cookies.LoadCookies | src/cookies.py:13-34 | the line loop builds the cookie map of the matching lines, or raises at the first short one |
| Cookies.LoadErrorPersists | src/cookies.py:24-30 | once a line raises, the whole load raises |
| Cookies.AssignedLast | src/cookies.py:24-30 | every key of the assigned map comes from the last entry that sets it, with that entry's value |
| Cookies.AssignedFrom | src/cookies.py:24-30 | conversely, the key of the last entry that sets it is in the assigned map, with that entry's value |
| Cookies.LoadedCookieIsLast | src/cookies.py:20-30 | every loaded cookie comes from a matching line, the last one with that key, and carries its value |
| Cookies.LoadedCookieFrom | src/cookies.py:20-30 | conversely, the key of the last matching line carrying it is loaded, with that line's value |
| Cookies.NonMatchingLineIgnored | src/cookies.py:20-22 | a line that does not match the `.youtube.com` pattern contributes nothing |
| Cookies.PendingFrom | src/cookies.py:8 | the search finds the leftmost position from `from` on where a digit follows "PENDING+", and finds nothing exactly when there is none |
| Cookies.DigitRun | src/cookies.py:8 | the matched id is the longest run of digits at that point |
| Cookies.InitConsent | src/cookies.py:37-47 | a consent with "YES" is kept; otherwise it is "YES+" followed by the digit run at the first PENDING match, or by the random fallback when there is none |
| Cookies.FirstPending | src/cookies.py:41 | the search from the start stops at the first position where the PENDING pattern matches |
| Cookies.BuildCookies | src/cookies.py:50-77 | the assembled cookie dict has distinct keys, holds exactly the cookie map, and its keys come in assignment order |
| Cookies.SetAuthCookies | src/cookies.py:68-75 | SAPISID and then `__Secure-3PAPISID` are added to the dict, each only when its value is non-empty |
| Cookies.CookieOrderShape | src/cookies.py:55-75 | the keys are PREF, `__Secure-3PSID` when loaded, CONSENT, then SAPISID and `__Secure-3PAPISID` when either was loaded non-empty |
| Cookies.CookieMapFixedEntries | src/cookies.py:55-60 | the cookie set always holds PREF "hl=en&tz=UTC" and a CONSENT containing "YES" |
| Cookies.CookieMapAuth | src/cookies.py:62-75 | SAPISID and `__Secure-3PAPISID` are present exactly when either was loaded non-empty, each falling back to the other |
| Cookies.CookieMapPassThrough | src/cookies.py:57-58 | `__Secure-3PSID` is passed through unchanged, and no other loaded cookie reaches the set |
| Cookies.InitializeCookies | src/cookies.py:50-77 | `initialize_cookies` raises exactly when loading does; otherwise its dict has distinct keys in assignment order, holds exactly the cookie map of the loaded cookies, and has PREF and a CONSENT |
| Extractor.ContinuationToken | src/extractor.py:31-37 | the token is the string at the end of the continuation path, `None` when any step is missing |
| Extractor.SectionItems | src/extractor.py:62-69 | a community tab's item list is the `itemSectionRenderer.contents` of the first section; it fails exactly when the section list is present but empty, and is empty without one |
| Extractor.CommunityItems | src/extractor.py:54-71 | there are no posts (`None`) exactly when no tab is a community tab |
| Extractor.CommunityItemsFirst | src/extractor.py:60-71 | the result is the item list of the first community tab, or its error |
| Extractor.ContinuationItems | src/extractor.py:88-94 | fails exactly when `onResponseReceivedEndpoints` is present but empty; otherwise the items are the first endpoint's `appendContinuationItemsAction.continuationItems`, and none without the endpoint list |
| Extractor.SplitPage | src/extractor.py:122-132 | a page whose last item is a continuation marker gives the other items and the marker's token; any other page gives all its items and no token |
| Extractor.IdsWitness | src/extractor.py:135-145 | every id in the id set belongs to one of the posts |
| Extractor.FirstFreshFound | src/extractor.py:222-242 | a post the tab search returns has a fresh, non-empty id, was picked from one of the tabs searched, and every earlier tab offered no fresh post |
| Extractor.FirstFreshNone | src/extractor.py:222-243 | the search finds nothing exactly when every tab offers no fresh post and none fails |
| Extractor.DedupSeenAll | src/extractor.py:134-145 | every id the walker sees is recorded, whether or not its post is kept |
| Extractor.DedupSeenKept | src/extractor.py:134-145 | the seen-set grows by exactly the ids of the kept posts |
| Extractor.DedupDistinctFresh | src/extractor.py:134-145 | kept posts have pairwise distinct ids, none of which was seen before |
| Extractor.DedupIsFirstNew | src/extractor.py:134-145 | the set-backed loop keeps exactly the first occurrence of each unseen id, in order |
| Extractor.SameIdLaterDropped | src/extractor.py:143 | a later post with an id already taken (shared posts' "" included) is dropped |
| Extractor.WalkTokens | src/extractor.py:115-132 | every continuation request carries a non-empty token, starting with the first page's; there is at most one more request than there are pages |
| Extractor.WalkItemsFromPages | src/extractor.py:118-132 | every collected post is an item of a fetched continuation page |
| Extractor.FirstPageSplit | src/extractor.py:108-113 | the first page's items but its last come first; without a token the walk ends with exactly those |
| Extractor.GetPostsNone | src/extractor.py:101 | `get_posts` returns `None` exactly when the API key or the request body is empty |
| Extractor.GetPostsNewIds | src/extractor.py:96-147 | the posts returned have pairwise distinct ids unseen before the call, and the seen-set grows by exactly their ids |
| Extractor.IndividualPostFound | src/extractor.py:222-242 | a post the lookup returns is the first item of a community tab's section, with a non-empty id unseen before, and no earlier tab offered such a post |
| Extractor.IndividualPostNone | src/extractor.py:222-243 | the lookup finds nothing exactly when no tab offers a post with a non-empty unseen id and none fails |
| Extractor.CookiePairs | src/extractor.py:20 | one `name=value` pair per cookie, in order |
| Extractor.CookieHeaderPairs | src/extractor.py:20 | the header carries every cookie as `name=value`, and is empty exactly without cookies |
| Extractor.TakePage | src/extractor.py:124-132 | the loop body splits a page as the page rule says |
| Extractor.FollowContinuations | src/extractor.py:115-132 | the `while token:` loop gathers the posts and tokens of the walk, or its error |
| Extractor.PostExtractor.constructor | src/extractor.py:17-29 | the extractor starts with the given cookies, the four fixed headers and no seen ids |
| Extractor.PostExtractor.GetPosts | src/extractor.py:96-147 | `get_posts` returns the new posts of the feed and records their ids; on an error or `None` the seen-set is unchanged |
| Extractor.PostExtractor.CollectPosts | src/extractor.py:108-132 | the first page's posts but its last, followed by every continuation page's |
| Extractor.PostExtractor.DedupPosts | src/extractor.py:134-147 | the loop keeps the first occurrence of each unseen id and records them all |
| Extractor.PostExtractor.GetIndividualPost | src/extractor.py:198-242 | the lookup returns the first fresh community-tab post and records its id; otherwise the seen-set is unchanged |

## Left out

- HTTP, the HTML scraping of `extract_init_info` and `ytInitialData` are not modelled.
  - The scraped API key and request body are an input.
  - So are the parsed first response and the continuation responses.
  - The k-th continuation request is answered by the k-th response. A request past the last response is answered by `{}`, which ends the walk.
- The mutation of the request body with each continuation token is not modelled. The tokens sent are returned instead.
- `calculate_sapisidhash` and the `Authorization` header are not modelled. They depend on the clock and on SHA-1.
- Reading the archive and cookie files, `splitlines`, writing files, creating directories and downloading images are not modelled. The lines read and the files to be written are values.
- The `Lock` around the archive file is not modelled; the model is single-threaded.
- `main.py` is not part of this model.
- `random.randint(100, 999)` in `_init_consent` is the parameter `fallback`.
- A JSON value of another type than the code goes on to use is treated as absent. In the source, such a value would raise `AttributeError` or `TypeError`, or would be used as is. Examples are an object where a list is expected, or a non-string token.
- JSON numbers are integers; floats are not modelled.
- Exporter.ContentExporter.constructor: it requires a loaded archive whose keys are distinct, non-empty strings of ASCII decimal digits. `__init__` accepts any archive; with other keys the source fails only later, in `export_posts`. The model does not cover an archive with such keys.
- Exporter.ContentExporter.ExportPosts: it requires that the ledger keys be distinct, non-empty strings of ASCII decimal digits, which is what the exporter writes. `int()` also accepts signs, surrounding whitespace, underscores and non-ASCII digits, and raises on other keys (the empty string included); neither is modelled.
- Cookies.PendingFrom: a digit is an ASCII digit `0`-`9`. Python's `\d` in a `str` pattern also matches other Unicode decimal digits; those are not modelled.
- Cookies.DigitRun: the run stops at the first character that is not an ASCII digit, for the same reason.
- Images.DeduplicateImages: it returns the urls in order of first occurrence. The source returns a `set`, whose iteration order is unspecified.
- The pydantic records and `string.Template` are not modelled. `PostContent`, `PostShare` and `PollOption` are plain datatypes. The templates are written out as string concatenation.
- The UTF-8 encoding of `post.txt` and the JSON dump of `post.json` are not modelled. The text is a string; the raw renderer is a value.
- Logging is not modelled.
