# News reader: overlay store, detail view and list view in Dafny

This project models the core of a small news reader. The reader fetches
articles from a search endpoint and overlays three local maps on them:
bookmarks, edits and deletions. All three are keyed by the article's `_id`
and mirrored to the browser's key-value storage. It also keeps a "selected
article" cursor for the detail view.

The files:

- `js_value.dfy` (module `JsValue`): the part of JavaScript's data model the
  code relies on. It covers JSON-shaped values, plain objects as string-keyed
  maps, optional chaining (`a?.b`), truthiness and `{ ...spread }`. It also
  covers `String(v)`, the conversion JavaScript applies to a value used as a
  property key or inside a template literal. An absent property is `None`.
  Articles are plain objects, so an article may lack `_id`, and a selection
  is an article with an extra `index` property.
- `news_slice.dfy` (module `NewsSlice`): the Redux slice. Each reducer is a
  pure transition `AfterX` on a `SliceState` value. The class `NewsStore`
  holds the same state in fields, and its methods update them step by step in
  the reducers' order. Each method is proved to implement its transition
  (`ensures State() == AfterX(old(State()), …)`). `Reduce` and `Run` give the
  reducer over the action datatype and over a sequence of actions.
- `news_slice_props.dfy` (module `NewsSliceProps`): lemmas about the slice.
  They cover order preservation, idempotence, the delete cascade, scenarios,
  and storage mirroring across any run of actions.
- `news_content.dfy` (module `NewsContent`): the detail view. It covers the
  dotted-path copy-on-write update of the edit buffer (a method with loops,
  proved against the function `SetPath`) and the attachment projection. It
  also covers the bookmark test and button, and the view's own state (edit
  buffer, edit mode) as the class `DetailView`.
- `news_list.dfy` (module `NewsList`): the list view. It maps the route to a
  data source, gives the page title and the empty state, and decides which
  row is highlighted.

The model follows the code as written, including where one might expect
stricter behaviour:

- A fetch does not de-duplicate ids.
- `editNews` and `deleteNews` accept an article without `_id`. Its key is
  then the string `"undefined"`.
- `editNews` selects the payload as given. It does not recompute an index.
- Deleting the last article selects `{ index: 0 }`, not an empty selection
  (`NewsSliceProps.DeleteOnlyArticle`).
- "A deleted id is never bookmarked or edited" holds only right after a
  delete. A deleted article can be opened from the deleted list and
  bookmarked again (`NewsSliceProps.BookmarkAfterDeleteOverlaps`).
- A completion is never checked for staleness: the last one to arrive wins
  (`NewsSliceProps.LastCompletionWins`).

## Model

| member | source | states |
|---|---|---|
| NewsSlice.InitialState | src/app/store/slices/newsSlice.js:4-19 | the overlay maps are loaded from their storage keys, and a missing key gives the empty map; the list is empty, the selection is `{}`, nothing is loading or failed; the loaded state already mirrors storage |
| NewsSlice.HandleApiError | src/app/store/slices/newsSlice.js:22-25 | the payload has `error: true`; its message is the server's `response.data.message` when that is truthy and "An unexpected error occurred" otherwise; the message is always truthy |
| NewsSlice.RemoveByIdMembers | src/app/store/slices/newsSlice.js:81 | the filtered list holds exactly the articles of the input whose `_id` differs (by `===`) from the deleted one |
| NewsSlice.KeepLiveMembers | src/app/store/slices/newsSlice.js:107 | the filtered list holds exactly the payload's articles whose key is not in the deleted map |
| NewsSlice.ApplyEdits | src/app/store/slices/newsSlice.js:110 | same length as the input, and position `i` holds the edited version of input `i` when its key has one, the input otherwise |
| NewsSlice.ReplaceById | src/app/store/slices/newsSlice.js:74 | same length and order; exactly the entries whose `_id` equals the item's are replaced by the item, all others kept |
| NewsSlice.EffectiveList | src/app/store/slices/newsSlice.js:103-112 | the stored list is no longer than the payload, and when every edit is stored under its own key no entry has a key in the deleted map |
| NewsSlice.WithIndex | src/app/store/slices/newsSlice.js:82 | `{ ...o, index: i }` has `index` equal to `i` and every other property of `o` |
| NewsSlice.FirstWithIndexZero | src/app/store/slices/newsSlice.js:113 | the selection after a fetch or delete is the first article tagged `index: 0`, or `{ index: 0 }` when the list is empty |
| NewsSlice.AfterClearErrors | src/app/store/slices/newsSlice.js:50-52 | the error slot becomes null and nothing else changes |
| NewsSlice.AfterAddToSelectedNews | src/app/store/slices/newsSlice.js:53-55 | the payload becomes the selection unchecked; nothing else changes |
| NewsSlice.AfterAddBookmark | src/app/store/slices/newsSlice.js:59-64 | the item is stored under its key, no other key changes, the bookmarks storage key is rewritten with the new map; list, selection and other maps unchanged; mirroring and self-keying are preserved |
| NewsSlice.AfterDeleteBookmark | src/app/store/slices/newsSlice.js:65-70 | the item's key is absent afterwards, no other key changes, storage is rewritten; everything else unchanged |
| NewsSlice.AfterEditNews | src/app/store/slices/newsSlice.js:71-77 | the edit is recorded under its key with no other key changed; the list keeps its length and order, with exactly the entries of that `_id` replaced; the item is selected; the edited storage key is rewritten |
| NewsSlice.AfterDeleteNews | src/app/store/slices/newsSlice.js:78-91 | the payload is recorded under its key in the deleted map; the key leaves the bookmarks and the edits, no other key of any map changes; the list keeps exactly the articles of another `_id`; the first survivor is selected with index 0 (or `{index: 0}`); all three storage keys are rewritten and mirror the maps |
| NewsSlice.AfterFetchPending | src/app/store/slices/newsSlice.js:95-98 | loading becomes true and the error null; nothing else changes |
| NewsSlice.AfterFetchFulfilled | src/app/store/slices/newsSlice.js:99-115 | loading false, error null; the list is the effective list of the payload; its first entry is selected with index 0; maps and storage unchanged; no listed article has a deleted key when edits are self-keyed |
| NewsSlice.AfterFetchRejected | src/app/store/slices/newsSlice.js:116-119 | loading false and the rejection payload in the error slot; list and selection unchanged |
| NewsSlice.Reduce | src/app/store/slices/newsSlice.js:45-122 | a throwing action (`removeFromSelectedNews`, or a fulfilled fetch whose payload is not an array) leaves the state as it was; every action preserves storage mirroring and self-keyed maps |
| NewsSlice.NewsStore.constructor | src/app/store/slices/newsSlice.js:4-19 | the new store's state is the initial state over the given storage |
| NewsSlice.NewsStore.SelectLoadingState | src/app/store/slices/newsSlice.js:142-143 | defined exactly for `fetchNews`, where it is the loading flag |
| NewsSlice.NewsStore.SelectError | src/app/store/slices/newsSlice.js:145-146 | defined exactly for `fetchNews`, where it is the error slot |
| NewsSlice.NewsStore.ClearErrors | src/app/store/slices/newsSlice.js:50-52 | the fields change as `AfterClearErrors` says |
| NewsSlice.NewsStore.AddToSelectedNews | src/app/store/slices/newsSlice.js:53-55 | the fields change as `AfterAddToSelectedNews` says |
| NewsSlice.NewsStore.AddBookmark | src/app/store/slices/newsSlice.js:59-64 | map insert then storage write, with the effect `AfterAddBookmark` states |
| NewsSlice.NewsStore.DeleteBookmark | src/app/store/slices/newsSlice.js:65-70 | map delete then storage write, with the effect `AfterDeleteBookmark` states |
| NewsSlice.NewsStore.EditNews | src/app/store/slices/newsSlice.js:71-77 | the four assignments in source order have the effect `AfterEditNews` states |
| NewsSlice.NewsStore.DeleteNews | src/app/store/slices/newsSlice.js:78-91 | the assignments and three storage writes in source order have the effect `AfterDeleteNews` states |
| NewsSlice.NewsStore.FetchPending | src/app/store/slices/newsSlice.js:95-98 | the fields change as `AfterFetchPending` says |
| NewsSlice.NewsStore.FetchFulfilled | src/app/store/slices/newsSlice.js:99-115 | throws exactly when the payload is not an array, leaving every field as it was; otherwise filter then map then assignment, with the effect `AfterFetchFulfilled` states |
| NewsSlice.NewsStore.FetchRejected | src/app/store/slices/newsSlice.js:116-119 | the fields change as `AfterFetchRejected` says |
| NewsSlice.NewsStore.Dispatch | src/app/store/slices/newsSlice.js:45-122 | dispatching an action changes the fields as `Reduce` says |
| NewsSliceProps.KeepLiveConcat | src/app/store/slices/newsSlice.js:107 | the deleted-id filter keeps the payload's order: it distributes over concatenation |
| NewsSliceProps.RemoveByIdConcat | src/app/store/slices/newsSlice.js:81 | the delete filter keeps the survivors' relative order: it distributes over concatenation |
| NewsSliceProps.ApplyEditsConcat | src/app/store/slices/newsSlice.js:110 | substituting edits distributes over concatenation |
| NewsSliceProps.EffectiveListCons | src/app/store/slices/newsSlice.js:106-112 | an article with a deleted key is dropped, any other is replaced by its edit at its own position, and the rest follows in order |
| NewsSliceProps.EffectiveListConcat | src/app/store/slices/newsSlice.js:106-112 | the effective list of a concatenation is the concatenation of the effective lists |
| NewsSliceProps.EffectiveListIdempotent | src/app/store/slices/newsSlice.js:106-112 | applying the overlay to its own result changes nothing, when edits are stored under their own keys |
| NewsSliceProps.ReplaceByIdIdempotent | src/app/store/slices/newsSlice.js:74 | substituting the same item twice is substituting it once |
| NewsSliceProps.EditNewsIdempotent | src/app/store/slices/newsSlice.js:71-77 | `editNews` twice with the same payload gives the same state as once |
| NewsSliceProps.AddBookmarkIdempotent | src/app/store/slices/newsSlice.js:59-64 | adding a bookmark twice is adding it once |
| NewsSliceProps.DeleteBookmarkIdempotent | src/app/store/slices/newsSlice.js:65-70 | removing a bookmark twice is removing it once |
| NewsSliceProps.AddThenDeleteBookmark | src/app/store/slices/newsSlice.js:59-70 | add then delete leaves the key absent, the other bookmarks as before, list and selection unchanged |
| NewsSliceProps.DeleteOnlyArticle | src/app/store/slices/newsSlice.js:81-82 | deleting the only article empties the list and selects `{ index: 0 }` |
| NewsSliceProps.ReduceKeepsDeleted | src/app/store/slices/newsSlice.js:78-91 | no action removes a key from the deleted map: only `deleteNews` writes it, and it only adds a key |
| NewsSliceProps.DeletedGrows | src/app/store/slices/newsSlice.js:78-91 | over any sequence of actions the deleted map's keys only grow |
| NewsSliceProps.DeleteThenFetchHides | src/app/store/slices/newsSlice.js:78-112 | after a delete, whatever actions follow, no later fetch shows an article under the deleted key, whatever it returns |
| NewsSliceProps.BookmarkAfterDeleteOverlaps | src/app/store/slices/newsSlice.js:59-91 | bookmarking a deleted article puts its key in both the deleted map and the bookmarks |
| NewsSliceProps.OverlayShowsEdit | src/app/store/slices/newsSlice.js:106-112 | every entry under an edited key shows the edit, and the edit is listed exactly when the payload has that key |
| NewsSliceProps.EditThenFetchShowsEdit | src/app/store/slices/newsSlice.js:71-112 | an edit survives a refetch: under its key only the edited version is shown, and it is shown exactly when the fetch returns that key |
| NewsSliceProps.FetchDropsDeleted | src/app/store/slices/newsSlice.js:99-113 | payload `[a, b]` with `a` deleted gives the list `[b]` and selects `b` with index 0 |
| NewsSliceProps.LastCompletionWins | src/app/store/slices/newsSlice.js:99-115 | two fulfilled completions: the later one alone decides the state |
| NewsSliceProps.RejectedKeepsList | src/app/store/slices/newsSlice.js:116-119 | a rejection keeps list and selection, stops loading, and reports the server's message or the generic one |
| NewsSliceProps.RunKeepsPersisted | src/app/store/slices/newsSlice.js:59-91 | any sequence of actions keeps storage equal to the in-memory overlay maps |
| NewsSliceProps.RunKeepsWellKeyed | src/app/store/slices/newsSlice.js:59-91 | any sequence of actions keeps every overlay entry under its own key |
| NewsSliceProps.ReloadRestoresOverlays | src/app/store/slices/newsSlice.js:8-10 | reloading from storage after any run of actions rebuilds exactly the same overlay maps |
| NewsContent.Split | src/components/NewsContent.jsx:90 | the split path has at least one segment and no segment contains a dot |
| NewsContent.JoinSplit | src/components/NewsContent.jsx:90 | joining the segments with dots gives the field path back |
| NewsContent.SplitJoin | src/components/NewsContent.jsx:90 | splitting dot-joined dot-free segments gives the segments back |
| NewsContent.HandleFieldChange | src/components/NewsContent.jsx:88-103 | the loop copies each level along the path and stores the value at the last segment; the result is `SetPath` of the previous data |
| NewsContent.SetPathReadsBack | src/components/NewsContent.jsx:94-100 | after the update, reading along the path gives the new value |
| NewsContent.SetPathKeepsSiblings | src/components/NewsContent.jsx:91-97 | every property off the path, at every depth along it, reads as before; a missing or non-object intermediate becomes an empty record |
| NewsContent.SetTopLevelField | src/components/NewsContent.jsx:156-170 | a dot-free field such as `snippet` or `lead_paragraph` is set and every other top-level field is unchanged |
| NewsContent.HeadlineMainPath | src/components/NewsContent.jsx:153 | the field `headline.main` splits into the segments `headline`, `main` |
| NewsContent.SetHeadlineMain | src/components/NewsContent.jsx:94-100 | setting `headline.main` sets the leaf and keeps the headline's other fields and every other top-level field; a missing headline becomes `{ main }` |
| NewsContent.DisplayImages | src/components/NewsContent.jsx:80-86 | no attachments when `multimedia` is absent or null; images exactly when it is an array whose first three entries are not null; then at most 3, in order, url `https://www.nytimes.com/` + `String(media.url)`, alt the caption when truthy, else "News image" |
| NewsContent.IsBookmarked | src/components/NewsContent.jsx:75-78 | true exactly when the bookmarks have an entry under the selection's key |
| NewsContent.ToggleFlips | src/components/NewsContent.jsx:105-113 | the button dispatches delete when bookmarked and add otherwise, so it flips whether the selection is bookmarked and touches no other key, the list or the selection |
| NewsContent.ToggleTwiceRestores | src/components/NewsContent.jsx:105-113 | pressing the button twice on an unbookmarked article restores the bookmarks |
| NewsContent.DetailView.constructor | src/components/NewsContent.jsx:71-72 | the edit buffer starts as the selection, edit mode off |
| NewsContent.DetailView.EditStart | src/components/NewsContent.jsx:141-144 | edit mode on, and the buffer is set to the selection |
| NewsContent.DetailView.FieldChange | src/components/NewsContent.jsx:88-103 | the buffer becomes `SetPath` of the old buffer along the split field path |
| NewsContent.DetailView.SaveEdit | src/components/NewsContent.jsx:130-139 | `editNews` is dispatched with the buffer, then edit mode is off |
| NewsContent.DetailView.CancelEdit | src/components/NewsContent.jsx:229 | edit mode is off |
| NewsContent.DetailView.BookmarkAction | src/components/NewsContent.jsx:105-118 | the store changes as `ToggleBookmark` says: delete when bookmarked, add otherwise |
| NewsContent.DetailView.DeleteSelected | src/components/NewsContent.jsx:120-128 | `deleteNews` is dispatched with the selection |
| NewsList.ObjectValues | src/components/News.jsx:114 | only values of the map are listed, and for an enumeration of its keys row `i` is the value under the `i`-th key |
| NewsList.CurrentData | src/components/News.jsx:109-125 | `/deleted`, `/bookmarks`, `/edited` list the values of the deleted, bookmarked and edited maps in enumeration order; any other path lists `news` |
| NewsList.PageTitle | src/components/News.jsx:127-143 | "Deleted News", "Edited News", "Bookmarked News" exactly on their paths, "Latest News" exactly on every other path |
| NewsList.SelectPayload | src/components/News.jsx:145-149 | the payload is the item with `index` set to the row's position and every other property kept |
| NewsList.Render | src/components/News.jsx:160-190 | the empty state with the path's message exactly when the list is empty; otherwise one row per article in order, highlighted iff the selection's `index` equals its position, so at most one row is |
| NewsList.SelectHighlightsRow | src/components/News.jsx:184 | after clicking row `i`, row `i` and no other is highlighted |
| NewsList.FetchHighlightsFirstRow | src/components/News.jsx:184 | after a fetch, the latest list is empty exactly when the effective list is, and otherwise only its first row is highlighted |

## Left out

- The HTTP request (axios, the search endpoint, the query and the API key,
  `src/app/store/slices/newsSlice.js:28-43`) is not modelled. The thunk's
  outcome is an input: the `docs` array (or `None` when the response has no
  array there) for the fulfilled case, and the rejection payload for the
  rejected case. `HandleApiError` models how that payload is built.
- Every element of a fetched `docs` array is assumed to be an object, and
  the error the thunk catches is assumed to be an object. In JavaScript a
  `null` element throws at `src/app/store/slices/newsSlice.js:107`
  (`null._id`), so the reducer's changes are discarded and loading stays
  true. A number or string element has no `_id`, so it is treated like an
  article without `_id` (key `"undefined"`): it ends up in `news` unless that
  key is deleted, and `editedNews["undefined"]` replaces it when that entry
  exists.
  A `null` error throws at `src/app/store/slices/newsSlice.js:23`. None of
  these cases can be stated over `FetchFulfilledAction`'s `seq<Object>` or
  `HandleApiError`, which treats a non-object error as one without a
  response.
- Browser storage is the field `storage`, a map from key to an already
  parsed overlay map. JSON encoding, malformed stored JSON (which throws at
  start-up), and a write that fails (quota) are not modelled.
- `lastUpdated` and every date formatting depend on the clock and locale.
  They are not modelled.
- Redux Toolkit and Immer machinery, React hooks, memoisation,
  `useTransition`, snackbars and the try/catch around dispatch are not
  modelled. A dispatched reducer runs to completion. One that throws leaves
  the state as it was.
- `removeFromSelectedNews` is only modelled as throwing: `Reduce` leaves the
  state unchanged. It calls `filter` on the selection, which is always a
  plain object. Nothing in the core dispatches it.
- `NewsContent.DisplayImages`: an entry of `multimedia` that is a string or
  an array is read like an object without `url` or `caption`. This matches
  JavaScript for those two properties.
- `NewsContent.SetPath`: spreading a string or array intermediate
  (`{ ..."ab" }`) gives index-keyed properties in JavaScript. The model gives
  an empty record, as it does for numbers, booleans, `null` and `undefined`.
- `HandleFieldChange` links each level's copy into its parent on the way
  back up. JavaScript links it through the aliased `currentLevel` cursor.
  Values cannot alias, so the previous object is never mutated, by
  construction.
- `Object.values` order is an input (`order`) to `CurrentData`. JavaScript
  orders integer-like keys first, then the rest by insertion. The model does
  not track insertion order.
- The `|| {}` and `|| []` defaults of the selectors
  (`src/app/store/slices/newsSlice.js:127-140`, `src/components/News.jsx:114-123`)
  never apply: the state always holds the maps and the list. Plain
  selectors are field reads of `NewsStore`.
- Numbers are integers. Property names that collide with
  `Object.prototype` members (`constructor`, `__proto__`) behave like any
  other key. `===` on object-valued ids compares structurally, not by
  reference.
- Pure presentation (`Layout.jsx`, `Header.jsx`, `theme.js`, `main.jsx`),
  the mount-time fetch in `Home.jsx` and the path-prefix check in
  `Navigation.jsx` are not part of this model.
