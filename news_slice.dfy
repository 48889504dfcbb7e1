/**
 * The `news` slice of the Redux store: the fetched article list, the three
 * overlay maps (bookmarks, edited and deleted articles, keyed by the
 * article's `_id`), the selected article, the loading and error slots of the
 * `fetchNews` request, and the browser's key-value storage that mirrors the
 * overlay maps.
 *
 * The reducers are given twice: as pure transitions `AfterX` on a
 * `SliceState` value (what the reducer computes), and as the methods of the
 * class `NewsStore`, which update its fields step by step in the order the
 * reducers do and are proved to implement the transitions.
 */
module NewsSlice {
  import opened JsValue

  /** An overlay map: property key of an article's `_id` to the article. */
  type Overlay = map<string, Object>

  /** The browser's key-value storage, each entry already parsed. */
  type Storage = map<string, Overlay>

  const BookmarksKey: string := "bookmarks"
  const EditedKey: string := "editedNews"
  const DeletedKey: string := "deletedNews"

  /** `JSON.parse(localStorage.getItem(key)) || {}`: a missing key reads as
      the empty map. */
  function Load(storage: Storage, key: string): Overlay
  {
    if key in storage then storage[key] else map[]
  }

  /** `a._id`, possibly `undefined`. */
  function IdOf(a: Object): Option<Value>
  {
    Get(a, "_id")
  }

  /** The property key that `m[a._id]` uses: `String(a._id)`, which is
      "undefined" when the article has no `_id`. */
  function Key(a: Object): string
  {
    ToJsString(IdOf(a))
  }

  /** Every article of the map is stored under its own key. */
  ghost predicate SelfKeyed(m: Overlay)
  {
    forall k :: k in m ==> Key(m[k]) == k
  }

  /** `m1` agrees with `m0` on every key but `k`. */
  ghost predicate OnlyKeyChanged<V>(m0: map<string, V>, m1: map<string, V>, k: string)
  {
    forall j :: j != k ==> Get(m1, j) == Get(m0, j)
  }

  /** `{ ...o, index: i }` */
  function WithIndex(o: Object, i: int): (r: Object)
    ensures Get(r, "index") == Some(Num(i))
    ensures OnlyKeyChanged(o, r, "index")
  {
    o["index" := Num(i)]
  }

  /** `{ ...s[0], index: 0 }`: spreading `undefined` adds nothing, so an
      empty list gives `{ index: 0 }`. */
  function FirstWithIndexZero(s: seq<Object>): (r: Object)
    ensures s == [] ==> r == map["index" := Num(0)]
    ensures s != [] ==> r == WithIndex(s[0], 0)
  {
    WithIndex(if s == [] then map[] else s[0], 0)
  }

  // ---------------------------------------------------------------------
  // Errors of the fetch request

  /** The rejection payload `{ error: true, message }`. */
  datatype ErrorInfo = ErrorInfo(error: bool, message: Value)

  const DefaultMessage: string := "An unexpected error occurred"

  /** `error.response?.data?.message` */
  function ServerMessage(err: Value): Option<Value>
  {
    PropPath(Some(err), ["response", "data", "message"])
  }

  /** The message is the server's when it has a truthy one and the generic
      fallback otherwise; either way the stored message is truthy. */
  function HandleApiError(err: Value): (r: ErrorInfo)
    ensures r.error
    ensures Truthy(ServerMessage(err)) ==> ServerMessage(err) == Some(r.message)
    ensures !Truthy(ServerMessage(err)) ==> r.message == Str(DefaultMessage)
    ensures Truthy(Some(r.message))
  {
    var m := ServerMessage(err);
    ErrorInfo(true, if Truthy(m) then m.value else Str(DefaultMessage))
  }

  // ---------------------------------------------------------------------
  // The array operations the reducers use

  /** `s.filter(item => item._id !== id)` */
  function RemoveById(s: seq<Object>, id: Option<Value>): (r: seq<Object>)
    ensures |r| <= |s|
    decreases |s|
  {
    if s == [] then []
    else (if IdOf(s[0]) != id then [s[0]] else []) + RemoveById(s[1..], id)
  }

  /** The filter keeps exactly the articles of another `_id`. */
  lemma {:induction false} RemoveByIdMembers(s: seq<Object>, id: Option<Value>)
    ensures forall a :: a in RemoveById(s, id) <==> a in s && IdOf(a) != id
    decreases |s|
  {
    if s != [] {
      RemoveByIdMembers(s[1..], id);
      assert s == [s[0]] + s[1..];
    }
  }

  /** `s.filter(item => !deleted[item._id])`; overlay values are objects and
      so always truthy, hence the test is key membership. */
  function KeepLive(s: seq<Object>, deleted: Overlay): (r: seq<Object>)
    ensures |r| <= |s|
    decreases |s|
  {
    if s == [] then []
    else (if Key(s[0]) !in deleted then [s[0]] else []) + KeepLive(s[1..], deleted)
  }

  /** The filter keeps exactly the articles whose key is not deleted. */
  lemma {:induction false} KeepLiveMembers(s: seq<Object>, deleted: Overlay)
    ensures forall a :: a in KeepLive(s, deleted) <==> a in s && Key(a) !in deleted
    decreases |s|
  {
    if s != [] {
      KeepLiveMembers(s[1..], deleted);
      assert s == [s[0]] + s[1..];
    }
  }

  /** The edited version of an article when there is one. */
  function Edited(a: Object, edited: Overlay): Object
  {
    if Key(a) in edited then edited[Key(a)] else a
  }

  /** `s.map(item => edited[item._id] ? edited[item._id] : item)` */
  function ApplyEdits(s: seq<Object>, edited: Overlay): (r: seq<Object>)
    ensures |r| == |s|
    ensures forall i :: 0 <= i < |s| ==> r[i] == Edited(s[i], edited)
    decreases |s|
  {
    if s == [] then [] else [Edited(s[0], edited)] + ApplyEdits(s[1..], edited)
  }

  /** `s.map(i => i._id === item._id ? item : i)` */
  function ReplaceById(s: seq<Object>, item: Object): (r: seq<Object>)
    ensures |r| == |s|
    ensures forall i :: 0 <= i < |s| ==> r[i] == (if IdOf(s[i]) == IdOf(item) then item else s[i])
    decreases |s|
  {
    if s == [] then []
    else [if IdOf(s[0]) == IdOf(item) then item else s[0]] + ReplaceById(s[1..], item)
  }

  /** The list the fulfilled fetch stores: the payload with deleted articles
      dropped and edited ones substituted in place. No article of the result
      is under a deleted key when the edited map is keyed by its articles'
      own keys. */
  function EffectiveList(docs: seq<Object>, edited: Overlay, deleted: Overlay): (r: seq<Object>)
    ensures |r| <= |docs|
    ensures SelfKeyed(edited) ==> forall i :: 0 <= i < |r| ==> Key(r[i]) !in deleted
  {
    var live := KeepLive(docs, deleted);
    KeepLiveMembers(docs, deleted);
    assert forall i :: 0 <= i < |live| ==> Key(live[i]) !in deleted by {
      forall i | 0 <= i < |live| ensures Key(live[i]) !in deleted {
        assert live[i] in live;
      }
    }
    ApplyEdits(live, edited)
  }

  // ---------------------------------------------------------------------
  // The slice's state and its reducers as transitions

  datatype SliceState = SliceState(
    news: seq<Object>,
    selectedNews: Object,
    bookmarks: Overlay,
    editedNews: Overlay,
    deletedNews: Overlay,
    fetchLoading: bool,
    fetchError: Option<ErrorInfo>,
    storage: Storage)

  /** The in-memory overlay maps are what a reload from storage would give. */
  ghost predicate Persisted(s: SliceState)
  {
    && Load(s.storage, BookmarksKey) == s.bookmarks
    && Load(s.storage, EditedKey) == s.editedNews
    && Load(s.storage, DeletedKey) == s.deletedNews
  }

  /** Each overlay map stores every article under its own key. */
  ghost predicate WellKeyed(s: SliceState)
  {
    SelfKeyed(s.bookmarks) && SelfKeyed(s.editedNews) && SelfKeyed(s.deletedNews)
  }

  /** `initialState`: the overlay maps come from storage, a missing key
      giving the empty map; nothing is selected, loading or failed. */
  function InitialState(storage: Storage): (t: SliceState)
    ensures Persisted(t)
    ensures t.news == [] && t.selectedNews == map[]
    ensures !t.fetchLoading && t.fetchError == None && t.storage == storage
    ensures BookmarksKey !in storage ==> t.bookmarks == map[]
    ensures EditedKey !in storage ==> t.editedNews == map[]
    ensures DeletedKey !in storage ==> t.deletedNews == map[]
  {
    SliceState([], map[], Load(storage, BookmarksKey), Load(storage, EditedKey),
               Load(storage, DeletedKey), false, None, storage)
  }

  /** `clearErrors`: only the error slot changes, back to `null`. */
  function AfterClearErrors(s: SliceState): (t: SliceState)
    ensures t.fetchError == None
    ensures t == s.(fetchError := None)
  {
    s.(fetchError := None)
  }

  /** `addToSelectedNews`: the payload becomes the selection, unchecked. */
  function AfterAddToSelectedNews(s: SliceState, payload: Object): (t: SliceState)
    ensures t.selectedNews == payload
    ensures t == s.(selectedNews := payload)
  {
    s.(selectedNews := payload)
  }

  /** `addBookmark`: inserts the item under its key and writes the map. */
  function AfterAddBookmark(s: SliceState, item: Object): (t: SliceState)
    ensures Get(t.bookmarks, Key(item)) == Some(item)
    ensures OnlyKeyChanged(s.bookmarks, t.bookmarks, Key(item))
    ensures t.storage == s.storage[BookmarksKey := t.bookmarks]
    ensures t == s.(bookmarks := t.bookmarks, storage := t.storage)
    ensures Persisted(s) ==> Persisted(t)
    ensures WellKeyed(s) ==> WellKeyed(t)
  {
    var b := s.bookmarks[Key(item) := item];
    s.(bookmarks := b, storage := s.storage[BookmarksKey := b])
  }

  /** `deleteBookmark`: removes the item's key and writes the map. */
  function AfterDeleteBookmark(s: SliceState, item: Object): (t: SliceState)
    ensures Get(t.bookmarks, Key(item)) == None
    ensures OnlyKeyChanged(s.bookmarks, t.bookmarks, Key(item))
    ensures t.storage == s.storage[BookmarksKey := t.bookmarks]
    ensures t == s.(bookmarks := t.bookmarks, storage := t.storage)
    ensures Persisted(s) ==> Persisted(t)
    ensures WellKeyed(s) ==> WellKeyed(t)
  {
    var b := s.bookmarks - {Key(item)};
    s.(bookmarks := b, storage := s.storage[BookmarksKey := b])
  }

  /** `editNews`: records the edit, substitutes it for every article with
      the same `_id` (same length, same order), selects it, and writes the
      edited map. */
  function AfterEditNews(s: SliceState, item: Object): (t: SliceState)
    ensures Get(t.editedNews, Key(item)) == Some(item)
    ensures OnlyKeyChanged(s.editedNews, t.editedNews, Key(item))
    ensures |t.news| == |s.news|
    ensures forall i :: 0 <= i < |s.news| && IdOf(s.news[i]) == IdOf(item) ==> t.news[i] == item
    ensures forall i :: 0 <= i < |s.news| && IdOf(s.news[i]) != IdOf(item) ==> t.news[i] == s.news[i]
    ensures t.selectedNews == item
    ensures t.storage == s.storage[EditedKey := t.editedNews]
    ensures t == s.(editedNews := t.editedNews, news := t.news, selectedNews := item, storage := t.storage)
    ensures Persisted(s) ==> Persisted(t)
    ensures WellKeyed(s) ==> WellKeyed(t)
  {
    var e := s.editedNews[Key(item) := item];
    s.(editedNews := e, news := ReplaceById(s.news, item), selectedNews := item,
       storage := s.storage[EditedKey := e])
  }

  /** `deleteNews`: records the deletion, drops the `_id` from the list (the
      rest keep their order), from the bookmarks and from the edits, selects
      the new first article with index 0, and writes all three maps. */
  function AfterDeleteNews(s: SliceState, item: Object): (t: SliceState)
    ensures Get(t.deletedNews, Key(item)) == Some(item)
    ensures OnlyKeyChanged(s.deletedNews, t.deletedNews, Key(item))
    ensures Get(t.bookmarks, Key(item)) == None && OnlyKeyChanged(s.bookmarks, t.bookmarks, Key(item))
    ensures Get(t.editedNews, Key(item)) == None && OnlyKeyChanged(s.editedNews, t.editedNews, Key(item))
    ensures forall a :: a in t.news <==> a in s.news && IdOf(a) != IdOf(item)
    ensures t.news == RemoveById(s.news, IdOf(item))
    ensures t.selectedNews == FirstWithIndexZero(t.news)
    ensures t.storage == s.storage[DeletedKey := t.deletedNews][BookmarksKey := t.bookmarks][EditedKey := t.editedNews]
    ensures t.fetchLoading == s.fetchLoading && t.fetchError == s.fetchError
    ensures Persisted(t)
    ensures WellKeyed(s) ==> WellKeyed(t)
  {
    var k := Key(item);
    var d := s.deletedNews[k := item];
    var n := RemoveById(s.news, IdOf(item));
    RemoveByIdMembers(s.news, IdOf(item));
    var b := s.bookmarks - {k};
    var e := s.editedNews - {k};
    s.(deletedNews := d, news := n, selectedNews := FirstWithIndexZero(n),
       bookmarks := b, editedNews := e,
       storage := s.storage[DeletedKey := d][BookmarksKey := b][EditedKey := e])
  }

  /** `fetchNews.pending`: loading, with the error cleared. */
  function AfterFetchPending(s: SliceState): (t: SliceState)
    ensures t.fetchLoading && t.fetchError == None
    ensures t == s.(fetchLoading := true, fetchError := None)
  {
    s.(fetchLoading := true, fetchError := None)
  }

  /** `fetchNews.fulfilled`: the effective list of the payload replaces the
      list, its first article is selected with index 0, and the overlay maps
      and storage are untouched. */
  function AfterFetchFulfilled(s: SliceState, docs: seq<Object>): (t: SliceState)
    ensures !t.fetchLoading && t.fetchError == None
    ensures t.news == EffectiveList(docs, s.editedNews, s.deletedNews)
    ensures t.selectedNews == FirstWithIndexZero(t.news)
    ensures t.bookmarks == s.bookmarks && t.editedNews == s.editedNews
    ensures t.deletedNews == s.deletedNews && t.storage == s.storage
    ensures SelfKeyed(s.editedNews) ==> forall a :: a in t.news ==> Key(a) !in t.deletedNews
  {
    var n := EffectiveList(docs, s.editedNews, s.deletedNews);
    s.(fetchLoading := false, fetchError := None, news := n, selectedNews := FirstWithIndexZero(n))
  }

  /** `fetchNews.rejected`: not loading, the payload in the error slot; the
      list and the selection keep their last good values. */
  function AfterFetchRejected(s: SliceState, payload: ErrorInfo): (t: SliceState)
    ensures !t.fetchLoading && t.fetchError == Some(payload)
    ensures t == s.(fetchLoading := false, fetchError := Some(payload))
  {
    s.(fetchLoading := false, fetchError := Some(payload))
  }

  // ---------------------------------------------------------------------
  // The slice's reducer over its actions

  /** The actions the slice handles. `FetchFulfilled` carries `None` when
      the response had no `docs` array. */
  datatype Action =
    | ClearErrorsAction
    | AddToSelectedNewsAction(payload: Object)
    | RemoveFromSelectedNewsAction(payload: Object)
    | AddBookmarkAction(item: Object)
    | DeleteBookmarkAction(item: Object)
    | EditNewsAction(item: Object)
    | DeleteNewsAction(item: Object)
    | FetchPendingAction
    | FetchFulfilledAction(docs: Option<seq<Object>>)
    | FetchRejectedAction(error: ErrorInfo)

  /** Whether the reducer throws on this action. `removeFromSelectedNews`
      calls `filter` on the selection, which is always a plain object, and
      the fulfilled case calls `filter` on the payload; a reducer that throws
      leaves the store's state as it was. */
  predicate Throws(a: Action)
  {
    a.RemoveFromSelectedNewsAction? || (a.FetchFulfilledAction? && a.docs.None?)
  }

  /** `newsSlice.reducer`. */
  function Reduce(s: SliceState, a: Action): (t: SliceState)
    ensures Throws(a) ==> t == s
    ensures Persisted(s) ==> Persisted(t)
    ensures WellKeyed(s) ==> WellKeyed(t)
  {
    match a
    case ClearErrorsAction => AfterClearErrors(s)
    case AddToSelectedNewsAction(p) => AfterAddToSelectedNews(s, p)
    case RemoveFromSelectedNewsAction(_) => s
    case AddBookmarkAction(item) => AfterAddBookmark(s, item)
    case DeleteBookmarkAction(item) => AfterDeleteBookmark(s, item)
    case EditNewsAction(item) => AfterEditNews(s, item)
    case DeleteNewsAction(item) => AfterDeleteNews(s, item)
    case FetchPendingAction => AfterFetchPending(s)
    case FetchFulfilledAction(docs) =>
      if docs.None? then s else AfterFetchFulfilled(s, docs.value)
    case FetchRejectedAction(p) => AfterFetchRejected(s, p)
  }

  /** The state after dispatching the actions in order. */
  function Run(s: SliceState, actions: seq<Action>): SliceState
    decreases |actions|
  {
    if actions == [] then s else Run(Reduce(s, actions[0]), actions[1..])
  }

  // ---------------------------------------------------------------------
  // The store as an object whose fields the reducers update in place

  class NewsStore {
    var news: seq<Object>
    var selectedNews: Object
    var bookmarks: Overlay
    var editedNews: Overlay
    var deletedNews: Overlay
    var fetchLoading: bool
    var fetchError: Option<ErrorInfo>
    var storage: Storage

    function State(): SliceState
      reads this
    {
      SliceState(news, selectedNews, bookmarks, editedNews, deletedNews,
                 fetchLoading, fetchError, storage)
    }

    /** Creates the store over the storage found at start-up. */
    constructor (initialStorage: Storage)
      ensures State() == InitialState(initialStorage)
    {
      news := [];
      selectedNews := map[];
      bookmarks := Load(initialStorage, BookmarksKey);
      editedNews := Load(initialStorage, EditedKey);
      deletedNews := Load(initialStorage, DeletedKey);
      fetchLoading := false;
      fetchError := None;
      storage := initialStorage;
    }

    /** `selectLoadingState(state, op)`: `undefined` for any operation but
        `fetchNews`. */
    function SelectLoadingState(op: string): (r: Option<bool>)
      reads this
      ensures r.Some? <==> op == "fetchNews"
      ensures r.Some? ==> r.value == fetchLoading
    {
      if op == "fetchNews" then Some(fetchLoading) else None
    }

    /** `selectError(state, op)`: `undefined` for any operation but
        `fetchNews`, whose slot holds `null` or the rejection payload. */
    function SelectError(op: string): (r: Option<Option<ErrorInfo>>)
      reads this
      ensures r.Some? <==> op == "fetchNews"
      ensures r.Some? ==> r.value == fetchError
    {
      if op == "fetchNews" then Some(fetchError) else None
    }

    method ClearErrors()
      modifies this
      ensures State() == AfterClearErrors(old(State()))
    {
      fetchError := None;
    }

    method AddToSelectedNews(payload: Object)
      modifies this
      ensures State() == AfterAddToSelectedNews(old(State()), payload)
    {
      selectedNews := payload;
    }

    method AddBookmark(item: Object)
      modifies this
      ensures State() == AfterAddBookmark(old(State()), item)
    {
      bookmarks := bookmarks[Key(item) := item];
      storage := storage[BookmarksKey := bookmarks];
    }

    method DeleteBookmark(item: Object)
      modifies this
      ensures State() == AfterDeleteBookmark(old(State()), item)
    {
      var itemId := Key(item);
      bookmarks := bookmarks - {itemId};
      storage := storage[BookmarksKey := bookmarks];
    }

    method EditNews(item: Object)
      modifies this
      ensures State() == AfterEditNews(old(State()), item)
    {
      editedNews := editedNews[Key(item) := item];
      news := ReplaceById(news, item);
      selectedNews := item;
      storage := storage[EditedKey := editedNews];
    }

    method DeleteNews(item: Object)
      modifies this
      ensures State() == AfterDeleteNews(old(State()), item)
    {
      ghost var s0 := State();
      var itemId := IdOf(item);
      deletedNews := deletedNews[ToJsString(itemId) := item];
      news := RemoveById(news, itemId);
      selectedNews := FirstWithIndexZero(news);
      storage := storage[DeletedKey := deletedNews];
      bookmarks := bookmarks - {ToJsString(itemId)};
      editedNews := editedNews - {ToJsString(itemId)};
      storage := storage[BookmarksKey := bookmarks];
      storage := storage[EditedKey := editedNews];
      assert State() == s0.(deletedNews := deletedNews, news := news, selectedNews := selectedNews,
                            bookmarks := bookmarks, editedNews := editedNews, storage := storage);
    }

    method FetchPending()
      modifies this
      ensures State() == AfterFetchPending(old(State()))
    {
      fetchLoading := true;
      fetchError := None;
    }

    /** The fulfilled case; `threw` when the payload is not an array, in
        which case the reducer's changes are discarded. */
    method FetchFulfilled(docs: Option<seq<Object>>) returns (threw: bool)
      modifies this
      ensures threw <==> docs.None?
      ensures threw ==> State() == old(State())
      ensures !threw ==> State() == AfterFetchFulfilled(old(State()), docs.value)
    {
      if docs.None? {
        return true;
      }
      threw := false;
      var filtered := KeepLive(docs.value, deletedNews);
      var updated := ApplyEdits(filtered, editedNews);
      fetchLoading := false;
      fetchError := None;
      news := updated;
      selectedNews := FirstWithIndexZero(updated);
    }

    method FetchRejected(payload: ErrorInfo)
      modifies this
      ensures State() == AfterFetchRejected(old(State()), payload)
    {
      fetchLoading := false;
      fetchError := Some(payload);
    }

    /** Dispatches one action to the slice's reducer. */
    method Dispatch(a: Action)
      modifies this
      ensures State() == Reduce(old(State()), a)
    {
      match a
      case ClearErrorsAction => ClearErrors();
      case AddToSelectedNewsAction(p) => AddToSelectedNews(p);
      case RemoveFromSelectedNewsAction(_) =>
      case AddBookmarkAction(item) => AddBookmark(item);
      case DeleteBookmarkAction(item) => DeleteBookmark(item);
      case EditNewsAction(item) => EditNews(item);
      case DeleteNewsAction(item) => DeleteNews(item);
      case FetchPendingAction => FetchPending();
      case FetchFulfilledAction(docs) => var _ := FetchFulfilled(docs);
      case FetchRejectedAction(p) => FetchRejected(p);
    }
  }
}
