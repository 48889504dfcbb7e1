/**
 * Properties of the `news` slice's reducers: how the fetched list is
 * filtered and overlaid, idempotence of the map operations, the cascade of a
 * delete, and the mirroring of the overlay maps in storage across any run of
 * actions.
 */
module NewsSliceProps {
  import opened JsValue
  import opened NewsSlice

  // ---------------------------------------------------------------------
  // Order: the filters and the overlay work element by element, left to right

  lemma {:induction false} KeepLiveConcat(s1: seq<Object>, s2: seq<Object>, deleted: Overlay)
    ensures KeepLive(s1 + s2, deleted) == KeepLive(s1, deleted) + KeepLive(s2, deleted)
    decreases |s1|
  {
    if s1 != [] {
      var head := if Key(s1[0]) !in deleted then [s1[0]] else [];
      assert (s1 + s2)[0] == s1[0] && (s1 + s2)[1..] == s1[1..] + s2;
      assert KeepLive(s1 + s2, deleted) == head + KeepLive(s1[1..] + s2, deleted);
      KeepLiveConcat(s1[1..], s2, deleted);
    } else {
      assert s1 + s2 == s2;
    }
  }

  lemma {:induction false} RemoveByIdConcat(s1: seq<Object>, s2: seq<Object>, id: Option<Value>)
    ensures RemoveById(s1 + s2, id) == RemoveById(s1, id) + RemoveById(s2, id)
    decreases |s1|
  {
    if s1 != [] {
      var head := if IdOf(s1[0]) != id then [s1[0]] else [];
      assert (s1 + s2)[0] == s1[0] && (s1 + s2)[1..] == s1[1..] + s2;
      assert RemoveById(s1 + s2, id) == head + RemoveById(s1[1..] + s2, id);
      RemoveByIdConcat(s1[1..], s2, id);
      assert RemoveById(s1, id) == head + RemoveById(s1[1..], id);
      assert head + (RemoveById(s1[1..], id) + RemoveById(s2, id)) == (head + RemoveById(s1[1..], id)) + RemoveById(s2, id);
    } else {
      assert s1 + s2 == s2;
    }
  }

  lemma ApplyEditsConcat(s1: seq<Object>, s2: seq<Object>, edited: Overlay)
    ensures ApplyEdits(s1 + s2, edited) == ApplyEdits(s1, edited) + ApplyEdits(s2, edited)
  {
  }

  /** The effective list of `[x] + rest` drops `x` when its key is deleted
      and otherwise puts its edited version first, followed by the effective
      list of the rest: the payload's order is kept and each survivor is
      replaced at its own position. */
  lemma EffectiveListCons(x: Object, rest: seq<Object>, edited: Overlay, deleted: Overlay)
    ensures EffectiveList([x] + rest, edited, deleted)
         == (if Key(x) in deleted then [] else [Edited(x, edited)]) + EffectiveList(rest, edited, deleted)
  {
    KeepLiveConcat([x], rest, deleted);
    ApplyEditsConcat(KeepLive([x], deleted), KeepLive(rest, deleted), edited);
    assert KeepLive([x], deleted) == (if Key(x) in deleted then [] else [x]) by {
      assert [x][1..] == [];
    }
  }

  /** The effective list of a concatenation is the concatenation of the
      effective lists. */
  lemma EffectiveListConcat(s1: seq<Object>, s2: seq<Object>, edited: Overlay, deleted: Overlay)
    ensures EffectiveList(s1 + s2, edited, deleted)
         == EffectiveList(s1, edited, deleted) + EffectiveList(s2, edited, deleted)
  {
    KeepLiveConcat(s1, s2, deleted);
    ApplyEditsConcat(KeepLive(s1, deleted), KeepLive(s2, deleted), edited);
  }

  /** Overlaying is idempotent: the effective list of an effective list is
      itself, when every edit is stored under its own key. */
  lemma {:induction false} EffectiveListIdempotent(docs: seq<Object>, edited: Overlay, deleted: Overlay)
    requires SelfKeyed(edited)
    ensures EffectiveList(EffectiveList(docs, edited, deleted), edited, deleted)
         == EffectiveList(docs, edited, deleted)
    decreases |docs|
  {
    if docs != [] {
      var x, rest := docs[0], docs[1..];
      assert docs == [x] + rest;
      EffectiveListCons(x, rest, edited, deleted);
      EffectiveListIdempotent(rest, edited, deleted);
      var tail := EffectiveList(rest, edited, deleted);
      if Key(x) !in deleted {
        var y := Edited(x, edited);
        assert Key(y) == Key(x);
        assert Edited(y, edited) == y;
        assert EffectiveList(docs, edited, deleted) == [y] + tail;
        EffectiveListCons(y, tail, edited, deleted);
      } else {
        assert EffectiveList(docs, edited, deleted) == tail;
      }
    }
  }

  // ---------------------------------------------------------------------
  // editNews

  lemma {:induction false} ReplaceByIdIdempotent(s: seq<Object>, item: Object)
    ensures ReplaceById(ReplaceById(s, item), item) == ReplaceById(s, item)
  {
    var once := ReplaceById(s, item);
    var twice := ReplaceById(once, item);
    assert |twice| == |once|;
    forall i | 0 <= i < |once| ensures twice[i] == once[i] {
    }
  }

  /** Editing twice with the same article is editing once. */
  lemma EditNewsIdempotent(s: SliceState, item: Object)
    ensures AfterEditNews(AfterEditNews(s, item), item) == AfterEditNews(s, item)
  {
    ReplaceByIdIdempotent(s.news, item);
    var once := AfterEditNews(s, item);
    assert once.editedNews[Key(item) := item] == once.editedNews;
    assert once.storage[EditedKey := once.editedNews] == once.storage;
  }

  // ---------------------------------------------------------------------
  // Bookmarks

  lemma AddBookmarkIdempotent(s: SliceState, item: Object)
    ensures AfterAddBookmark(AfterAddBookmark(s, item), item) == AfterAddBookmark(s, item)
  {
    var once := AfterAddBookmark(s, item);
    assert once.bookmarks[Key(item) := item] == once.bookmarks;
    assert once.storage[BookmarksKey := once.bookmarks] == once.storage;
  }

  lemma DeleteBookmarkIdempotent(s: SliceState, item: Object)
    ensures AfterDeleteBookmark(AfterDeleteBookmark(s, item), item) == AfterDeleteBookmark(s, item)
  {
    var once := AfterDeleteBookmark(s, item);
    assert once.bookmarks - {Key(item)} == once.bookmarks;
    assert once.storage[BookmarksKey := once.bookmarks] == once.storage;
  }

  /** Adding then removing a bookmark leaves the key absent and every other
      key, the list and the selection as they were. */
  lemma AddThenDeleteBookmark(s: SliceState, item: Object)
    ensures var t := AfterDeleteBookmark(AfterAddBookmark(s, item), item);
      && Key(item) !in t.bookmarks
      && t.bookmarks == s.bookmarks - {Key(item)}
      && t.news == s.news && t.selectedNews == s.selectedNews
  {
  }

  // ---------------------------------------------------------------------
  // deleteNews

  /** Deleting the only article leaves an empty list and a selection that
      is `{ index: 0 }`, not an empty one. */
  lemma DeleteOnlyArticle(s: SliceState, item: Object)
    requires |s.news| == 1 && IdOf(s.news[0]) == IdOf(item)
    ensures AfterDeleteNews(s, item).news == []
    ensures AfterDeleteNews(s, item).selectedNews == map["index" := Num(0)]
  {
    assert s.news[1..] == [];
  }

  /** No action forgets a deleted key. */
  lemma ReduceKeepsDeleted(s: SliceState, a: Action)
    ensures s.deletedNews.Keys <= Reduce(s, a).deletedNews.Keys
  {
    if a.DeleteNewsAction? {
      var t := Reduce(s, a);
      forall k | k in s.deletedNews ensures k in t.deletedNews {
        if k != Key(a.item) {
          assert Get(t.deletedNews, k) == Get(s.deletedNews, k);
        }
      }
    }
  }

  /** The deleted map only grows over any run of actions. */
  lemma {:induction false} DeletedGrows(s: SliceState, actions: seq<Action>)
    ensures s.deletedNews.Keys <= Run(s, actions).deletedNews.Keys
    decreases |actions|
  {
    if actions != [] {
      ReduceKeepsDeleted(s, actions[0]);
      DeletedGrows(Reduce(s, actions[0]), actions[1..]);
    }
  }

  /** Once deleted, an article never reappears through a later fetch,
      whatever actions come in between and whatever the fetch returns. */
  lemma DeleteThenFetchHides(s: SliceState, item: Object, actions: seq<Action>, docs: seq<Object>)
    requires WellKeyed(s)
    ensures var t := AfterFetchFulfilled(Run(AfterDeleteNews(s, item), actions), docs);
      forall a :: a in t.news ==> Key(a) != Key(item)
  {
    var u := AfterDeleteNews(s, item);
    DeletedGrows(u, actions);
    RunKeepsWellKeyed(u, actions);
  }

  /** The cascade runs only at delete time: a deleted article that is
      selected again (from the deleted list) and bookmarked ends up in both
      maps. */
  lemma BookmarkAfterDeleteOverlaps(s: SliceState, item: Object)
    ensures var t := AfterAddBookmark(AfterDeleteNews(s, item), item);
      Key(item) in t.deletedNews && Key(item) in t.bookmarks
  {
  }

  // ---------------------------------------------------------------------
  // The fetch lifecycle

  /** Under an edited key, substituting edits shows only the edit. */
  lemma ApplyEditsOnlyEdit(live: seq<Object>, edited: Overlay, item: Object)
    requires SelfKeyed(edited) && Key(item) in edited && edited[Key(item)] == item
    ensures forall a :: a in ApplyEdits(live, edited) && Key(a) == Key(item) ==> a == item
  {
    var r := ApplyEdits(live, edited);
    forall a | a in r && Key(a) == Key(item) ensures a == item {
      var i :| 0 <= i < |r| && r[i] == a;
      assert a == Edited(live[i], edited);
    }
  }

  /** Substituting edits shows the edit exactly when some article carries
      its key. */
  lemma ApplyEditsListsEdit(live: seq<Object>, edited: Overlay, item: Object)
    requires SelfKeyed(edited) && Key(item) in edited && edited[Key(item)] == item
    ensures item in ApplyEdits(live, edited) <==> exists d :: d in live && Key(d) == Key(item)
  {
    var r := ApplyEdits(live, edited);
    if exists d :: d in live && Key(d) == Key(item) {
      var d :| d in live && Key(d) == Key(item);
      var i :| 0 <= i < |live| && live[i] == d;
      assert r[i] == item;
    }
    if item in r {
      var i :| 0 <= i < |r| && r[i] == item;
      assert live[i] in live;
      assert Key(live[i]) == Key(item);
    }
  }

  /** The overlay shows an edit wherever the payload has its key. */
  lemma OverlayShowsEdit(docs: seq<Object>, edited: Overlay, deleted: Overlay, item: Object)
    requires SelfKeyed(edited) && Key(item) in edited && edited[Key(item)] == item
    requires Key(item) !in deleted
    ensures var r := EffectiveList(docs, edited, deleted);
      && (forall a :: a in r && Key(a) == Key(item) ==> a == item)
      && (item in r <==> exists d :: d in docs && Key(d) == Key(item))
  {
    var live := KeepLive(docs, deleted);
    KeepLiveMembers(docs, deleted);
    ApplyEditsOnlyEdit(live, edited, item);
    ApplyEditsListsEdit(live, edited, item);
    assert (exists d :: d in live && Key(d) == Key(item)) <==> (exists d :: d in docs && Key(d) == Key(item));
  }

  /** An edit survives a refetch: every article the fetch returns under the
      edited key shows the edited version, and the edited version is shown
      exactly when the fetch returned that key. */
  lemma EditThenFetchShowsEdit(s: SliceState, item: Object, docs: seq<Object>)
    requires SelfKeyed(s.editedNews) && Key(item) !in s.deletedNews
    ensures var t := AfterFetchFulfilled(AfterEditNews(s, item), docs);
      && (forall a :: a in t.news && Key(a) == Key(item) ==> a == item)
      && (item in t.news <==> exists d :: d in docs && Key(d) == Key(item))
  {
    var u := AfterEditNews(s, item);
    assert SelfKeyed(u.editedNews);
    OverlayShowsEdit(docs, u.editedNews, u.deletedNews, item);
  }

  /** Two payloads A = [{_id: "a"}, {_id: "b"}] with "a" deleted: the list is
      [b] and b is selected with index 0. */
  lemma FetchDropsDeleted(s: SliceState, a: Object, b: Object)
    requires a == map["_id" := Str("a")] && b == map["_id" := Str("b")]
    requires s.deletedNews.Keys == {"a"} && s.editedNews == map[]
    ensures AfterFetchFulfilled(s, [a, b]).news == [b]
    ensures AfterFetchFulfilled(s, [a, b]).selectedNews == b["index" := Num(0)]
  {
    EffectiveListCons(a, [b], s.editedNews, s.deletedNews);
    EffectiveListCons(b, [], s.editedNews, s.deletedNews);
    assert [a, b] == [a] + [b];
    assert [b] == [b] + [];
  }

  /** Nothing tells a stale completion from a current one: whichever
      completes last decides the list. */
  lemma LastCompletionWins(s: SliceState, earlier: seq<Object>, later: seq<Object>)
    ensures AfterFetchFulfilled(AfterFetchFulfilled(s, earlier), later) == AfterFetchFulfilled(s, later)
  {
  }

  /** A rejected fetch keeps the last good list and selection, and reports
      the server's message or the generic one. */
  lemma RejectedKeepsList(s: SliceState, err: Value)
    ensures var t := AfterFetchRejected(s, HandleApiError(err));
      && t.news == s.news && t.selectedNews == s.selectedNews
      && t.fetchError.Some? && !t.fetchLoading
      && (Truthy(ServerMessage(err)) ==> Some(t.fetchError.value.message) == ServerMessage(err))
      && (!Truthy(ServerMessage(err)) ==> t.fetchError.value.message == Str(DefaultMessage))
  {
  }

  // ---------------------------------------------------------------------
  // Storage mirrors the overlay maps across any run of actions

  lemma {:induction false} RunKeepsPersisted(s: SliceState, actions: seq<Action>)
    requires Persisted(s)
    ensures Persisted(Run(s, actions))
    decreases |actions|
  {
    if actions != [] {
      RunKeepsPersisted(Reduce(s, actions[0]), actions[1..]);
    }
  }

  lemma {:induction false} RunKeepsWellKeyed(s: SliceState, actions: seq<Action>)
    requires WellKeyed(s)
    ensures WellKeyed(Run(s, actions))
    decreases |actions|
  {
    if actions != [] {
      RunKeepsWellKeyed(Reduce(s, actions[0]), actions[1..]);
    }
  }

  /** Reloading the page after any run of actions rebuilds the same
      overlay maps from storage. */
  lemma ReloadRestoresOverlays(storage: Storage, actions: seq<Action>)
    ensures var t := Run(InitialState(storage), actions);
      var r := InitialState(t.storage);
      r.bookmarks == t.bookmarks && r.editedNews == t.editedNews && r.deletedNews == t.deletedNews
  {
    RunKeepsPersisted(InitialState(storage), actions);
  }
}
