/**
 * The article list view: which list a route shows, its title, the empty
 * state, and which row is highlighted as selected.
 */
module NewsList {
  import opened JsValue
  import opened NewsSlice

  const DeletedPath: string := "/deleted"
  const BookmarksPath: string := "/bookmarks"
  const EditedPath: string := "/edited"

  /** `order` lists every key of `m` exactly once: the order in which the
      engine enumerates the map's own properties. */
  ghost predicate Enumerates(order: seq<string>, m: Overlay)
  {
    && (forall i, j :: 0 <= i < j < |order| ==> order[i] != order[j])
    && (forall k :: k in m <==> k in order)
  }

  /** Row `i` shows the value stored under the `i`-th key of `order`. */
  ghost predicate ListsValues(r: seq<Object>, m: Overlay, order: seq<string>)
  {
    |r| == |order| && forall i :: 0 <= i < |r| ==> order[i] in m && r[i] == m[order[i]]
  }

  /** `Object.values(m)`, where `order` is the enumeration order of `m`'s
      keys. Only values of `m` are listed, and when `order` enumerates `m`
      each of them once, in that order. */
  function ObjectValues(m: Overlay, order: seq<string>): (r: seq<Object>)
    ensures forall a :: a in r ==> a in m.Values
    ensures (forall k :: k in order ==> k in m) ==> ListsValues(r, m, order)
    decreases |order|
  {
    if order == [] then []
    else (if order[0] in m then [m[order[0]]] else []) + ObjectValues(m, order[1..])
  }

  /** `currentData`: the deleted, bookmarked or edited articles on their
      routes, the latest list on every other route. */
  function CurrentData(path: string, s: SliceState, order: seq<string>): (r: seq<Object>)
    ensures path == DeletedPath && Enumerates(order, s.deletedNews) ==> ListsValues(r, s.deletedNews, order)
    ensures path == BookmarksPath && Enumerates(order, s.bookmarks) ==> ListsValues(r, s.bookmarks, order)
    ensures path == EditedPath && Enumerates(order, s.editedNews) ==> ListsValues(r, s.editedNews, order)
    ensures path !in {DeletedPath, BookmarksPath, EditedPath} ==> r == s.news
  {
    match path
    case "/deleted" => ObjectValues(s.deletedNews, order)
    case "/bookmarks" => ObjectValues(s.bookmarks, order)
    case "/edited" => ObjectValues(s.editedNews, order)
    case _ => s.news
  }

  /** `pageTitle`: one title per special route, "Latest News" otherwise. */
  function PageTitle(path: string): (r: string)
    ensures r == "Latest News" <==> path !in {DeletedPath, BookmarksPath, EditedPath}
    ensures path == DeletedPath <==> r == "Deleted News"
    ensures path == EditedPath <==> r == "Edited News"
    ensures path == BookmarksPath <==> r == "Bookmarked News"
  {
    match path
    case "/deleted" => "Deleted News"
    case "/edited" => "Edited News"
    case "/bookmarks" => "Bookmarked News"
    case _ => "Latest News"
  }

  /** The text of the empty state. */
  function EmptyMessage(path: string): string
  {
    if path == BookmarksPath then "No bookmarked news available. Add some news to your bookmarks!"
    else if path == DeletedPath then "No deleted news available."
    else "No news available at the moment."
  }

  /** `selectedNews?.index === index` */
  predicate IsSelected(selected: Object, index: int)
  {
    Get(selected, "index") == Some(Num(index))
  }

  /** `handleSelect(item, index)` dispatches `addToSelectedNews` with this. */
  function SelectPayload(item: Object, index: nat): (r: Object)
    ensures IsSelected(r, index)
    ensures forall k :: k != "index" ==> Get(r, k) == Get(item, k)
  {
    WithIndex(item, index)
  }

  datatype Row = Row(item: Object, index: nat, selected: bool)

  datatype Page =
    | EmptyPage(title: string, message: string)
    | ListPage(title: string, rows: seq<Row>)

  /** What `News` renders: the empty state instead of rows when there is
      nothing to show; otherwise one row per article, in order, highlighted
      when the selection's index is its position, so at most one is. */
  function Render(path: string, s: SliceState, order: seq<string>): (r: Page)
    ensures r.title == PageTitle(path)
    ensures r.EmptyPage? <==> CurrentData(path, s, order) == []
    ensures r.EmptyPage? ==> r.message == EmptyMessage(path)
    ensures r.ListPage? ==>
      && |r.rows| == |CurrentData(path, s, order)|
      && (forall i :: 0 <= i < |r.rows| ==> r.rows[i].item == CurrentData(path, s, order)[i] && r.rows[i].index == i)
      && (forall i :: 0 <= i < |r.rows| ==> (r.rows[i].selected <==> IsSelected(s.selectedNews, i)))
      && (forall i, j :: 0 <= i < |r.rows| && 0 <= j < |r.rows| && r.rows[i].selected && r.rows[j].selected ==> i == j)
  {
    var data := CurrentData(path, s, order);
    if data == [] then EmptyPage(PageTitle(path), EmptyMessage(path))
    else ListPage(PageTitle(path), seq(|data|, i requires 0 <= i < |data| => Row(data[i], i, IsSelected(s.selectedNews, i))))
  }

  /** Clicking row `i` highlights that row and no other. */
  lemma SelectHighlightsRow(path: string, s: SliceState, order: seq<string>, item: Object, i: nat)
    ensures var p := Render(path, AfterAddToSelectedNews(s, SelectPayload(item, i)), order);
      p.ListPage? ==> forall j :: 0 <= j < |p.rows| ==> (p.rows[j].selected <==> j == i)
  {
  }

  /** After a successful fetch the latest list shows the effective list,
      with its first row highlighted, or the empty state when nothing
      survived. */
  lemma FetchHighlightsFirstRow(path: string, s: SliceState, docs: seq<Object>, order: seq<string>)
    requires path !in {DeletedPath, BookmarksPath, EditedPath}
    ensures var t := AfterFetchFulfilled(s, docs);
      var p := Render(path, t, order);
      && (p.EmptyPage? <==> EffectiveList(docs, s.editedNews, s.deletedNews) == [])
      && (p.ListPage? ==> forall j :: 0 <= j < |p.rows| ==> (p.rows[j].selected <==> j == 0))
  {
  }
}
