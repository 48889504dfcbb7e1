/**
 * The article detail view: the copy-on-write update of the edit buffer
 * along a dotted field path, the attachment projection of the selected
 * article, the bookmark test, and the view's own state (edit buffer and
 * edit mode) with the actions it dispatches to the store.
 */
module NewsContent {
  import opened JsValue
  import opened NewsSlice

  // ---------------------------------------------------------------------
  // Dotted field paths

  /** `s.split(sep)` for a one-character separator: never empty, and no
      piece contains the separator. */
  function Split(s: string, sep: char): (r: seq<string>)
    ensures |r| >= 1
    ensures forall i :: 0 <= i < |r| ==> sep !in r[i]
    decreases |s|
  {
    if s == [] then [""]
    else
      var rest := Split(s[1..], sep);
      if s[0] == sep then [""] + rest else [[s[0]] + rest[0]] + rest[1..]
  }

  /** `parts.join(sep)` */
  function Join(parts: seq<string>, sep: char): string
    requires |parts| >= 1
    decreases |parts|
  {
    if |parts| == 1 then parts[0] else parts[0] + [sep] + Join(parts[1..], sep)
  }

  /** Joining the pieces gives the path back. */
  lemma {:induction false} JoinSplit(s: string, sep: char)
    ensures Join(Split(s, sep), sep) == s
    decreases |s|
  {
    if s != [] {
      JoinSplit(s[1..], sep);
      var rest := Split(s[1..], sep);
      if s[0] == sep {
        assert Split(s, sep) == [""] + rest;
        assert ([""] + rest)[1..] == rest;
      } else {
        var r := Split(s, sep);
        assert r == [[s[0]] + rest[0]] + rest[1..];
        if |rest| == 1 {
          assert Join(r, sep) == [s[0]] + rest[0];
        } else {
          assert r[1..] == rest[1..];
          assert Join(rest, sep) == rest[0] + [sep] + Join(rest[1..], sep);
        }
      }
    }
  }

  lemma {:induction false} SplitAfterPiece(w: string, t: string, sep: char)
    requires sep !in w
    ensures Split(w + t, sep) == [w + Split(t, sep)[0]] + Split(t, sep)[1..]
    decreases |w|
  {
    if w != [] {
      assert (w + t)[1..] == w[1..] + t;
      SplitAfterPiece(w[1..], t, sep);
      assert [w[0]] + (w[1..] + Split(t, sep)[0]) == w + Split(t, sep)[0];
    } else {
      var r := Split(t, sep);
      assert w + t == t;
      assert w + r[0] == r[0];
      assert r == [r[0]] + r[1..];
    }
  }

  /** Splitting joined pieces gives the pieces back, when none contains the
      separator. */
  lemma {:induction false} SplitJoin(parts: seq<string>, sep: char)
    requires |parts| >= 1
    requires forall i :: 0 <= i < |parts| ==> sep !in parts[i]
    ensures Split(Join(parts, sep), sep) == parts
    decreases |parts|
  {
    if |parts| == 1 {
      SplitAfterPiece(parts[0], [], sep);
      assert parts[0] + [] == parts[0];
    } else {
      var tail := Join(parts[1..], sep);
      SplitJoin(parts[1..], sep);
      assert parts[0] + [sep] + tail == parts[0] + ([sep] + tail);
      SplitAfterPiece(parts[0], [sep] + tail, sep);
      assert ([sep] + tail)[1..] == tail;
      assert Split([sep] + tail, sep) == [""] + parts[1..];
      assert parts[0] + "" == parts[0];
    }
  }

  /** The object that `handleFieldChange` builds: `o` with `v` at the end of
      `path`, every object on the path a fresh copy, and an intermediate
      that is not an object replaced by an empty record. */
  function SetPath(o: Object, path: seq<string>, v: Value): Object
    requires |path| >= 1
    decreases |path|
  {
    if |path| == 1 then o[path[0] := v]
    else o[path[0] := Obj(SetPath(Spread(Get(o, path[0])), path[1..], v))]
  }

  /** `handleFieldChange(field, value)` applied to `prevData`: walks down the
      path copying each level, then stores the value at the last segment.
      JavaScript links each copy into its parent through the mutable
      `currentLevel` cursor; here the copies are values, so they are linked
      on the way back up. */
  method HandleFieldChange(prevData: Object, field: string, value: Value) returns (newData: Object)
    ensures newData == SetPath(prevData, Split(field, '.'), value)
  {
    var fields := Split(field, '.');
    var n := |fields|;
    // levels[i] is the copy made at depth i.
    var levels: seq<Object> := [prevData];
    var i := 0;
    while i < n - 1
      invariant 0 <= i <= n - 1
      invariant |levels| == i + 1
      invariant levels[0] == prevData
      invariant forall j :: 0 <= j < i ==> levels[j + 1] == Spread(Get(levels[j], fields[j]))
    {
      levels := levels + [Spread(Get(levels[i], fields[i]))];
      i := i + 1;
    }
    newData := levels[n - 1][fields[n - 1] := value];
    var j := n - 1;
    while j > 0
      invariant 0 <= j <= n - 1
      invariant newData == SetPath(levels[j], fields[j..], value)
    {
      j := j - 1;
      assert fields[j..][1..] == fields[j + 1..];
      newData := levels[j][fields[j] := Obj(newData)];
    }
  }

  lemma {:induction false} PropPathOfNone(path: seq<string>)
    ensures PropPath(None, path) == None
    decreases |path|
  {
    if path != [] {
      PropPathOfNone(path[1..]);
    }
  }

  /** Reading through a spread copy reads the original. */
  lemma SpreadReadsAlike(x: Option<Value>, q: seq<string>)
    requires q != []
    ensures PropPath(Some(Obj(Spread(x))), q) == PropPath(x, q)
  {
    if !(x.Some? && x.value.Obj?) {
      PropPathOfNone(q[1..]);
    }
  }

  /** After the update, the path reads the new value. */
  lemma {:induction false} SetPathReadsBack(o: Object, path: seq<string>, v: Value)
    requires |path| >= 1
    ensures PropPath(Some(Obj(SetPath(o, path, v))), path) == Some(v)
    decreases |path|
  {
    if |path| > 1 {
      SetPathReadsBack(Spread(Get(o, path[0])), path[1..], v);
    } else {
      assert path[1..] == [];
    }
  }

  /** After the update, every sibling of every step of the path reads as
      before: `SetPath` changes nothing off the path, at any depth. */
  lemma {:induction false} SetPathKeepsSiblings(o: Object, path: seq<string>, v: Value, d: nat, k: string)
    requires |path| >= 1 && d < |path| && k != path[d]
    ensures PropPath(Some(Obj(SetPath(o, path, v))), path[..d] + [k])
         == PropPath(Some(Obj(o)), path[..d] + [k])
    decreases |path|
  {
    var r := SetPath(o, path, v);
    if d == 0 {
      assert path[..0] + [k] == [k];
      assert [k][1..] == [];
    } else {
      var q := path[..d] + [k];
      assert q[0] == path[0] && q[1..] == path[1..][..d - 1] + [k];
      var inner := Spread(Get(o, path[0]));
      SetPathKeepsSiblings(inner, path[1..], v, d - 1, k);
      SpreadReadsAlike(Get(o, path[0]), q[1..]);
    }
  }

  /** A one-segment path sets that field and keeps every other one. */
  lemma SetTopLevelField(o: Object, f: string, v: Value)
    requires '.' !in f
    ensures var r := SetPath(o, Split(f, '.'), v);
      Get(r, f) == Some(v) && (forall k :: k != f ==> Get(r, k) == Get(o, k))
  {
    SplitJoin([f], '.');
  }

  /** The headline field's path `headline.main` has two segments. */
  lemma HeadlineMainPath()
    ensures Split("headline.main", '.') == ["headline", "main"]
  {
    var parts := ["headline", "main"];
    assert forall i :: 0 <= i < |parts| ==> '.' !in parts[i];
    SplitJoin(parts, '.');
    assert parts[1..] == ["main"];
    assert Join(parts, '.') == "headline.main";
  }

  /** Setting `headline.main` (the path `HeadlineMainPath` splits into)
      sets the nested leaf, keeps the other fields of the headline and every
      other top-level field; a missing or non-object headline becomes a
      record holding only `main`. */
  lemma SetHeadlineMain(o: Object, v: Value)
    ensures var r := SetPath(o, ["headline", "main"], v);
      && "headline" in r
      && r["headline"] == Obj(Spread(Get(o, "headline"))["main" := v])
      && (forall k :: k != "headline" ==> Get(r, k) == Get(o, k))
      && (Get(o, "headline") == None ==> r["headline"] == Obj(map["main" := v]))
  {
    var path := ["headline", "main"];
    assert path[1..] == ["main"];
  }

  // ---------------------------------------------------------------------
  // Attachments

  const ImageBase: string := "https://www.nytimes.com/"
  const DefaultAlt: string := "News image"
  const MaxImages: nat := 3

  datatype Image = Image(url: string, alt: Value)

  /** What the attachment strip gets: nothing when `multimedia` is absent or
      `null`; the images of its first three entries when it is an array
      whose first three entries are not `null`; otherwise rendering throws
      (`slice` or `map` is not a function, or `media.url` reads `null`). */
  datatype Attachments = NoAttachments | Images(images: seq<Image>) | RenderError

  function ImageOf(media: Value): Image
  {
    var caption := Prop(Some(media), "caption");
    Image(ImageBase + ToJsString(Prop(Some(media), "url")),
          if Truthy(caption) then caption.value else Str(DefaultAlt))
  }

  function Min(a: nat, b: nat): nat
  {
    if a < b then a else b
  }

  /** `selectedNews?.multimedia` */
  function Multimedia(selected: Object): Option<Value>
  {
    Get(selected, "multimedia")
  }

  /** `selectedNews?.multimedia?.slice(0, 3).map(...)` */
  function DisplayImages(selected: Object): (r: Attachments)
    ensures Multimedia(selected) in {None, Some(Null)} <==> r == NoAttachments
    ensures r.Images? ==>
      && Multimedia(selected).Some? && Multimedia(selected).value.List?
      && var media := Multimedia(selected).value.items;
      && |r.images| == Min(MaxImages, |media|)
      && forall i :: 0 <= i < |r.images| ==>
           && r.images[i].url == ImageBase + ToJsString(Prop(Some(media[i]), "url"))
           && (Truthy(Prop(Some(media[i]), "caption")) ==> Some(r.images[i].alt) == Prop(Some(media[i]), "caption"))
           && (!Truthy(Prop(Some(media[i]), "caption")) ==> r.images[i].alt == Str(DefaultAlt))
    ensures r.Images? <==>
      match Multimedia(selected)
      case Some(List(media)) => forall i :: 0 <= i < Min(MaxImages, |media|) ==> media[i] != Null
      case _ => false
  {
    match Multimedia(selected)
    case None => NoAttachments
    case Some(Null) => NoAttachments
    case Some(List(media)) =>
      var first := media[..Min(MaxImages, |media|)];
      if Null in first then RenderError
      else Images(seq(|first|, i requires 0 <= i < |first| => ImageOf(first[i])))
    case Some(_) => RenderError
  }

  // ---------------------------------------------------------------------
  // Bookmark button

  /** `bookmarks?.[selectedNews?._id]`, as a truth value: overlay entries
      are objects, so the lookup is truthy exactly when the key is there. */
  function IsBookmarked(bookmarks: Overlay, selected: Object): (r: bool)
    ensures r <==> Get(bookmarks, Key(selected)).Some?
  {
    Key(selected) in bookmarks
  }

  /** The reducer the bookmark button dispatches for the selected article:
      remove when bookmarked, add otherwise. */
  function ToggleBookmark(s: SliceState): SliceState
  {
    if IsBookmarked(s.bookmarks, s.selectedNews) then AfterDeleteBookmark(s, s.selectedNews)
    else AfterAddBookmark(s, s.selectedNews)
  }

  /** The button flips whether the selected article is bookmarked, and
      changes nothing else but the bookmarks' entry for it in memory and in
      storage. */
  lemma ToggleFlips(s: SliceState)
    ensures var t := ToggleBookmark(s);
      && IsBookmarked(t.bookmarks, t.selectedNews) == !IsBookmarked(s.bookmarks, s.selectedNews)
      && OnlyKeyChanged(s.bookmarks, t.bookmarks, Key(s.selectedNews))
      && t.news == s.news && t.selectedNews == s.selectedNews
  {
  }

  /** Pressing the button twice on an article that was not bookmarked
      restores the bookmarks. */
  lemma ToggleTwiceRestores(s: SliceState)
    requires !IsBookmarked(s.bookmarks, s.selectedNews)
    ensures ToggleBookmark(ToggleBookmark(s)).bookmarks == s.bookmarks
  {
    var k := Key(s.selectedNews);
    assert s.bookmarks[k := s.selectedNews] - {k} == s.bookmarks;
  }

  // ---------------------------------------------------------------------
  // The detail view's state

  class DetailView {
    const store: NewsStore
    var editableData: Object
    var isEditMode: bool

    /** `useState(selectedNews || {})`, `useState(false)` */
    constructor (store: NewsStore)
      ensures this.store == store
      ensures editableData == store.selectedNews && !isEditMode
    {
      this.store := store;
      editableData := store.selectedNews;
      isEditMode := false;
    }

    /** `handleEditStart`: enter edit mode with the buffer set to the selection. */
    method EditStart()
      modifies this
      ensures isEditMode && editableData == store.selectedNews
    {
      isEditMode := true;
      editableData := store.selectedNews;
    }

    /** An edit field's `onChange`. */
    method FieldChange(field: string, value: Value)
      modifies this`editableData
      ensures editableData == SetPath(old(editableData), Split(field, '.'), value)
    {
      editableData := HandleFieldChange(editableData, field, value);
    }

    /** `handleEditNews`: dispatch `editNews` with the buffer, then leave edit
        mode. */
    method SaveEdit()
      modifies this`isEditMode, store
      ensures store.State() == AfterEditNews(old(store.State()), editableData)
      ensures !isEditMode && editableData == old(editableData)
    {
      store.EditNews(editableData);
      isEditMode := false;
    }

    /** The Cancel button. */
    method CancelEdit()
      modifies this`isEditMode
      ensures !isEditMode
    {
      isEditMode := false;
    }

    /** The bookmark button: `handleAddOrDeleteBookmark`. */
    method BookmarkAction()
      modifies store
      ensures store.State() == ToggleBookmark(old(store.State()))
    {
      if IsBookmarked(store.bookmarks, store.selectedNews) {
        store.DeleteBookmark(store.selectedNews);
      } else {
        store.AddBookmark(store.selectedNews);
      }
    }

    /** `handleDeleteNews`: dispatch `deleteNews` with the selection. */
    method DeleteSelected()
      modifies store
      ensures store.State() == AfterDeleteNews(old(store.State()), old(store.selectedNews))
    {
      store.DeleteNews(store.selectedNews);
    }
  }
}
