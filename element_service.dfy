/** frontend/src/services/CanvasElementService.js: z-ordering over the
    elements of one canvas store. */
module ElementService {
  import opened Common
  import opened CanvasState

  /** The sort key of getSortedElements, `z_index || 0`: a missing, null or
      zero z_index sorts as 0. */
  function Key(o: JsObject): int
  {
    if ZOf(o).Some? then ZOf(o).value else 0
  }

  predicate SortedByZ(s: seq<JsObject>)
  {
    forall i, j :: 0 <= i < j < |s| ==> Key(s[i]) <= Key(s[j])
  }

  /** Putting an element no heavier than the head in front keeps a sorted
      list sorted. */
  lemma SortedCons(x: JsObject, t: seq<JsObject>)
    requires SortedByZ(t)
    requires t != [] ==> Key(x) <= Key(t[0])
    ensures SortedByZ([x] + t)
  {
    forall i, j | 0 <= i < j < |[x] + t| ensures Key(([x] + t)[i]) <= Key(([x] + t)[j]) {
      if i > 0 {
        assert ([x] + t)[i] == t[i - 1] && ([x] + t)[j] == t[j - 1];
      } else {
        assert ([x] + t)[j] == t[j - 1];
      }
    }
  }

  /** Insert o before the first element whose key is not below its own. */
  function InsertByZ(o: JsObject, s: seq<JsObject>): (r: seq<JsObject>)
    requires SortedByZ(s)
    ensures SortedByZ(r)
    ensures |r| == |s| + 1 && (r[0] == o || (s != [] && r[0] == s[0]))
  {
    if s == [] || Key(o) <= Key(s[0]) then
      SortedCons(o, s);
      [o] + s
    else
      var rest := InsertByZ(o, s[1..]);
      SortedCons(s[0], rest);
      assert s == [s[0]] + s[1..];
      [s[0]] + rest
  }

  /** Insertion adds exactly the inserted element. */
  lemma {:induction false} InsertByZPerm(o: JsObject, s: seq<JsObject>)
    requires SortedByZ(s)
    ensures multiset(InsertByZ(o, s)) == multiset(s) + multiset{o}
  {
    if s != [] && Key(o) > Key(s[0]) {
      var rest := InsertByZ(o, s[1..]);
      InsertByZPerm(o, s[1..]);
      assert InsertByZ(o, s) == [s[0]] + rest;
      assert multiset([s[0]] + rest) == multiset{s[0]} + multiset(rest);
      assert s == [s[0]] + s[1..];
      assert multiset(s) == multiset{s[0]} + multiset(s[1..]);
    } else {
      assert InsertByZ(o, s) == [o] + s;
    }
  }

  /** A stable insertion sort by Key. */
  function SortByZ(s: seq<JsObject>): (r: seq<JsObject>)
    ensures SortedByZ(r)
    ensures multiset(r) == multiset(s)
    ensures |r| == |s|
  {
    if s == [] then []
    else
      assert s == [s[0]] + s[1..];
      InsertByZPerm(s[0], SortByZ(s[1..]));
      InsertByZ(s[0], SortByZ(s[1..]))
  }

  class CanvasElementService {
    const store: CanvasStore

    constructor (canvasStore: CanvasStore)
      ensures store == canvasStore
    {
      store := canvasStore;
    }

    /** getMaxZIndex: one loop over the cards followed by the notes. */
    method GetMaxZIndex() returns (maxZ: int)
      ensures maxZ == MaxZ(store.cards + store.notes)
    {
      var items := store.cards + store.notes;
      maxZ := 0;
      for i := 0 to |items|
        invariant maxZ == MaxZ(items[..i])
      {
        MaxZExtend(items[..i], items[i]);
        assert items[..i + 1] == items[..i] + [items[i]];
        if ZOf(items[i]).Some? && ZOf(items[i]).value > maxZ {
          maxZ := ZOf(items[i]).value;
        }
      }
      assert items[..|items|] == items;
    }

    /** bringToFront: the new z-index is the maximum plus one; it is written
        onto the first card with the id when the type is exactly "card", and
        onto the first note with the id for any other type. */
    method BringToFront(elementId: string, elementType: string) returns (newZ: int)
      modifies store
      ensures newZ == MaxZ(old(store.cards + store.notes)) + 1
      ensures elementType == "card" ==> store.cards == Raised(old(store.cards), elementId, newZ) && store.notes == old(store.notes)
      ensures elementType != "card" ==> store.notes == Raised(old(store.notes), elementId, newZ) && store.cards == old(store.cards)
      ensures store.taskLinks == old(store.taskLinks) && store.noteLinks == old(store.noteLinks)
      ensures store.selectedElement == old(store.selectedElement)
      ensures store.scale == old(store.scale) && store.x == old(store.x) && store.y == old(store.y)
    {
      var maxZ := GetMaxZIndex();
      newZ := maxZ + 1;
      if elementType == "card" {
        var i := FindIndex(store.cards, elementId);
        if i != -1 {
          store.cards := store.cards[i := store.cards[i]["z_index" := JNum(newZ)]];
        }
      } else {
        var i := FindIndex(store.notes, elementId);
        if i != -1 {
          store.notes := store.notes[i := store.notes[i]["z_index" := JNum(newZ)]];
        }
      }
    }

    /** getSortedElements: the cards followed by the notes, sorted by key
        into a new list. */
    function GetSortedElements(): (r: seq<JsObject>)
      reads store
      ensures multiset(r) == multiset(store.cards + store.notes)
      ensures SortedByZ(r)
    {
      SortByZ(store.cards + store.notes)
    }
  }

  /** The value bringToFront returns is above every numeric z_index before
      the call. */
  lemma BringToFrontAbove(cards: seq<JsObject>, notes: seq<JsObject>)
    ensures forall o :: o in cards + notes && ZOf(o).Some? ==> ZOf(o).value < MaxZ(cards + notes) + 1
    ensures MaxZ(cards + notes) + 1 >= 1
  {
    MaxZBounds(cards + notes);
  }

  /** Updating a position of a concatenation updates the piece it lies in. */
  lemma UpdateConcat(a: seq<JsObject>, b: seq<JsObject>, i: nat, v: JsObject)
    requires i < |a| + |b|
    ensures i < |a| ==> a[i := v] + b == (a + b)[i := v]
    ensures |a| <= i ==> a + b[i - |a| := v] == (a + b)[i := v]
  {
  }

  /** Raising the first card with the id to the maximum plus one makes it the
      maximum over cards and notes. */
  lemma RaiseCardTop(cards: seq<JsObject>, notes: seq<JsObject>, id: string)
    requires FindIndex(cards, id) >= 0
    ensures MaxZ(Raised(cards, id, MaxZ(cards + notes) + 1) + notes) == MaxZ(cards + notes) + 1
  {
    var z, i := MaxZ(cards + notes) + 1, FindIndex(cards, id);
    UpdateConcat(cards, notes, i, cards[i]["z_index" := JNum(z)]);
    assert (cards + notes)[i] == cards[i];
    MaxZRaise(cards + notes, i, z);
  }

  /** The same for the first note with the id. */
  lemma RaiseNoteTop(cards: seq<JsObject>, notes: seq<JsObject>, id: string)
    requires FindIndex(notes, id) >= 0
    ensures MaxZ(cards + Raised(notes, id, MaxZ(cards + notes) + 1)) == MaxZ(cards + notes) + 1
  {
    var z, j := MaxZ(cards + notes) + 1, FindIndex(notes, id);
    UpdateConcat(cards, notes, |cards| + j, notes[j]["z_index" := JNum(z)]);
    assert (cards + notes)[|cards| + j] == notes[j];
    MaxZRaise(cards + notes, |cards| + j, z);
  }

  /** After bringToFront has found its element, the maximum is the value it
      returned; when it found nothing the lists are unchanged. */
  lemma BringToFrontTop(cards: seq<JsObject>, notes: seq<JsObject>, id: string, elementType: string)
    ensures var z := MaxZ(cards + notes) + 1;
      var cards' := if elementType == "card" then Raised(cards, id, z) else cards;
      var notes' := if elementType == "card" then notes else Raised(notes, id, z);
      var found := if elementType == "card" then FindIndex(cards, id) >= 0 else FindIndex(notes, id) >= 0;
      && (found ==> MaxZ(cards' + notes') == z)
      && (!found ==> cards' == cards && notes' == notes)
  {
    if elementType == "card" && FindIndex(cards, id) >= 0 {
      RaiseCardTop(cards, notes, id);
    } else if elementType != "card" && FindIndex(notes, id) >= 0 {
      RaiseNoteTop(cards, notes, id);
    }
  }

  /** bringToFront changes at most one element, and only its z_index. */
  lemma RaisedFrame(s: seq<JsObject>, id: string, z: int)
    ensures |Raised(s, id, z)| == |s|
    ensures forall j :: 0 <= j < |s| && j != FindIndex(s, id) ==> Raised(s, id, z)[j] == s[j]
    ensures FindIndex(s, id) >= 0 ==>
      var i := FindIndex(s, id);
      && Raised(s, id, z)[i].Keys == s[i].Keys + {"z_index"}
      && ZOf(Raised(s, id, z)[i]) == Some(z)
      && forall key :: key in s[i] && key != "z_index" ==> Raised(s, id, z)[i][key] == s[i][key]
  {
  }
}
