/** The canvas store of frontend/src/stores/canvas.js: the element lists the
    client keeps, and what each action does to them once the server has
    answered. A server answer is a parameter; None stands for a request
    whose promise rejects, after which the action rethrows and leaves the
    lists as they were. */
module CanvasState {
  import opened Common

  /** A plain JavaScript object as the store keeps it. */
  type JsObject = map<string, Json>

  /** An element's z_index when it is a number; absent, null and other
      values are not numbers and take no part in a maximum. */
  function ZOf(o: JsObject): Option<int>
  {
    if "z_index" in o && o["z_index"].JNum? then Some(o["z_index"].n) else None
  }

  /** One step of the getMaxZIndex loops: a numeric z_index above the
      running maximum replaces it. */
  function Bump(m: int, o: JsObject): int
  {
    if ZOf(o).Some? && ZOf(o).value > m then ZOf(o).value else m
  }

  /** The running maximum of the getMaxZIndex loops: it starts at 0 and is
      raised by every numeric z_index above it, left to right. */
  function MaxZ(s: seq<JsObject>): int
  {
    if s == [] then 0 else Bump(MaxZ(s[..|s| - 1]), s[|s| - 1])
  }

  /** What getMaxZIndex promises: a value of at least 0 and at least every
      numeric z_index, which is 0 or some element's z_index. */
  lemma {:induction false} MaxZBounds(s: seq<JsObject>)
    ensures MaxZ(s) >= 0
    ensures forall o :: o in s && ZOf(o).Some? ==> ZOf(o).value <= MaxZ(s)
    ensures MaxZ(s) == 0 || exists o :: o in s && ZOf(o) == Some(MaxZ(s))
    decreases |s|
  {
    if s != [] {
      var init := s[..|s| - 1];
      MaxZBounds(init);
      assert forall o :: o in s <==> o in init || o == s[|s| - 1];
    }
  }

  /** One step of the loop: the maximum over one more element. */
  lemma MaxZExtend(s: seq<JsObject>, o: JsObject)
    ensures MaxZ(s + [o]) == Bump(MaxZ(s), o)
  {
    assert (s + [o])[..|s|] == s;
  }

  /** Raising one element's z_index to at least the maximum makes it the
      maximum. */
  lemma {:induction false} MaxZRaise(s: seq<JsObject>, i: nat, z: int)
    requires i < |s| && z >= MaxZ(s)
    ensures MaxZ(s[i := s[i]["z_index" := JNum(z)]]) == z
    decreases |s|
  {
    var t := s[i := s[i]["z_index" := JNum(z)]];
    var n := |s| - 1;
    assert t[..n] == if i < n then s[..n][i := s[i]["z_index" := JNum(z)]] else s[..n];
    if i < n {
      assert MaxZ(s[..n]) <= MaxZ(s);
      MaxZRaise(s[..n], i, z);
      MaxZBounds(s);
      assert s[n] in s;
    } else {
      assert t[..n] == s[..n];
      assert MaxZ(s[..n]) <= MaxZ(s);
    }
  }

  /** Whether the element's id is the given string (`el.id === id`). */
  predicate IdIs(o: JsObject, id: string)
  {
    "id" in o && o["id"] == JStr(id)
  }

  /** Array.prototype.findIndex on the id: the first position whose element
      has the id, or -1. */
  function FindIndex(s: seq<JsObject>, id: string): (r: int)
    ensures -1 <= r < |s|
    ensures r >= 0 ==> IdIs(s[r], id) && forall j :: 0 <= j < r ==> !IdIs(s[j], id)
    ensures r == -1 <==> forall j :: 0 <= j < |s| ==> !IdIs(s[j], id)
  {
    if s == [] then -1
    else if IdIs(s[0], id) then 0
    else
      var rest := FindIndex(s[1..], id);
      assert forall j :: 1 <= j < |s| ==> s[j] == s[1..][j - 1];
      if rest == -1 then -1 else rest + 1
  }

  /** `list.filter(el => el.id !== id)`. */
  function Without(s: seq<JsObject>, id: string): (r: seq<JsObject>)
    ensures forall o :: o in r <==> o in s && !IdIs(o, id)
    ensures |r| <= |s|
  {
    if s == [] then []
    else
      var rest := Without(s[1..], id);
      assert forall o :: o in s <==> o == s[0] || o in s[1..];
      if IdIs(s[0], id) then rest else [s[0]] + rest
  }

  /** Filtering keeps relative order: it distributes over concatenation. */
  lemma {:induction false} WithoutAppend(a: seq<JsObject>, b: seq<JsObject>, id: string)
    ensures Without(a + b, id) == Without(a, id) + Without(b, id)
  {
    if a == [] {
      assert a + b == b;
    } else {
      assert (a + b)[1..] == a[1..] + b;
      WithoutAppend(a[1..], b, id);
    }
  }

  /** The list after the first element with the id has had z_index set. */
  function Raised(s: seq<JsObject>, id: string, z: int): (r: seq<JsObject>)
  {
    var i := FindIndex(s, id);
    if i == -1 then s else s[i := s[i]["z_index" := JNum(z)]]
  }

  class CanvasStore {
    var cards: seq<JsObject>
    var notes: seq<JsObject>
    var taskLinks: seq<JsObject>
    var noteLinks: seq<JsObject>
    var selectedElement: Option<JsObject>
    var scale: real
    var x: real
    var y: real

    /** The initial state. */
    constructor ()
      ensures cards == [] && notes == [] && taskLinks == [] && noteLinks == []
      ensures selectedElement.None? && scale == 1.0 && x == 0.0 && y == 0.0
    {
      cards, notes, taskLinks, noteLinks := [], [], [], [];
      selectedElement := None;
      scale, x, y := 1.0, 0.0, 0.0;
    }

    /** getMaxZIndex: a loop over the cards, then one over the notes. */
    method GetMaxZIndex() returns (maxZ: int)
      ensures maxZ == MaxZ(cards + notes)
    {
      maxZ := 0;
      for i := 0 to |cards|
        invariant maxZ == MaxZ(cards[..i])
      {
        MaxZExtend(cards[..i], cards[i]);
        assert cards[..i + 1] == cards[..i] + [cards[i]];
        if ZOf(cards[i]).Some? && ZOf(cards[i]).value > maxZ {
          maxZ := ZOf(cards[i]).value;
        }
      }
      assert cards[..|cards|] == cards + notes[..0];
      for j := 0 to |notes|
        invariant maxZ == MaxZ(cards + notes[..j])
      {
        MaxZExtend(cards + notes[..j], notes[j]);
        assert cards + notes[..j + 1] == (cards + notes[..j]) + [notes[j]];
        if ZOf(notes[j]).Some? && ZOf(notes[j]).value > maxZ {
          maxZ := ZOf(notes[j]).value;
        }
      }
      assert notes[..|notes|] == notes;
    }

    /** The body createCard and createNote post: the caller's data, with
        z_index set to the server's max_z_index + 1 when it has none; None
        when that request fails. */
    static function Outgoing(data: JsObject, maxZReply: Option<int>): (r: Option<JsObject>)
      ensures "z_index" in data ==> r == Some(data)
      ensures "z_index" !in data ==> (r.Some? <==> maxZReply.Some?)
      ensures "z_index" !in data && r.Some? ==>
        && r.value.Keys == data.Keys + {"z_index"}
        && r.value["z_index"] == JNum(maxZReply.value + 1)
        && forall key :: key in data ==> r.value[key] == data[key]
    {
      if "z_index" in data then Some(data)
      else if maxZReply.None? then None
      else Some(data["z_index" := JNum(maxZReply.value + 1)])
    }

    /** createCard: the server's answer is appended to the cards once the
        post succeeds; nothing changes otherwise. */
    method CreateCard(cardData: JsObject, maxZReply: Option<int>, postReply: Option<JsObject>) returns (sent: Option<JsObject>, created: Option<JsObject>)
      modifies this
      ensures sent == Outgoing(cardData, maxZReply)
      ensures created.Some? <==> sent.Some? && postReply.Some?
      ensures created.Some? ==> created == postReply && cards == old(cards) + [created.value]
      ensures created.None? ==> cards == old(cards)
      ensures notes == old(notes) && taskLinks == old(taskLinks) && noteLinks == old(noteLinks)
      ensures selectedElement == old(selectedElement) && scale == old(scale) && x == old(x) && y == old(y)
    {
      sent := Outgoing(cardData, maxZReply);
      if sent.None? || postReply.None? {
        return sent, None;
      }
      cards := cards + [postReply.value];
      created := postReply;
    }

    /** updateCard: once the put succeeds, the answer's properties are
        copied onto the first card with the id (Object.assign); no card
        changes when none has it. */
    method UpdateCard(cardId: string, reply: Option<JsObject>) returns (r: Option<JsObject>)
      modifies this
      ensures r == reply
      ensures |cards| == |old(cards)|
      ensures reply.None? || FindIndex(old(cards), cardId) == -1 ==> cards == old(cards)
      ensures reply.Some? && FindIndex(old(cards), cardId) >= 0 ==>
        var i := FindIndex(old(cards), cardId);
        && cards[i] == old(cards)[i] + reply.value
        && forall j :: 0 <= j < |cards| && j != i ==> cards[j] == old(cards)[j]
      ensures notes == old(notes) && taskLinks == old(taskLinks) && noteLinks == old(noteLinks)
      ensures selectedElement == old(selectedElement) && scale == old(scale) && x == old(x) && y == old(y)
    {
      r := reply;
      if reply.None? {
        return;
      }
      var index := FindIndex(cards, cardId);
      if index != -1 {
        cards := cards[index := cards[index] + reply.value];
      }
    }

    /** deleteCard: once the delete succeeds, every card with the id is
        filtered out. */
    method DeleteCard(cardId: string, deleted: bool)
      modifies this
      ensures deleted ==> cards == Without(old(cards), cardId)
      ensures !deleted ==> cards == old(cards)
      ensures notes == old(notes) && taskLinks == old(taskLinks) && noteLinks == old(noteLinks)
      ensures selectedElement == old(selectedElement) && scale == old(scale) && x == old(x) && y == old(y)
    {
      if deleted {
        cards := Without(cards, cardId);
      }
    }

    /** createNote: as createCard, on the notes. */
    method CreateNote(noteData: JsObject, maxZReply: Option<int>, postReply: Option<JsObject>) returns (sent: Option<JsObject>, created: Option<JsObject>)
      modifies this
      ensures sent == Outgoing(noteData, maxZReply)
      ensures created.Some? <==> sent.Some? && postReply.Some?
      ensures created.Some? ==> created == postReply && notes == old(notes) + [created.value]
      ensures created.None? ==> notes == old(notes)
      ensures cards == old(cards) && taskLinks == old(taskLinks) && noteLinks == old(noteLinks)
      ensures selectedElement == old(selectedElement) && scale == old(scale) && x == old(x) && y == old(y)
    {
      sent := Outgoing(noteData, maxZReply);
      if sent.None? || postReply.None? {
        return sent, None;
      }
      notes := notes + [postReply.value];
      created := postReply;
    }

    /** updateNote: as updateCard, on the notes. */
    method UpdateNote(noteId: string, reply: Option<JsObject>) returns (r: Option<JsObject>)
      modifies this
      ensures r == reply
      ensures |notes| == |old(notes)|
      ensures reply.None? || FindIndex(old(notes), noteId) == -1 ==> notes == old(notes)
      ensures reply.Some? && FindIndex(old(notes), noteId) >= 0 ==>
        var i := FindIndex(old(notes), noteId);
        && notes[i] == old(notes)[i] + reply.value
        && forall j :: 0 <= j < |notes| && j != i ==> notes[j] == old(notes)[j]
      ensures cards == old(cards) && taskLinks == old(taskLinks) && noteLinks == old(noteLinks)
      ensures selectedElement == old(selectedElement) && scale == old(scale) && x == old(x) && y == old(y)
    {
      r := reply;
      if reply.None? {
        return;
      }
      var index := FindIndex(notes, noteId);
      if index != -1 {
        notes := notes[index := notes[index] + reply.value];
      }
    }

    /** createTaskLink: the answer is appended to the task links. */
    method CreateTaskLink(reply: Option<JsObject>) returns (r: Option<JsObject>)
      modifies this
      ensures r == reply
      ensures reply.Some? ==> taskLinks == old(taskLinks) + [reply.value]
      ensures reply.None? ==> taskLinks == old(taskLinks)
      ensures cards == old(cards) && notes == old(notes) && noteLinks == old(noteLinks)
      ensures selectedElement == old(selectedElement) && scale == old(scale) && x == old(x) && y == old(y)
    {
      r := reply;
      if reply.Some? {
        taskLinks := taskLinks + [reply.value];
      }
    }

    method SetSelectedElement(element: Option<JsObject>)
      modifies this
      ensures selectedElement == element
      ensures cards == old(cards) && notes == old(notes) && taskLinks == old(taskLinks) && noteLinks == old(noteLinks)
      ensures scale == old(scale) && x == old(x) && y == old(y)
    {
      selectedElement := element;
    }

    /** setTransform: the view's scale and offset, and nothing else. */
    method SetTransform(scale': real, x': real, y': real)
      modifies this
      ensures scale == scale' && x == x' && y == y'
      ensures cards == old(cards) && notes == old(notes) && taskLinks == old(taskLinks) && noteLinks == old(noteLinks)
      ensures selectedElement == old(selectedElement)
    {
      scale, x, y := scale', x', y';
    }
  }

  /** After a successful updateCard, the card still carries its id when the
      answer carries the same id or none. */
  lemma UpdateKeepsId(s: seq<JsObject>, id: string, reply: JsObject)
    requires FindIndex(s, id) >= 0
    requires "id" !in reply || reply["id"] == JStr(id)
    ensures IdIs((s[FindIndex(s, id)] + reply), id)
    ensures FindIndex(s[FindIndex(s, id) := s[FindIndex(s, id)] + reply], id) == FindIndex(s, id)
  {
    var i := FindIndex(s, id);
    var t := s[i := s[i] + reply];
    assert forall j :: 0 <= j < i ==> t[j] == s[j];
    assert IdIs(t[i], id);
  }

  /** A successful createCard puts the answer last without touching the
      cards before it, so a card found before is found at the same place
      afterwards. */
  lemma CreateKeepsPositions(s: seq<JsObject>, o: JsObject, id: string)
    requires FindIndex(s, id) >= 0
    ensures FindIndex(s + [o], id) == FindIndex(s, id)
  {
    var i := FindIndex(s, id);
    assert forall j :: 0 <= j <= i ==> (s + [o])[j] == s[j];
  }
}
