/** The rows of the canvas database: tasks and notes (which share the card
    columns of models/base_card.py), task links and note links, and the
    attribute-by-attribute update that the update handlers and the generic
    CRUD layer apply to a card. */
module Records {
  import opened Common

  /** A server clock reading (func.now()); the model never inspects it. */
  datatype Timestamp = Timestamp(ticks: int)

  /** Which of the two card tables a row lives in. */
  datatype Kind = TaskKind | NoteKind

  /** The columns only one of the two card tables has: a task's parent_id and
      task_type (models/task.py), a note's card_id (models/note.py). */
  datatype Extra =
    | TaskPart(parentId: Option<string>, taskType: Option<string>)
    | NotePart(cardId: Option<string>)

  /** A row of the tasks or the notes table. content is the JSON column
      holding the card's rich-text blocks, opaque here; x, y, width and
      height are nullable integer columns; z is kept non-null. */
  datatype Card = Card(
    id: string,
    title: string,
    content: Json,
    x: Option<int>,
    y: Option<int>,
    z: int,
    width: Option<int>,
    height: Option<int>,
    createdAt: Timestamp,
    updatedAt: Option<Timestamp>,
    extra: Extra)
  {
    function KindOf(): Kind
    {
      if extra.TaskPart? then TaskKind else NoteKind
    }
  }

  /** A row of task_links. targetType names the table targetId refers to. */
  datatype TaskLink = TaskLink(
    id: int,
    sourceId: string,
    targetId: string,
    linkType: string,
    targetType: string,
    createdAt: Timestamp)

  /** A row of note_links. link_type is a nullable column with the default
      "linked_to"; the only writer, create_note_link, never stores NULL. */
  datatype NoteLink = NoteLink(
    id: int,
    sourceId: string,
    targetId: string,
    linkType: string,
    createdAt: Timestamp)

  /** The card columns a request body can name. */
  datatype Attr = Id | Title | Content | X | Y | Z | Width | Height | ParentId | TaskType | CardId

  /** The column (and Python attribute) name of an attribute. */
  function Column(a: Attr): string
  {
    match a
    case Id => "id"
    case Title => "title"
    case Content => "content"
    case X => "x"
    case Y => "y"
    case Z => "z_index"
    case Width => "width"
    case Height => "height"
    case ParentId => "parent_id"
    case TaskType => "task_type"
    case CardId => "card_id"
  }

  /** Whether a row of the given table has the attribute. */
  predicate HasAttr(k: Kind, a: Attr)
  {
    match a
    case ParentId | TaskType => k == TaskKind
    case CardId => k == NoteKind
    case _ => true
  }

  /** hasattr(row, key), restricted to the columns of the model: the
      attribute a key names, or None when the row has no such column. */
  function AttrOf(k: Kind, key: string): (r: Option<Attr>)
    ensures r.Some? ==> HasAttr(k, r.value) && Column(r.value) == key
  {
    if key == "id" then Some(Id)
    else if key == "title" then Some(Title)
    else if key == "content" then Some(Content)
    else if key == "x" then Some(X)
    else if key == "y" then Some(Y)
    else if key == "z_index" then Some(Z)
    else if key == "width" then Some(Width)
    else if key == "height" then Some(Height)
    else if key == "parent_id" && k == TaskKind then Some(ParentId)
    else if key == "task_type" && k == TaskKind then Some(TaskType)
    else if key == "card_id" && k == NoteKind then Some(CardId)
    else None
  }

  /** AttrOf and Column are inverse on the attributes a table has. */
  lemma AttrOfColumn(k: Kind, a: Attr)
    requires HasAttr(k, a)
    ensures AttrOf(k, Column(a)) == Some(a)
  {
  }

  /** The Python-side default of an integer column (models/base_card.py),
      or None for a column without one. */
  function ColumnDefault(a: Attr): Option<int>
  {
    match a
    case X | Y | Z => Some(0)
    case Width => Some(300)
    case Height => Some(200)
    case _ => None
  }

  /** Whether the database stores a JSON value in the attribute's column:
      id and title are NOT NULL strings, the JSON column takes anything, the
      nullable integer columns take integers and null, z_index takes
      integers, and parent_id, task_type and card_id are nullable strings. */
  predicate Fits(a: Attr, v: Json)
  {
    match a
    case Id | Title => v.JStr?
    case Content => true
    case X | Y | Width | Height => v.JNum? || v.JNull?
    case Z => v.JNum?
    case ParentId | TaskType | CardId => v.JStr? || v.JNull?
  }

  function OptOf(v: Json): Option<string>
    requires v.JStr? || v.JNull?
  {
    if v.JStr? then Some(v.s) else None
  }

  function JsonOf(o: Option<string>): Json
  {
    if o.Some? then JStr(o.value) else JNull
  }

  function IntOptOf(v: Json): Option<int>
    requires v.JNum? || v.JNull?
  {
    if v.JNum? then Some(v.n) else None
  }

  function JsonOfInt(o: Option<int>): Json
  {
    if o.Some? then JNum(o.value) else JNull
  }

  /** getattr(row, Column(a)) as the JSON value a response carries. */
  function Read(c: Card, a: Attr): Json
    requires HasAttr(c.KindOf(), a)
  {
    match a
    case Id => JStr(c.id)
    case Title => JStr(c.title)
    case Content => c.content
    case X => JsonOfInt(c.x)
    case Y => JsonOfInt(c.y)
    case Z => JNum(c.z)
    case Width => JsonOfInt(c.width)
    case Height => JsonOfInt(c.height)
    case ParentId => JsonOf(c.extra.parentId)
    case TaskType => JsonOf(c.extra.taskType)
    case CardId => JsonOf(c.extra.cardId)
  }

  /** setattr(row, Column(a), v) for a value the column takes. */
  function SetAttr(c: Card, a: Attr, v: Json): (r: Card)
    requires HasAttr(c.KindOf(), a) && Fits(a, v)
    ensures r.KindOf() == c.KindOf()
    ensures Read(r, a) == v
    ensures forall b :: HasAttr(c.KindOf(), b) && b != a ==> Read(r, b) == Read(c, b)
    ensures r.createdAt == c.createdAt && r.updatedAt == c.updatedAt
  {
    match a
    case Id => c.(id := v.s)
    case Title => c.(title := v.s)
    case Content => c.(content := v)
    case X => c.(x := IntOptOf(v))
    case Y => c.(y := IntOptOf(v))
    case Z => c.(z := v.n)
    case Width => c.(width := IntOptOf(v))
    case Height => c.(height := IntOptOf(v))
    case ParentId => c.(extra := c.extra.(parentId := OptOf(v)))
    case TaskType => c.(extra := c.extra.(taskType := OptOf(v)))
    case CardId => c.(extra := c.extra.(cardId := OptOf(v)))
  }

  /** Whether the value supplied under key fits the column the key names
      (a key naming no column is never stored, so it always "fits"). */
  predicate KeyFits(k: Kind, key: string, v: Json)
  {
    match AttrOf(k, key)
    case None => true
    case Some(a) => Fits(a, v)
  }

  /** Whether every supplied value that names a column fits it. */
  predicate PatchFits(k: Kind, p: map<string, Json>)
  {
    forall key :: key in p ==> KeyFits(k, key, p[key])
  }

  function IntOr(p: map<string, Json>, key: string, keep: int): int
  {
    if key in p && p[key].JNum? then p[key].n else keep
  }

  function IntOptOr(p: map<string, Json>, key: string, keep: Option<int>): Option<int>
  {
    if key in p && (p[key].JNum? || p[key].JNull?) then IntOptOf(p[key]) else keep
  }

  function StrOr(p: map<string, Json>, key: string, keep: string): string
  {
    if key in p && p[key].JStr? then p[key].s else keep
  }

  function OptOr(p: map<string, Json>, key: string, keep: Option<string>): Option<string>
  {
    if key in p && (p[key].JStr? || p[key].JNull?) then OptOf(p[key]) else keep
  }

  /** The row after every supplied key that names one of its columns has been
      written (values that do not fit leave the column as it was; Patched
      turns them into a failed commit). */
  function Overlay(c: Card, p: map<string, Json>): Card
  {
    c.(
      id := StrOr(p, "id", c.id),
      title := StrOr(p, "title", c.title),
      content := if "content" in p then p["content"] else c.content,
      x := IntOptOr(p, "x", c.x),
      y := IntOptOr(p, "y", c.y),
      z := IntOr(p, "z_index", c.z),
      width := IntOptOr(p, "width", c.width),
      height := IntOptOr(p, "height", c.height),
      extra := match c.extra
        case TaskPart(parent, kind) => TaskPart(OptOr(p, "parent_id", parent), OptOr(p, "task_type", kind))
        case NotePart(card) => NotePart(OptOr(p, "card_id", card)))
  }

  /** The committed row after the setattr loop over p, or None when the
      commit fails because a value does not fit its column. */
  function Patched(c: Card, p: map<string, Json>): Option<Card>
  {
    if PatchFits(c.KindOf(), p) then Some(Overlay(c, p)) else None
  }

  /** What an update does, attribute by attribute: an attribute whose column
      is named in the body takes the supplied value, every other attribute
      keeps its value, and the kind and the timestamps never change. */
  lemma {:induction false} PatchedAttrs(c: Card, p: map<string, Json>, a: Attr)
    requires Patched(c, p).Some?
    requires HasAttr(c.KindOf(), a)
    ensures Patched(c, p).value.KindOf() == c.KindOf()
    ensures Patched(c, p).value.createdAt == c.createdAt
    ensures Patched(c, p).value.updatedAt == c.updatedAt
    ensures Read(Patched(c, p).value, a) == if Column(a) in p then p[Column(a)] else Read(c, a)
  {
    AttrOfColumn(c.KindOf(), a);
    if Column(a) in p {
      assert KeyFits(c.KindOf(), Column(a), p[Column(a)]);
    }
  }

  /** The commit fails exactly when a supplied key names a column and its
      value does not fit that column. */
  lemma PatchedFails(c: Card, p: map<string, Json>)
    ensures Patched(c, p).None? <==>
      exists key :: key in p && AttrOf(c.KindOf(), key).Some? && !Fits(AttrOf(c.KindOf(), key).value, p[key])
  {
  }

  /** Keys that name no column are ignored. */
  lemma PatchedIgnoresUnknownKeys(c: Card, p: map<string, Json>, key: string)
    requires AttrOf(c.KindOf(), key).None?
    ensures Patched(c, p) == Patched(c, p - {key})
  {
    var q := p - {key};
    assert Overlay(c, p) == Overlay(c, q) by {
      assert key != "id" && key != "title" && key != "content" && key != "x" && key != "y";
      assert key != "z_index" && key != "width" && key != "height";
    }
    assert PatchFits(c.KindOf(), p) <==> PatchFits(c.KindOf(), q) by {
      if PatchFits(c.KindOf(), q) {
        forall k | k in p ensures KeyFits(c.KindOf(), k, p[k]) {
          if k != key { assert k in q; }
        }
      }
    }
  }

  lemma OverlayEmpty(c: Card)
    ensures Overlay(c, map[]) == c
  {
  }

  /** Writing one more key is one setattr on the row written so far. */
  lemma {:induction false} OverlayExtend(c: Card, q: map<string, Json>, key: string, v: Json)
    requires key !in q
    ensures Overlay(c, q[key := v]).KindOf() == c.KindOf()
    ensures Overlay(c, q[key := v]) ==
      match AttrOf(c.KindOf(), key)
      case None => Overlay(c, q)
      case Some(a) => if Fits(a, v) then SetAttr(Overlay(c, q), a, v) else Overlay(c, q)
  {
    var p := q[key := v];
    match AttrOf(c.KindOf(), key) {
      case None =>
        assert Overlay(c, p) == Overlay(c, q) by { UnknownKeyAbsent(c.KindOf(), key); }
      case Some(a) =>
        OverlayExtendAttr(c, q, a, v);
    }
  }

  lemma UnknownKeyAbsent(k: Kind, key: string)
    requires AttrOf(k, key).None?
    ensures key != "id" && key != "title" && key != "content" && key != "x" && key != "y"
    ensures key != "z_index" && key != "width" && key != "height"
    ensures k == TaskKind ==> key != "parent_id" && key != "task_type"
    ensures k == NoteKind ==> key != "card_id"
  {
  }

  lemma OverlayExtendAttr(c: Card, q: map<string, Json>, a: Attr, v: Json)
    requires Column(a) !in q
    requires HasAttr(c.KindOf(), a)
    ensures Overlay(c, q[Column(a) := v]) == if Fits(a, v) then SetAttr(Overlay(c, q), a, v) else Overlay(c, q)
  {
    match a
    case Id | Title | Content => OverlayExtendText(c, q, a, v);
    case X | Y | Z => OverlayExtendPlace(c, q, a, v);
    case Width | Height => OverlayExtendSize(c, q, a, v);
    case ParentId | TaskType | CardId => OverlayExtendRef(c, q, a, v);
  }

  lemma OverlayExtendText(c: Card, q: map<string, Json>, a: Attr, v: Json)
    requires Column(a) !in q
    requires a == Id || a == Title || a == Content
    ensures Overlay(c, q[Column(a) := v]) == if Fits(a, v) then SetAttr(Overlay(c, q), a, v) else Overlay(c, q)
  {
  }

  lemma OverlayExtendPlace(c: Card, q: map<string, Json>, a: Attr, v: Json)
    requires Column(a) !in q
    requires a == X || a == Y || a == Z
    ensures Overlay(c, q[Column(a) := v]) == if Fits(a, v) then SetAttr(Overlay(c, q), a, v) else Overlay(c, q)
  {
  }

  lemma OverlayExtendSize(c: Card, q: map<string, Json>, a: Attr, v: Json)
    requires Column(a) !in q
    requires a == Width || a == Height
    ensures Overlay(c, q[Column(a) := v]) == if Fits(a, v) then SetAttr(Overlay(c, q), a, v) else Overlay(c, q)
  {
  }

  lemma OverlayExtendRef(c: Card, q: map<string, Json>, a: Attr, v: Json)
    requires Column(a) !in q
    requires HasAttr(c.KindOf(), a)
    requires a == ParentId || a == TaskType || a == CardId
    ensures Overlay(c, q[Column(a) := v]) == if Fits(a, v) then SetAttr(Overlay(c, q), a, v) else Overlay(c, q)
  {
  }

  /** The setattr loop of main.py's update handlers and of BaseCRUD.update:
      every supplied key that the row has as an attribute is written, then
      the commit succeeds only if every written value fits its column. */
  method ApplyPatch(c: Card, p: map<string, Json>) returns (r: Option<Card>)
    ensures r == Patched(c, p)
  {
    var kind := c.KindOf();
    var cur := c;
    var fits := true;
    var keys := p.Keys;
    ghost var seen: map<string, Json> := map[];
    OverlayEmpty(c);
    while keys != {}
      invariant keys <= p.Keys
      invariant seen.Keys == p.Keys - keys
      invariant forall key :: key in seen ==> seen[key] == p[key]
      invariant cur == Overlay(c, seen)
      invariant fits == PatchFits(kind, seen)
      decreases keys
    {
      var key :| key in keys;
      OverlayExtend(c, seen, key, p[key]);
      match AttrOf(kind, key) {
        case None =>
        case Some(a) =>
          if Fits(a, p[key]) {
            cur := SetAttr(cur, a, p[key]);
          } else {
            fits := false;
          }
      }
      seen := seen[key := p[key]];
      keys := keys - {key};
    }
    assert seen == p;
    r := if fits then Some(cur) else None;
  }

  /** The row an update commits: the patched row, stamped with now when the
      UPDATE changes anything (updated_at is an onupdate column). */
  function Touched(before: Card, after: Card, now: Timestamp): Card
  {
    if after == before then after else after.(updatedAt := Some(now))
  }

  /** The highest z among the rows: what `order_by(z_index.desc()).first()`
      and `func.max(z_index)` read, None for an empty table. */
  function TopZ(rows: seq<Card>): (r: Option<int>)
    ensures r.None? <==> rows == []
    ensures r.Some? ==> forall c :: c in rows ==> c.z <= r.value
    ensures r.Some? ==> exists c :: c in rows && c.z == r.value
  {
    if rows == [] then None
    else
      var rest := TopZ(rows[1..]);
      assert forall c :: c in rows ==> c == rows[0] || c in rows[1..];
      if rest.None? || rest.value < rows[0].z then Some(rows[0].z) else rest
  }
}
