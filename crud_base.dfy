/** The generic CRUD layer of backend/app/crud/base.py. A BaseCRUD object
    only remembers its model class, so it is modelled by the Kind of the
    table it serves; each operation takes that kind and the database, as
    the Python methods take self and their session. */
module Crud {
  import opened Common
  import opened Records
  import opened Store
  import Api

  /** The fields TaskCreate / NoteCreate add to BaseCardSchema. */
  datatype SchemaPart =
    | TaskFields(parentId: Option<string>, taskType: string)
    | NoteFields(taskId: Option<string>, noteType: string)

  /** A TaskCreate or NoteCreate value (schemas/task.py, schemas/note.py):
      the BaseCardSchema fields, then the kind's own fields. */
  datatype CardCreate = CardCreate(
    id: Option<string>,
    title: string,
    content: seq<Json>,
    x: int,
    y: int,
    z: int,
    width: int,
    height: int,
    createdAt: Option<Timestamp>,
    updatedAt: Option<Timestamp>,
    own: SchemaPart)

  /** A TaskCreate with the schema's defaults for everything but the title. */
  function DefaultTaskCreate(title: string): (r: CardCreate)
    ensures r.id.None? && r.content == [] && r.x == 0 && r.y == 0 && r.z == 0
    ensures r.width == 300 && r.height == 200 && r.own == TaskFields(None, "task")
  {
    CardCreate(None, title, [], 0, 0, 0, 300, 200, None, None, TaskFields(None, "task"))
  }

  /** get: the first row with the id. */
  function Get(rows: seq<Card>, id: string): (r: Option<Card>)
    ensures r.Some? ==> r.value in rows && r.value.id == id
    ensures r.None? <==> id !in Ids(rows)
  {
    var i := IndexOf(rows, id);
    if i.None? then None else Some(rows[i.value])
  }

  /** In a table with unique ids, get finds exactly the row carrying the id. */
  lemma GetUnique(rows: seq<Card>, c: Card)
    requires UniqueIds(rows) && c in rows
    ensures Get(rows, c.id) == Some(c)
    ensures rows[IndexOf(rows, c.id).value] == c
  {
    var j :| 0 <= j < |rows| && rows[j] == c;
    assert IndexOf(rows, c.id).value == j;
  }

  /** get_multi: `offset(skip).limit(limit)`, the window of at most limit
      rows starting at position skip, in table order. */
  function GetMulti(rows: seq<Card>, skip: nat, limit: nat): (r: seq<Card>)
    ensures |r| == if skip >= |rows| then 0 else Min(limit, |rows| - skip)
    ensures forall i :: 0 <= i < |r| ==> r[i] == rows[skip + i]
  {
    if skip >= |rows| then []
    else if skip + limit >= |rows| then rows[skip..]
    else rows[skip..skip + limit]
  }

  /** Two adjacent pages make up the page that spans both. */
  lemma GetMultiPages(rows: seq<Card>, skip: nat, a: nat, b: nat)
    ensures GetMulti(rows, skip, a) + GetMulti(rows, skip + a, b) == GetMulti(rows, skip, a + b)
  {
    var left, right, whole := GetMulti(rows, skip, a), GetMulti(rows, skip + a, b), GetMulti(rows, skip, a + b);
    assert |left + right| == |whole|;
    forall i | 0 <= i < |whole| ensures (left + right)[i] == whole[i] {
      if i >= |left| {
        assert right[i - |left|] == rows[skip + a + i - |left|];
      }
    }
  }

  /** A page that starts at 0 and is at least as long as the table is the
      whole table. */
  lemma GetMultiAll(rows: seq<Card>, limit: nat)
    requires limit >= |rows|
    ensures GetMulti(rows, 0, limit) == rows
  {
    assert |GetMulti(rows, 0, limit)| == |rows|;
  }

  /** The row `self.model(**obj_in.model_dump())` builds and the commit
      stores, or None when either fails. Every field of the schema becomes a
      keyword argument, so the constructor accepts only a TaskCreate for the
      task table: a NoteCreate carries task_id and note_type, and the notes
      table has neither column, so it raises TypeError; a TaskCreate for the
      notes table fails the same way on parent_id and task_type. A missing
      id leaves the primary key NULL and the INSERT fails. A None
      created_at is left to the server default (now); a None updated_at
      stays NULL. */
  function NewRow(k: Kind, obj: CardCreate, now: Timestamp): (r: Option<Card>)
    ensures r.Some? <==> k == TaskKind && obj.own.TaskFields? && obj.id.Some?
    ensures r.Some? ==>
      && r.value.KindOf() == TaskKind
      && r.value.id == obj.id.value && r.value.title == obj.title && r.value.content == JArr(obj.content)
      && r.value.x == Some(obj.x) && r.value.y == Some(obj.y) && r.value.z == obj.z
      && r.value.width == Some(obj.width) && r.value.height == Some(obj.height)
      && r.value.extra == TaskPart(obj.own.parentId, Some(obj.own.taskType))
      && r.value.createdAt == (if obj.createdAt.Some? then obj.createdAt.value else now)
      && r.value.updatedAt == obj.updatedAt
  {
    if k != TaskKind || !obj.own.TaskFields? || obj.id.None? then None
    else
      Some(Card(obj.id.value, obj.title, JArr(obj.content), Some(obj.x), Some(obj.y), obj.z, Some(obj.width), Some(obj.height),
                if obj.createdAt.Some? then obj.createdAt.value else now, obj.updatedAt,
                TaskPart(obj.own.parentId, Some(obj.own.taskType))))
  }

  /** The two create paths disagree on defaults: a TaskCreate left at its
      schema defaults stores the card at (0, 0) with z-index 0, while
      create_card with only a title stores it at (100, 100) on top of the
      canvas, at the next z-index. Both give it the 300 x 200 size. */
  lemma CreateDefaultsDiffer(title: string, id: string, tasks: seq<Card>, notes: seq<Card>, now: Timestamp)
    ensures var viaCrud := NewRow(TaskKind, DefaultTaskCreate(title).(id := Some(id)), now);
      && viaCrud.Some?
      && viaCrud.value.x == Some(0) && viaCrud.value.y == Some(0) && viaCrud.value.z == 0
      && viaCrud.value.width == Some(300) && viaCrud.value.height == Some(200)
    ensures var viaApi := Api.BuildCard(TaskKind, map["title" := JStr(title)], id, Api.NextZIndex(tasks, notes), now);
      && viaApi.Some?
      && viaApi.value.x == Some(100) && viaApi.value.y == Some(100) && viaApi.value.z == Api.NextZIndex(tasks, notes)
      && viaApi.value.z >= 1
      && viaApi.value.width == Some(300) && viaApi.value.height == Some(200)
  {
  }

  /** create: the built row is appended to its table; a constructor error, a
      NULL primary key or a duplicate id stores nothing and raises. */
  method Create(db: Database, k: Kind, obj: CardCreate, now: Timestamp) returns (r: Result<Card>)
    requires db.Valid()
    modifies db
    ensures db.Valid()
    ensures r.Ok? <==> NewRow(k, obj, now).Some? && obj.id.value !in Ids(old(db.Rows(k)))
    ensures r.Ok? ==> r.value == NewRow(k, obj, now).value && db.Rows(k) == old(db.Rows(k)) + [r.value]
    ensures r.Err? ==> r.error.ServerError? && db.Rows(k) == old(db.Rows(k))
    ensures db.Rows(Other(k)) == old(db.Rows(Other(k)))
    ensures db.taskLinks == old(db.taskLinks) && db.noteLinks == old(db.noteLinks)
  {
    var row := NewRow(k, obj, now);
    if row.None? {
      return Err(ServerError("the model refused the schema's fields"));
    }
    var rows := db.Rows(k);
    if row.value.id in Ids(rows) {
      return Err(ServerError("IntegrityError: duplicate key"));
    }
    AppendIds(rows, row.value);
    SetRows(db, k, rows + [row.value]);
    r := Ok(row.value);
  }

  /** The fields of TaskUpdate (with parent_id) or NoteUpdate (with
      task_id) and the JSON shape each takes; every field is Optional, so
      null is always allowed. */
  predicate UpdateField(k: Kind, key: string, v: Json)
  {
    || (key == "title" && (v.JStr? || v.JNull?))
    || (key == "content" && (v.JArr? || v.JNull?))
    || ((key == "x" || key == "y" || key == "z_index" || key == "width" || key == "height") && (v.JNum? || v.JNull?))
    || (key == (if k == TaskKind then "parent_id" else "task_id") && (v.JStr? || v.JNull?))
  }

  /** `obj_in.model_dump(exclude_unset=True)` of a TaskUpdate or NoteUpdate:
      the fields the caller set, and only those. */
  predicate UpdateSchema(k: Kind, upd: map<string, Json>)
  {
    forall key :: key in upd ==> UpdateField(k, key, upd[key])
  }

  /** An update schema has no id field, so update never renames a row. */
  lemma UpdateKeepsId(c: Card, upd: map<string, Json>)
    requires UpdateSchema(c.KindOf(), upd)
    requires Patched(c, upd).Some?
    ensures Patched(c, upd).value.id == c.id
  {
    if "id" in upd {
      assert UpdateField(c.KindOf(), "id", upd["id"]);
    }
    PatchedAttrs(c, upd, Id);
  }

  /** update: every field that was set is written onto the row (a note's
      task_id names no column and is dropped), then the commit stores the
      row, stamped now when it changed, or fails when a null was set on the
      NOT NULL title or on an integer column. */
  method Update(db: Database, k: Kind, obj: Card, upd: map<string, Json>, now: Timestamp) returns (r: Result<Card>)
    requires db.Valid()
    requires obj in db.Rows(k)
    requires UpdateSchema(k, upd)
    modifies db
    ensures db.Valid()
    ensures r.Ok? <==> Patched(obj, upd).Some?
    ensures r.Ok? ==> r.value == Touched(obj, Patched(obj, upd).value, now) && r.value.id == obj.id
    ensures r.Ok? ==> db.Rows(k) == old(db.Rows(k))[IndexOf(old(db.Rows(k)), obj.id).value := r.value]
    ensures r.Err? ==> r.error.ServerError? && db.Rows(k) == old(db.Rows(k))
    ensures db.Rows(Other(k)) == old(db.Rows(Other(k)))
    ensures db.taskLinks == old(db.taskLinks) && db.noteLinks == old(db.noteLinks)
  {
    var rows := db.Rows(k);
    assert obj.KindOf() == k by {
      var j :| 0 <= j < |rows| && rows[j] == obj;
    }
    var patched := ApplyPatch(obj, upd);
    if patched.None? {
      return Err(ServerError("the database refused a value of the update"));
    }
    UpdateKeepsId(obj, upd);
    var card := Touched(obj, patched.value, now);
    GetUnique(rows, obj);
    var i := IndexOf(rows, obj.id).value;
    ReplaceAtIds(rows, i, card);
    SetRows(db, k, rows[i := card]);
    r := Ok(card);
  }

  /** The detail remove's 404 carries: the model class name. */
  function RemoveDetail(k: Kind): string
  {
    if k == TaskKind then "Task not found" else "Note not found"
  }

  /** remove: NotFound when no row has the id; otherwise that row is
      deleted and returned. */
  method Remove(db: Database, k: Kind, id: string) returns (r: Result<Card>)
    requires db.Valid()
    modifies db
    ensures db.Valid()
    ensures r.Err? <==> id !in Ids(old(db.Rows(k)))
    ensures r.Err? ==> r.error == NotFound(RemoveDetail(k)) && db.Rows(k) == old(db.Rows(k))
    ensures r.Ok? ==> Get(old(db.Rows(k)), id) == Some(r.value)
    ensures r.Ok? ==> db.Rows(k) == RemoveAt(old(db.Rows(k)), IndexOf(old(db.Rows(k)), id).value)
    ensures Ids(db.Rows(k)) == Ids(old(db.Rows(k))) - {id}
    ensures db.Rows(Other(k)) == old(db.Rows(Other(k)))
    ensures db.taskLinks == old(db.taskLinks) && db.noteLinks == old(db.noteLinks)
  {
    var rows := db.Rows(k);
    var i := IndexOf(rows, id);
    if i.None? {
      return Err(NotFound(RemoveDetail(k)));
    }
    RemoveAtIds(rows, i.value);
    SetRows(db, k, RemoveAt(rows, i.value));
    r := Ok(rows[i.value]);
  }

  /** After a row is appended under a fresh id, get finds it. */
  lemma GetAfterCreate(rows: seq<Card>, c: Card)
    requires UniqueIds(rows) && c.id !in Ids(rows)
    ensures Get(rows + [c], c.id) == Some(c)
  {
    AppendIds(rows, c);
    assert c in rows + [c];
    GetUnique(rows + [c], c);
  }

  /** After the row with an id is removed, get no longer finds the id. */
  lemma GetAfterRemove(rows: seq<Card>, id: string)
    requires UniqueIds(rows) && id in Ids(rows)
    ensures Get(RemoveAt(rows, IndexOf(rows, id).value), id).None?
  {
    RemoveAtIds(rows, IndexOf(rows, id).value);
  }

  /** get_by_position: the first row at exactly (x, y). */
  function GetByPosition(rows: seq<Card>, x: int, y: int): (r: Option<Card>)
    ensures r.Some? ==> r.value in rows && r.value.x == Some(x) && r.value.y == Some(y)
    ensures r.None? <==> forall c :: c in rows ==> c.x != Some(x) || c.y != Some(y)
  {
    if rows == [] then None
    else if rows[0].x == Some(x) && rows[0].y == Some(y) then Some(rows[0])
    else
      assert forall c :: c in rows ==> c == rows[0] || c in rows[1..];
      GetByPosition(rows[1..], x, y)
  }

  /** get_next_z_index: `(max_z or 0) + 1` over the one table, so an empty
      table (max NULL) and a top z of 0 both give 1. A table whose z values
      are all negative gives its top z plus one, which is not positive. */
  function NextZIndexOf(rows: seq<Card>): (r: int)
    ensures rows == [] ==> r == 1
    ensures forall c :: c in rows ==> c.z < r
    ensures r == 1 || exists c :: c in rows && c.z == r - 1
    ensures rows != [] && TopZ(rows).value != 0 ==> exists c :: c in rows && c.z == r - 1
    ensures rows != [] && TopZ(rows).value == 0 ==> r == 1
  {
    var top := TopZ(rows);
    (if top.None? || top.value == 0 then 0 else top.value) + 1
  }

  /** The per-table rule never exceeds the handlers' rule over both
      tables, and the two agree when there are no notes and no negative z. */
  lemma NextZIndexOfBelowGlobal(tasks: seq<Card>, notes: seq<Card>)
    ensures NextZIndexOf(tasks) <= Api.NextZIndex(tasks, notes)
    ensures notes == [] && (forall c :: c in tasks ==> c.z >= 0) ==> NextZIndexOf(tasks) == Api.NextZIndex(tasks, notes)
  {
    if tasks != [] {
      var top := TopZ(tasks);
      assert exists c :: c in tasks && c.z == top.value;
    }
  }
}
