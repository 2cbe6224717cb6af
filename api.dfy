/** The card and note handlers of backend/app/main.py and its z-index rule.
    Each handler takes the database as its argument, as the Python handlers
    take their session, and returns Ok or the Error the handler raises; the
    UUID a handler draws and the clock reading a commit stamps are
    parameters. */
module Api {
  import opened Common
  import opened Records
  import opened Store

  /** get_next_z_index exactly as written: both queries run, then line 65
      reads max_card_z, a name that is never bound (line 61 binds
      max_task_z), so every call raises NameError. */
  function NextZIndexAsWritten(tasks: seq<Card>, notes: seq<Card>): Result<int>
  {
    Err(ServerError("NameError: name 'max_card_z' is not defined"))
  }

  /** get_next_z_index as intended: start from 0, raise it to the top task's
      z and then to the top note's z (a top z of 0 is skipped, being falsy),
      and add one. Tasks and notes share one stacking order. */
  function NextZIndex(tasks: seq<Card>, notes: seq<Card>): (r: int)
    ensures r >= 1
    ensures forall c :: c in tasks || c in notes ==> c.z < r
    ensures r == 1 || exists c :: (c in tasks || c in notes) && c.z == r - 1
  {
    var topTask := TopZ(tasks);
    var topNote := TopZ(notes);
    var maxZ := 0;
    var maxZ := if topTask.Some? && topTask.value != 0 then Max(maxZ, topTask.value) else maxZ;
    var maxZ := if topNote.Some? && topNote.value != 0 then Max(maxZ, topNote.value) else maxZ;
    maxZ + 1
  }

  /** The as-written rule never yields a z-index, while the intended one
      always yields at least 1; since `card_data.get("z_index",
      get_next_z_index(db))` evaluates its default first, as written every
      create_card and create_note call fails, even with z_index supplied. */
  lemma NextZIndexAsWrittenFails(tasks: seq<Card>, notes: seq<Card>)
    ensures NextZIndexAsWritten(tasks, notes).Err?
    ensures NextZIndex(tasks, notes) >= 1
  {
  }

  /** GET /api/max-z-index: the next z-index minus one, i.e. the highest z
      over all tasks and notes, or 0 when none is positive. */
  function GetMaxZIndex(db: Database): (r: int)
    reads db
    ensures r >= 0
    ensures forall c :: c in db.tasks || c in db.notes ==> c.z <= r
    ensures r == 0 || exists c :: (c in db.tasks || c in db.notes) && c.z == r
  {
    NextZIndex(db.tasks, db.notes) - 1
  }

  function DefaultTitle(k: Kind): string
  {
    if k == TaskKind then "Новая задача" else "Новая заметка"
  }

  function NotFoundDetail(k: Kind): string
  {
    if k == TaskKind then "Карточка не найдена" else "Заметка не найдена"
  }

  function DeletedMessage(k: Kind): string
  {
    if k == TaskKind then "Карточка удалена" else "Заметка удалена"
  }

  /** The key create reads for the reference column: a task's parent_id, a
      note's card_id. */
  function RefKey(k: Kind): string
  {
    if k == TaskKind then "parent_id" else "card_id"
  }

  function RefAttr(k: Kind): Attr
  {
    if k == TaskKind then ParentId else CardId
  }

  /** The attributes create fills from the request body. */
  predicate CreateAttr(k: Kind, a: Attr)
  {
    a in {Title, Content, X, Y, Z, Width, Height, RefAttr(k)}
  }

  /** The value create uses for an attribute missing from the body. */
  function CreateDefault(k: Kind, a: Attr, nextZ: int): Json
  {
    match a
    case Title => JStr(DefaultTitle(k))
    case Content => JArr([])
    case X | Y => JNum(100)
    case Z => JNum(nextZ)
    case Width => JNum(300)
    case Height => JNum(200)
    case _ => JNull
  }

  /** What the INSERT stores for a value passed to the model constructor:
      a None on a column with a Python-side default is left out of the
      INSERT, so the column default is stored instead. */
  function Inserted(a: Attr, v: Json): Json
  {
    if v.JNull? && ColumnDefault(a).Some? then JNum(ColumnDefault(a).value) else v
  }

  /** Whether the INSERT accepts a value for the attribute. */
  predicate CreateFits(a: Attr, v: Json)
  {
    Fits(a, Inserted(a, v))
  }

  /** The row create_card / create_note builds from the body under the new
      id, or None when a value the body supplies does not fit its column
      (the commit fails). task_type takes its column default "task". */
  function BuildCard(k: Kind, data: map<string, Json>, id: string, nextZ: int, now: Timestamp): Option<Card>
  {
    var title := Lookup(data, "title", JStr(DefaultTitle(k)));
    var content := Lookup(data, "content", JArr([]));
    var x := Inserted(X, Lookup(data, "x", JNum(100)));
    var y := Inserted(Y, Lookup(data, "y", JNum(100)));
    var z := Inserted(Z, Lookup(data, "z_index", JNum(nextZ)));
    var width := Inserted(Width, Lookup(data, "width", JNum(300)));
    var height := Inserted(Height, Lookup(data, "height", JNum(200)));
    var ref := Lookup(data, RefKey(k), JNull);
    if title.JStr? && x.JNum? && y.JNum? && z.JNum? && width.JNum? && height.JNum? && (ref.JStr? || ref.JNull?) then
      Some(Card(id, title.s, content, Some(x.n), Some(y.n), z.n, Some(width.n), Some(height.n), now, None,
                if k == TaskKind then TaskPart(OptOf(ref), Some("task")) else NotePart(OptOf(ref))))
    else
      None
  }

  /** The defaults of create: every attribute create fills is the body's
      value when the body names it and its default otherwise (a null on an
      integer column being replaced by the column default); the row is of
      the requested kind, carries the new id, is stamped now and has never
      been updated. */
  lemma {:induction false} BuildCardFields(k: Kind, data: map<string, Json>, id: string, nextZ: int, now: Timestamp, a: Attr)
    requires BuildCard(k, data, id, nextZ, now).Some?
    requires CreateAttr(k, a)
    ensures var c := BuildCard(k, data, id, nextZ, now).value;
      && c.id == id && c.KindOf() == k && c.createdAt == now && c.updatedAt.None?
      && (k == TaskKind ==> c.extra.taskType == Some("task"))
      && HasAttr(k, a)
      && Read(c, a) == Inserted(a, Lookup(data, Column(a), CreateDefault(k, a, nextZ)))
  {
    var c := BuildCard(k, data, id, nextZ, now).value;
    assert a == Title || a == Content || a == X || a == Y || a == Z || a == Width || a == Height || a == RefAttr(k);
    if a == RefAttr(k) {
      var ref := Lookup(data, RefKey(k), JNull);
      assert ref.JStr? || ref.JNull?;
    }
  }

  /** Create refuses the body exactly when one of the attributes it fills is
      supplied with a value the INSERT does not take. */
  lemma {:induction false} BuildCardFails(k: Kind, data: map<string, Json>, id: string, nextZ: int, now: Timestamp)
    ensures BuildCard(k, data, id, nextZ, now).None? <==>
      exists a :: CreateAttr(k, a) && Column(a) in data && !CreateFits(a, data[Column(a)])
  {
    if BuildCard(k, data, id, nextZ, now).None? {
      var title := Lookup(data, "title", JStr(DefaultTitle(k)));
      var x := Inserted(X, Lookup(data, "x", JNum(100)));
      var y := Inserted(Y, Lookup(data, "y", JNum(100)));
      var z := Inserted(Z, Lookup(data, "z_index", JNum(nextZ)));
      var width := Inserted(Width, Lookup(data, "width", JNum(300)));
      var height := Inserted(Height, Lookup(data, "height", JNum(200)));
      if !title.JStr? {
        assert CreateAttr(k, Title) && Column(Title) in data && !CreateFits(Title, data[Column(Title)]);
      } else if !x.JNum? {
        assert CreateAttr(k, X) && Column(X) in data && !CreateFits(X, data[Column(X)]);
      } else if !y.JNum? {
        assert CreateAttr(k, Y) && Column(Y) in data && !CreateFits(Y, data[Column(Y)]);
      } else if !z.JNum? {
        assert CreateAttr(k, Z) && Column(Z) in data && !CreateFits(Z, data[Column(Z)]);
      } else if !width.JNum? {
        assert CreateAttr(k, Width) && Column(Width) in data && !CreateFits(Width, data[Column(Width)]);
      } else if !height.JNum? {
        assert CreateAttr(k, Height) && Column(Height) in data && !CreateFits(Height, data[Column(Height)]);
      } else {
        assert Column(RefAttr(k)) == RefKey(k);
        assert CreateAttr(k, RefAttr(k)) && Column(RefAttr(k)) in data && !CreateFits(RefAttr(k), data[Column(RefAttr(k))]);
      }
    } else {
      forall a | CreateAttr(k, a) && Column(a) in data ensures CreateFits(a, data[Column(a)]) {
        assert a == Title || a == Content || a == X || a == Y || a == Z || a == Width || a == Height || a == RefAttr(k);
      }
    }
  }

  /** Create reads only the keys of the attributes it fills: an "id", a
      "task_type" or any unknown key in the body changes nothing. */
  lemma BuildCardIgnoresOtherKeys(k: Kind, data: map<string, Json>, key: string, id: string, nextZ: int, now: Timestamp)
    requires forall a :: CreateAttr(k, a) ==> Column(a) != key
    ensures BuildCard(k, data, id, nextZ, now) == BuildCard(k, data - {key}, id, nextZ, now)
  {
    var rest := data - {key};
    assert CreateAttr(k, Title) && CreateAttr(k, Content) && CreateAttr(k, X) && CreateAttr(k, Y);
    assert CreateAttr(k, Z) && CreateAttr(k, Width) && CreateAttr(k, Height) && CreateAttr(k, RefAttr(k));
    assert Column(RefAttr(k)) == RefKey(k);
    forall col | col != key ensures (col in data <==> col in rest) && (col in data ==> data[col] == rest[col]) {
    }
  }

  /** A card created without a z_index lands above every task and note. */
  lemma CreatedOnTop(k: Kind, data: map<string, Json>, id: string, tasks: seq<Card>, notes: seq<Card>, now: Timestamp)
    requires "z_index" !in data
    requires BuildCard(k, data, id, NextZIndex(tasks, notes), now).Some?
    ensures forall c :: c in tasks || c in notes ==> c.z < BuildCard(k, data, id, NextZIndex(tasks, notes), now).value.z
    ensures BuildCard(k, data, id, NextZIndex(tasks, notes), now).value.z >= 1
  {
  }

  /** POST /api/cards and POST /api/notes. */
  method Create(db: Database, k: Kind, data: map<string, Json>, newId: string, now: Timestamp) returns (r: Result<Card>)
    requires db.Valid()
    modifies db
    ensures db.Valid()
    ensures r.Ok? <==> BuildCard(k, data, newId, NextZIndex(old(db.tasks), old(db.notes)), now).Some? && newId !in Ids(old(db.Rows(k)))
    ensures r.Ok? ==> r.value == BuildCard(k, data, newId, NextZIndex(old(db.tasks), old(db.notes)), now).value
    ensures r.Ok? ==> db.Rows(k) == old(db.Rows(k)) + [r.value]
    ensures r.Err? ==> r.error.ServerError? && db.Rows(k) == old(db.Rows(k))
    ensures db.Rows(Other(k)) == old(db.Rows(Other(k)))
    ensures db.taskLinks == old(db.taskLinks) && db.noteLinks == old(db.noteLinks)
  {
    var nextZ := NextZIndex(db.tasks, db.notes);
    var built := BuildCard(k, data, newId, nextZ, now);
    if built.None? {
      return Err(ServerError("the database refused a value of the body"));
    }
    var rows := db.Rows(k);
    if newId in Ids(rows) {
      return Err(ServerError("IntegrityError: duplicate key"));
    }
    var card := built.value;
    AppendIds(rows, card);
    SetRows(db, k, rows + [card]);
    r := Ok(card);
  }

  method CreateCard(db: Database, data: map<string, Json>, newId: string, now: Timestamp) returns (r: Result<Card>)
    requires db.Valid()
    modifies db
    ensures db.Valid()
    ensures r.Ok? <==> BuildCard(TaskKind, data, newId, NextZIndex(old(db.tasks), old(db.notes)), now).Some? && newId !in Ids(old(db.tasks))
    ensures r.Ok? ==> r.value == BuildCard(TaskKind, data, newId, NextZIndex(old(db.tasks), old(db.notes)), now).value
    ensures r.Ok? ==> db.tasks == old(db.tasks) + [r.value]
    ensures r.Err? ==> db.tasks == old(db.tasks)
    ensures db.notes == old(db.notes) && db.taskLinks == old(db.taskLinks) && db.noteLinks == old(db.noteLinks)
  {
    r := Create(db, TaskKind, data, newId, now);
  }

  method CreateNote(db: Database, data: map<string, Json>, newId: string, now: Timestamp) returns (r: Result<Card>)
    requires db.Valid()
    modifies db
    ensures db.Valid()
    ensures r.Ok? <==> BuildCard(NoteKind, data, newId, NextZIndex(old(db.tasks), old(db.notes)), now).Some? && newId !in Ids(old(db.notes))
    ensures r.Ok? ==> r.value == BuildCard(NoteKind, data, newId, NextZIndex(old(db.tasks), old(db.notes)), now).value
    ensures r.Ok? ==> db.notes == old(db.notes) + [r.value]
    ensures r.Err? ==> db.notes == old(db.notes)
    ensures db.tasks == old(db.tasks) && db.taskLinks == old(db.taskLinks) && db.noteLinks == old(db.noteLinks)
  {
    r := Create(db, NoteKind, data, newId, now);
  }

  /** GET /api/cards and GET /api/notes: every row of the table, in table
      order. */
  function GetAll(db: Database, k: Kind): (r: seq<Card>)
    reads db
    ensures |r| == |db.Rows(k)|
    ensures forall i :: 0 <= i < |r| ==> r[i] == db.Rows(k)[i]
  {
    db.Rows(k)
  }

  /** GET /api/cards/{id} and GET /api/notes/{id}. */
  function Get(db: Database, k: Kind, id: string): (r: Result<Card>)
    reads db
    ensures r.Ok? ==> r.value in db.Rows(k) && r.value.id == id
    ensures r.Err? <==> id !in Ids(db.Rows(k))
    ensures r.Err? ==> r.error == NotFound(NotFoundDetail(k))
  {
    var i := IndexOf(db.Rows(k), id);
    if i.None? then Err(NotFound(NotFoundDetail(k))) else Ok(db.Rows(k)[i.value])
  }

  /** Whether the update handler commits: a row has the id, every value of
      the body fits its column, and the patched id is the row's own or one
      no other row has. */
  predicate UpdateAccepted(rows: seq<Card>, id: string, data: map<string, Json>)
  {
    && id in Ids(rows)
    && var row := rows[IndexOf(rows, id).value];
    && Patched(row, data).Some?
    && (Patched(row, data).value.id == id || Patched(row, data).value.id !in Ids(rows))
  }

  /** PUT /api/cards/{id} and PUT /api/notes/{id}: a missing row is
      NotFound; otherwise the setattr loop runs over the body and the commit
      stores the row, unless a value does not fit its column or the body
      renames the row to an id another row already has. */
  method Update(db: Database, k: Kind, id: string, data: map<string, Json>, now: Timestamp) returns (r: Result<Card>)
    requires db.Valid()
    modifies db
    ensures db.Valid()
    ensures (r.Err? && r.error.NotFound?) <==> id !in Ids(old(db.Rows(k)))
    ensures r.Err? && r.error.NotFound? ==> r.error.detail == NotFoundDetail(k)
    ensures r.Err? && !r.error.NotFound? ==> r.error.ServerError?
    ensures r.Ok? ==>
      var i := IndexOf(old(db.Rows(k)), id).value;
      && Patched(old(db.Rows(k))[i], data).Some?
      && r.value == Touched(old(db.Rows(k))[i], Patched(old(db.Rows(k))[i], data).value, now)
      && db.Rows(k) == old(db.Rows(k))[i := r.value]
    ensures r.Ok? <==> UpdateAccepted(old(db.Rows(k)), id, data)
    ensures r.Err? ==> db.Rows(k) == old(db.Rows(k))
    ensures db.Rows(Other(k)) == old(db.Rows(Other(k)))
    ensures db.taskLinks == old(db.taskLinks) && db.noteLinks == old(db.noteLinks)
  {
    var rows := db.Rows(k);
    var i := IndexOf(rows, id);
    if i.None? {
      return Err(NotFound(NotFoundDetail(k)));
    }
    var before := rows[i.value];
    var patched := ApplyPatch(before, data);
    if patched.None? {
      return Err(ServerError("the database refused a value of the body"));
    }
    var after := patched.value;
    if after.id != id && after.id in Ids(rows) {
      return Err(ServerError("IntegrityError: duplicate key"));
    }
    var card := Touched(before, after, now);
    PatchedAttrs(before, data, Id);
    ReplaceAtIds(rows, i.value, card);
    SetRows(db, k, rows[i.value := card]);
    r := Ok(card);
  }

  method UpdateCard(db: Database, id: string, data: map<string, Json>, now: Timestamp) returns (r: Result<Card>)
    requires db.Valid()
    modifies db
    ensures db.Valid()
    ensures (r.Err? && r.error.NotFound?) <==> id !in Ids(old(db.tasks))
    ensures r.Err? && r.error.NotFound? ==> r.error.detail == NotFoundDetail(TaskKind)
    ensures r.Err? && !r.error.NotFound? ==> r.error.ServerError?
    ensures r.Ok? ==>
      var i := IndexOf(old(db.tasks), id).value;
      && Patched(old(db.tasks)[i], data).Some?
      && r.value == Touched(old(db.tasks)[i], Patched(old(db.tasks)[i], data).value, now)
      && db.tasks == old(db.tasks)[i := r.value]
    ensures r.Ok? <==> UpdateAccepted(old(db.tasks), id, data)
    ensures r.Err? ==> db.tasks == old(db.tasks)
    ensures db.notes == old(db.notes) && db.taskLinks == old(db.taskLinks) && db.noteLinks == old(db.noteLinks)
  {
    r := Update(db, TaskKind, id, data, now);
  }

  method UpdateNote(db: Database, id: string, data: map<string, Json>, now: Timestamp) returns (r: Result<Card>)
    requires db.Valid()
    modifies db
    ensures db.Valid()
    ensures (r.Err? && r.error.NotFound?) <==> id !in Ids(old(db.notes))
    ensures r.Err? && r.error.NotFound? ==> r.error.detail == NotFoundDetail(NoteKind)
    ensures r.Err? && !r.error.NotFound? ==> r.error.ServerError?
    ensures r.Ok? ==>
      var i := IndexOf(old(db.notes), id).value;
      && Patched(old(db.notes)[i], data).Some?
      && r.value == Touched(old(db.notes)[i], Patched(old(db.notes)[i], data).value, now)
      && db.notes == old(db.notes)[i := r.value]
    ensures r.Ok? <==> UpdateAccepted(old(db.notes), id, data)
    ensures r.Err? ==> db.notes == old(db.notes)
    ensures db.tasks == old(db.tasks) && db.taskLinks == old(db.taskLinks) && db.noteLinks == old(db.noteLinks)
  {
    r := Update(db, NoteKind, id, data, now);
  }

  /** DELETE /api/cards/{id} and DELETE /api/notes/{id}. */
  method Delete(db: Database, k: Kind, id: string) returns (r: Result<string>)
    requires db.Valid()
    modifies db
    ensures db.Valid()
    ensures r.Err? <==> id !in Ids(old(db.Rows(k)))
    ensures r.Err? ==> r.error == NotFound(NotFoundDetail(k)) && db.Rows(k) == old(db.Rows(k))
    ensures r.Ok? ==> r.value == DeletedMessage(k)
    ensures r.Ok? ==> db.Rows(k) == RemoveAt(old(db.Rows(k)), IndexOf(old(db.Rows(k)), id).value)
    ensures Ids(db.Rows(k)) == Ids(old(db.Rows(k))) - {id}
    ensures db.Rows(Other(k)) == old(db.Rows(Other(k)))
    ensures db.taskLinks == old(db.taskLinks) && db.noteLinks == old(db.noteLinks)
  {
    var rows := db.Rows(k);
    var i := IndexOf(rows, id);
    if i.None? {
      return Err(NotFound(NotFoundDetail(k)));
    }
    RemoveAtIds(rows, i.value);
    SetRows(db, k, RemoveAt(rows, i.value));
    r := Ok(DeletedMessage(k));
  }

  method DeleteCard(db: Database, id: string) returns (r: Result<string>)
    requires db.Valid()
    modifies db
    ensures db.Valid()
    ensures r.Err? <==> id !in Ids(old(db.tasks))
    ensures r.Err? ==> r.error == NotFound(NotFoundDetail(TaskKind))
    ensures r.Ok? ==> r.value == DeletedMessage(TaskKind)
    ensures r.Ok? ==> db.tasks == RemoveAt(old(db.tasks), IndexOf(old(db.tasks), id).value)
    ensures Ids(db.tasks) == Ids(old(db.tasks)) - {id}
    ensures r.Err? ==> db.tasks == old(db.tasks)
    ensures db.notes == old(db.notes) && db.taskLinks == old(db.taskLinks) && db.noteLinks == old(db.noteLinks)
  {
    r := Delete(db, TaskKind, id);
  }

  method DeleteNote(db: Database, id: string) returns (r: Result<string>)
    requires db.Valid()
    modifies db
    ensures db.Valid()
    ensures r.Err? <==> id !in Ids(old(db.notes))
    ensures r.Err? ==> r.error == NotFound(NotFoundDetail(NoteKind))
    ensures r.Ok? ==> r.value == DeletedMessage(NoteKind)
    ensures r.Ok? ==> db.notes == RemoveAt(old(db.notes), IndexOf(old(db.notes), id).value)
    ensures Ids(db.notes) == Ids(old(db.notes)) - {id}
    ensures r.Err? ==> db.notes == old(db.notes)
    ensures db.tasks == old(db.tasks) && db.taskLinks == old(db.taskLinks) && db.noteLinks == old(db.noteLinks)
  {
    r := Delete(db, NoteKind, id);
  }
}
