/** backend/app/crud/note.py: NoteCRUD, the BaseCRUD over the notes table,
    and the module-level functions that delegate to its one instance. */
module NoteCrud {
  import opened Common
  import opened Records
  import opened Store
  import Crud

  /** get_note. */
  function GetNote(db: Database, noteId: string): (r: Option<Card>)
    reads db
    ensures r.Some? ==> r.value in db.notes && r.value.id == noteId
    ensures r.None? <==> noteId !in Ids(db.notes)
  {
    Crud.Get(db.notes, noteId)
  }

  /** get_notes, with the defaults skip 0 and limit 100. */
  function GetNotes(db: Database, skip: nat := 0, limit: nat := 100): (r: seq<Card>)
    reads db
    ensures |r| <= limit
    ensures skip >= |db.notes| ==> r == []
    ensures skip < |db.notes| ==> |r| == Min(limit, |db.notes| - skip)
    ensures forall i :: 0 <= i < |r| ==> r[i] == db.notes[skip + i]
  {
    Crud.GetMulti(db.notes, skip, limit)
  }

  /** create_note: a NoteCreate dumps task_id and note_type, which the notes
      model does not accept as constructor arguments, so every call raises
      and no note is stored. */
  method CreateNote(db: Database, note: Crud.CardCreate, now: Timestamp) returns (r: Result<Card>)
    requires db.Valid()
    requires note.own.NoteFields?
    modifies db
    ensures db.Valid()
    ensures r.Err? && r.error.ServerError?
    ensures db.notes == old(db.notes) && db.tasks == old(db.tasks)
    ensures db.taskLinks == old(db.taskLinks) && db.noteLinks == old(db.noteLinks)
  {
    r := Crud.Create(db, NoteKind, note, now);
  }

  /** NoteUpdate's task_id names no column of a note, so setting it changes
      nothing that is stored. */
  lemma UpdateIgnoresTaskId(c: Card, noteUpdate: map<string, Json>)
    requires c.KindOf() == NoteKind
    ensures Patched(c, noteUpdate) == Patched(c, noteUpdate - {"task_id"})
  {
    PatchedIgnoresUnknownKeys(c, noteUpdate, "task_id");
  }

  /** update_note: None, and nothing changes, when no note has the id;
      otherwise BaseCRUD.update on that note. */
  method UpdateNote(db: Database, noteId: string, noteUpdate: map<string, Json>, now: Timestamp) returns (r: Result<Option<Card>>)
    requires db.Valid()
    requires Crud.UpdateSchema(NoteKind, noteUpdate)
    modifies db
    ensures db.Valid()
    ensures r == Ok(None) <==> noteId !in Ids(old(db.notes))
    ensures r == Ok(None) ==> db.notes == old(db.notes)
    ensures noteId in Ids(old(db.notes)) ==>
      (r.Ok? && r.value.Some? <==> Patched(old(db.notes)[IndexOf(old(db.notes), noteId).value], noteUpdate).Some?)
    ensures r.Ok? && r.value.Some? ==>
      var i := IndexOf(old(db.notes), noteId).value;
      && Patched(old(db.notes)[i], noteUpdate).Some?
      && r.value.value == Touched(old(db.notes)[i], Patched(old(db.notes)[i], noteUpdate).value, now)
      && r.value.value.id == noteId
      && db.notes == old(db.notes)[i := r.value.value]
    ensures r.Err? ==> r.error.ServerError? && db.notes == old(db.notes)
    ensures db.tasks == old(db.tasks) && db.taskLinks == old(db.taskLinks) && db.noteLinks == old(db.noteLinks)
  {
    var found := GetNote(db, noteId);
    if found.None? {
      return Ok(None);
    }
    Crud.GetUnique(db.notes, found.value);
    var updated := Crud.Update(db, NoteKind, found.value, noteUpdate, now);
    if updated.Err? {
      return Err(updated.error);
    }
    r := Ok(Some(updated.value));
  }

  /** delete_note: BaseCRUD.remove with its 404 turned into false. */
  method DeleteNote(db: Database, noteId: string) returns (deleted: bool)
    requires db.Valid()
    modifies db
    ensures db.Valid()
    ensures deleted <==> noteId in Ids(old(db.notes))
    ensures Ids(db.notes) == Ids(old(db.notes)) - {noteId}
    ensures deleted ==> db.notes == RemoveAt(old(db.notes), IndexOf(old(db.notes), noteId).value)
    ensures !deleted ==> db.notes == old(db.notes)
    ensures db.tasks == old(db.tasks) && db.taskLinks == old(db.taskLinks) && db.noteLinks == old(db.noteLinks)
  {
    var removed := Crud.Remove(db, NoteKind, noteId);
    deleted := removed.Ok?;
  }

  /** get_note_by_position. */
  function GetNoteByPosition(db: Database, x: int, y: int): (r: Option<Card>)
    reads db
    ensures r.Some? ==> r.value in db.notes && r.value.x == Some(x) && r.value.y == Some(y)
    ensures r.None? <==> forall c :: c in db.notes ==> c.x != Some(x) || c.y != Some(y)
  {
    Crud.GetByPosition(db.notes, x, y)
  }
}
