/** backend/app/crud/task.py: TaskCRUD, the BaseCRUD over the tasks table,
    and the module-level functions that delegate to its one instance. */
module TaskCrud {
  import opened Common
  import opened Records
  import opened Store
  import Crud

  /** get_task. */
  function GetTask(db: Database, taskId: string): (r: Option<Card>)
    reads db
    ensures r.Some? ==> r.value in db.tasks && r.value.id == taskId
    ensures r.None? <==> taskId !in Ids(db.tasks)
  {
    Crud.Get(db.tasks, taskId)
  }

  /** get_tasks, with the defaults skip 0 and limit 100. */
  function GetTasks(db: Database, skip: nat := 0, limit: nat := 100): (r: seq<Card>)
    reads db
    ensures |r| <= limit
    ensures skip >= |db.tasks| ==> r == []
    ensures skip < |db.tasks| ==> |r| == Min(limit, |db.tasks| - skip)
    ensures forall i :: 0 <= i < |r| ==> r[i] == db.tasks[skip + i]
  {
    Crud.GetMulti(db.tasks, skip, limit)
  }

  /** With the defaults, get_tasks returns the first hundred tasks. */
  lemma GetTasksDefault(db: Database)
    ensures GetTasks(db) == db.tasks[..Min(100, |db.tasks|)]
  {
    var r := GetTasks(db);
    assert |r| == Min(100, |db.tasks|);
  }

  /** create_task: a TaskCreate is stored as a new row when it carries an
      id no task has. */
  method CreateTask(db: Database, task: Crud.CardCreate, now: Timestamp) returns (r: Result<Card>)
    requires db.Valid()
    requires task.own.TaskFields?
    modifies db
    ensures db.Valid()
    ensures r.Ok? <==> task.id.Some? && task.id.value !in Ids(old(db.tasks))
    ensures r.Ok? ==> r.value == Crud.NewRow(TaskKind, task, now).value && db.tasks == old(db.tasks) + [r.value]
    ensures r.Err? ==> db.tasks == old(db.tasks)
    ensures db.notes == old(db.notes) && db.taskLinks == old(db.taskLinks) && db.noteLinks == old(db.noteLinks)
  {
    r := Crud.Create(db, TaskKind, task, now);
  }

  /** update_task: None, and nothing changes, when no task has the id;
      otherwise BaseCRUD.update on that task. */
  method UpdateTask(db: Database, taskId: string, taskUpdate: map<string, Json>, now: Timestamp) returns (r: Result<Option<Card>>)
    requires db.Valid()
    requires Crud.UpdateSchema(TaskKind, taskUpdate)
    modifies db
    ensures db.Valid()
    ensures r == Ok(None) <==> taskId !in Ids(old(db.tasks))
    ensures r == Ok(None) ==> db.tasks == old(db.tasks)
    ensures taskId in Ids(old(db.tasks)) ==>
      (r.Ok? && r.value.Some? <==> Patched(old(db.tasks)[IndexOf(old(db.tasks), taskId).value], taskUpdate).Some?)
    ensures r.Ok? && r.value.Some? ==>
      var i := IndexOf(old(db.tasks), taskId).value;
      && Patched(old(db.tasks)[i], taskUpdate).Some?
      && r.value.value == Touched(old(db.tasks)[i], Patched(old(db.tasks)[i], taskUpdate).value, now)
      && r.value.value.id == taskId
      && db.tasks == old(db.tasks)[i := r.value.value]
    ensures r.Err? ==> r.error.ServerError? && db.tasks == old(db.tasks)
    ensures db.notes == old(db.notes) && db.taskLinks == old(db.taskLinks) && db.noteLinks == old(db.noteLinks)
  {
    var found := GetTask(db, taskId);
    if found.None? {
      return Ok(None);
    }
    Crud.GetUnique(db.tasks, found.value);
    var updated := Crud.Update(db, TaskKind, found.value, taskUpdate, now);
    if updated.Err? {
      return Err(updated.error);
    }
    r := Ok(Some(updated.value));
  }

  /** delete_task: BaseCRUD.remove with its 404 turned into false. */
  method DeleteTask(db: Database, taskId: string) returns (deleted: bool)
    requires db.Valid()
    modifies db
    ensures db.Valid()
    ensures deleted <==> taskId in Ids(old(db.tasks))
    ensures Ids(db.tasks) == Ids(old(db.tasks)) - {taskId}
    ensures deleted ==> db.tasks == RemoveAt(old(db.tasks), IndexOf(old(db.tasks), taskId).value)
    ensures !deleted ==> db.tasks == old(db.tasks)
    ensures db.notes == old(db.notes) && db.taskLinks == old(db.taskLinks) && db.noteLinks == old(db.noteLinks)
  {
    var removed := Crud.Remove(db, TaskKind, taskId);
    deleted := removed.Ok?;
  }

  /** get_task_by_position. */
  function GetTaskByPosition(db: Database, x: int, y: int): (r: Option<Card>)
    reads db
    ensures r.Some? ==> r.value in db.tasks && r.value.x == Some(x) && r.value.y == Some(y)
    ensures r.None? <==> forall c :: c in db.tasks ==> c.x != Some(x) || c.y != Some(y)
  {
    Crud.GetByPosition(db.tasks, x, y)
  }
}
