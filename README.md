# Canvas of tasks and notes: a Dafny model of its entity store

The application is a canvas of task cards and notes that can be linked to one another.
This project models the part of it that keeps those entities and applies the
canvas's rules to them:

- **Request handlers** (`backend/app/main.py`), modules `Api`, `Links` and
  `Views`:
  - the z-index rule
  - create, get, list, update and delete for cards (rows of the `tasks`
    table) and notes
  - task-link validation and creation, and the unvalidated note-link
    creation
  - link deletion, title search and the graph projection
- **Generic CRUD layer** (`backend/app/crud/base.py`), module `Crud`, and
  its task and note wrappers (`crud/task.py`, `crud/note.py`), modules
  `TaskCrud` and `NoteCrud`.
- **Client's canvas store** (`frontend/src/stores/canvas.js`), module
  `CanvasState`: the local state changes its actions make once the server
  has answered.
- **Client's element service**
  (`frontend/src/services/CanvasElementService.js`), module
  `ElementService`: maximum z, bring-to-front and sorting by z.

## How the model is built

- **Database.** The tables live in the in-memory `Store.Database` class.
  `tasks` and `notes` are `seq<Card>`, so row order means what
  `first()`, `offset` and `limit` read. There are two link tables, and one
  id sequence per link table. `Database.Valid` holds that ids are unique in
  each table and that link ids are below their sequence.
- **Handlers.** Each handler is a method or function taking the database,
  as the Python handlers take their session. It returns `Ok` or the
  `Error` the handler raises:
  - `NotFound` and `BadRequest` are the HTTP 404 and 400.
  - `ServerError` is a Python exception or a failed commit.
- **Parameters.** The UUID a create draws and the server clock reading are
  parameters.
- **Request bodies.** A body is a `map<string, Json>`. A value is written
  to a column only if the column can hold it (`Records.Fits`). Otherwise
  the commit fails and nothing is stored.
- **`None` on INSERT.** A `None` passed to a model constructor is left out
  of the INSERT, so a column with a Python-side default gets that default:
  - `create_card` with `"x": null` stores x = 0.
  - `create_note_link` with `"link_type": null` stores `"linked_to"`.
- **`None` on UPDATE.** A `None` set by an update is written as NULL. The
  integer columns x, y, width and height are therefore `Option<int>`.
- **`updated_at`.** It is an `onupdate` column, so an update stamps it only
  when the row actually changes (`Records.Touched`).
- **Client side.** The frontend's objects are `map<string, Json>`. A
  server answer is a parameter, and `None` stands for a request that
  rejects.

Where the files disagree with one another, the model takes these choices:

- **Notes have a z column.** `backend/app/models/note.py` declares no
  `z_index` column, but `main.py` reads and writes `Note.z_index` and the
  client orders notes by it. The model gives notes a z column, following
  what the handlers evidently intend rather than the code as it runs: with
  the note model as given, the query at `main.py:62` and the `z_index`
  argument of the constructor call at `main.py:141` would raise.
- **`BaseCRUD.create` only stores tasks.** It passes every schema field to
  the model constructor. A `TaskCreate` fits the task model. A
  `NoteCreate` carries `task_id` and `note_type`, which the note model
  lacks, so `NoteCrud.CreateNote` always fails.
- **`NoteUpdate.task_id` is dropped.** It names no column of a note, so
  setting it stores nothing (`NoteCrud.UpdateIgnoresTaskId`).

## Model

| member | source | states |
|---|---|---|
| Api.NextZIndex | backend/app/main.py:60-70 | the next z-index is at least 1, above every task and note z, and is 1 or one more than some task's or note's z |
| Api.NextZIndexAsWrittenFails | backend/app/main.py:60-76 | as written the rule never yields a value, while the intended rule yields at least 1 |
| Api.GetMaxZIndex | backend/app/main.py:299-302 | the reported maximum is at least 0, at least every z, and is 0 or some row's z |
| Records.TopZ | backend/app/main.py:61-62 | the highest z of a table is absent exactly for an empty table, bounds every z and is attained |
| Records.AttrOf | backend/app/main.py:111-113 | a body key names an attribute only when the row's table has it, and then the attribute's column is that key |
| Records.AttrOfColumn | backend/app/main.py:112 | every attribute a table has is found under its own column name |
| Records.SetAttr | backend/app/main.py:113 | one setattr writes the given value to that attribute and leaves every other attribute, the kind and the timestamps unchanged |
| Records.PatchedAttrs | backend/app/main.py:111-113 | after an update each attribute holds the body's value when the body names its column and its old value otherwise; kind and timestamps are unchanged |
| Records.PatchedFails | backend/app/main.py:111-115 | the update's commit fails exactly when some body key names a column and its value does not fit that column |
| Records.PatchedIgnoresUnknownKeys | backend/app/main.py:111-112 | a key that names no attribute has no effect |
| Records.ApplyPatch | backend/app/main.py:111-115 | the setattr loop over the body yields the patched row, or fails exactly when the commit would |
| Store.IndexOf | backend/app/main.py:107 | the filter-first lookup finds the first row with the id, and finds none exactly when no row has it |
| Api.BuildCardFields | backend/app/main.py:73-92 | a created row has the new id, the requested kind, task_type "task", created_at now and no updated_at; each filled attribute is the body's value, else its default (title "Новая задача"/"Новая заметка", content [], x 100, y 100, z next z-index, width 300, height 200, reference null), a null on an integer column becoming the column default |
| Api.BuildCardFails | backend/app/main.py:78-90 | create fails exactly when a filled attribute is supplied with a value the INSERT does not take |
| Api.BuildCardIgnoresOtherKeys | backend/app/main.py:78-88 | create reads only the keys of the attributes it fills |
| Api.CreatedOnTop | backend/app/main.py:76 | a card created without z_index lands above every task and note, at z at least 1 |
| Api.Create | backend/app/main.py:73-92 | create appends exactly the built row under the fresh id; on a refused value or a taken id it stores nothing; no other table changes |
| Api.CreateCard | backend/app/main.py:73-92 | create_card appends one task built from the body; notes and links are unchanged |
| Api.CreateNote | backend/app/main.py:130-149 | create_note appends one note built from the body; tasks and links are unchanged |
| Api.GetAll | backend/app/main.py:94-96 | get_cards/get_notes return every row of the table, in table order |
| Api.Get | backend/app/main.py:98-103 | get returns a row of the table with the id, and NotFound with "Карточка не найдена"/"Заметка не найдена" exactly when no row has it |
| Api.Update | backend/app/main.py:105-117 | a missing id is NotFound with "Карточка не найдена"/"Заметка не найдена"; the update commits exactly when a row has the id, every value of the body fits its column and the patched id is the row's own or free (UpdateAccepted); then the row becomes the patched row, stamped when changed, in place; otherwise the failed commit is a ServerError and nothing is stored; other tables unchanged |
| Api.UpdateCard | backend/app/main.py:105-117 | update_card on the tasks table as Api.Update: NotFound "Карточка не найдена" for a missing id, success exactly when the update is accepted, ServerError otherwise; notes and links unchanged |
| Api.UpdateNote | backend/app/main.py:162-174 | update_note on the notes table as Api.Update: NotFound "Заметка не найдена" for a missing id, success exactly when the update is accepted, ServerError otherwise; tasks and links unchanged |
| Api.Delete | backend/app/main.py:119-127 | a missing id is NotFound and changes nothing; otherwise exactly that row is removed, the message returned, the id is gone and nothing else changes |
| Api.DeleteCard | backend/app/main.py:119-127 | delete_card removes exactly the task with the id and returns "Карточка удалена", or is NotFound "Карточка не найдена" and changes nothing |
| Api.DeleteNote | backend/app/main.py:176-184 | delete_note removes exactly the note with the id and returns "Заметка удалена", or is NotFound "Заметка не найдена" and changes nothing |
| Links.CheckTaskLink | backend/app/main.py:188-216 | source_id and target_id are required keys; a missing source task is NotFound "Source card not found" before any other check; once the source exists, type "task" needs the target among the tasks (else "Target card not found"), type "note" among the notes (else "Target note not found"), any other or omitted type is BadRequest "Invalid link_target_type"; with the target found a string or absent link_type (default "depends_on") is accepted and any other value makes the commit fail |
| Links.CreateTaskLink | backend/app/main.py:187-221 | on success exactly one link is appended under the next sequence id; on any error no link is stored; cards and notes unchanged |
| Links.LinkIndex | backend/app/main.py:229 | finds the position of a link with the id, and none exactly when no link has it; used for task links and note links alike (line 256) |
| Links.DeleteTaskLink | backend/app/main.py:227-235 | a missing link id is NotFound "Связь не найдена"; otherwise exactly that link is removed, "Связь удалена" is returned and no other table changes |
| Links.CheckNoteLink | backend/app/main.py:240-244 | a note link is accepted exactly when both ids are strings and link_type is a string or null; it defaults to "linked_to"; notes are never consulted |
| Links.CreateNoteLink | backend/app/main.py:238-248 | a well-formed body always appends exactly one link, whether or not its notes exist |
| Links.DeleteNoteLink | backend/app/main.py:254-262 | a missing link id is NotFound "Связь не найдена"; otherwise exactly that link is removed and "Связь удалена" is returned |
| Views.LowerStr | backend/app/main.py:308 | case folding keeps the length and folds character by character |
| Views.HasInfixAt | backend/app/main.py:308 | the infix test holds exactly when q occurs in the title at some offset |
| Views.SelectByTitle | backend/app/main.py:308-309 | a row is selected exactly when it is in the table and its title contains q case-insensitively |
| Views.SelectByTitleAppend | backend/app/main.py:308-309 | selection keeps table order |
| Views.Search | backend/app/main.py:305-310 | the cards found are exactly the matching tasks and the notes found exactly the matching notes |
| Views.GetGraph | backend/app/main.py:313-360 | exactly \|tasks\|+\|notes\| nodes, tasks first typed "card" then notes typed "note", each with id, title and position; exactly \|task_links\|+\|note_links\| edges in that order, only task-link edges carrying target_type; the database is only read |
| Crud.CreateDefaultsDiffer | backend/app/crud/base.py:20-25 | a TaskCreate left at its schema defaults is stored at (0, 0) with z-index 0, while create_card with only a title stores the card at (100, 100) at the next z-index, at least 1; both give 300 x 200 |
| Crud.Get | backend/app/crud/base.py:14-15 | get returns a row with the id, and None exactly when no row has it |
| Crud.GetUnique | backend/app/crud/base.py:14-15 | in a table with unique ids, get on a row's id returns that row |
| Crud.GetMulti | backend/app/crud/base.py:17-18 | get_multi returns the contiguous window of min(limit, rows left) rows starting at skip |
| Crud.GetMultiPages | backend/app/crud/base.py:17-18 | two adjacent pages concatenate to the page spanning both |
| Crud.GetMultiAll | backend/app/crud/base.py:17-18 | a page from 0 at least as long as the table is the whole table |
| Crud.NewRow | backend/app/crud/base.py:20-25 | the constructor builds a row only for a TaskCreate on the task table with an id; every schema field is copied, a missing created_at becomes now |
| Crud.Create | backend/app/crud/base.py:20-25 | create appends exactly the built row, or stores nothing and raises |
| Crud.UpdateKeepsId | backend/app/crud/base.py:27-29 | an update schema cannot rename a row |
| Crud.Update | backend/app/crud/base.py:27-32 | update writes exactly the fields that were set, nulls included, onto the row in place, stamped when changed; a refused value stores nothing; other rows and tables unchanged |
| Crud.Remove | backend/app/crud/base.py:34-40 | a missing id raises NotFound "Task not found"/"Note not found" and changes nothing; otherwise the row is removed and returned |
| Crud.GetAfterCreate | backend/app/crud/base.py:14-25 | after a row is appended under a fresh id, get returns it |
| Crud.GetAfterRemove | backend/app/crud/base.py:34-40 | after the row with an id is removed, get finds nothing |
| Crud.GetByPosition | backend/app/crud/base.py:42-44 | the result has exactly the given coordinates, and is None exactly when no row has them |
| Crud.NextZIndexOf | backend/app/crud/base.py:46-49 | an empty table or a top z of 0 gives 1; otherwise the result is the top z plus one, even when that is not positive; it is above every z of the table |
| Crud.NextZIndexOfBelowGlobal | backend/app/crud/base.py:46-49 | the per-table rule never exceeds the handlers' rule over tasks and notes, and equals it when there are no notes and no negative z |
| TaskCrud.GetTask | backend/app/crud/task.py:37-38 | returns a task with the id, or None exactly when none has it |
| TaskCrud.GetTasks | backend/app/crud/task.py:41-42 | returns at most limit tasks: the window starting at skip |
| TaskCrud.GetTasksDefault | backend/app/crud/task.py:41-42 | with the defaults skip 0 and limit 100 the result is the first hundred tasks |
| TaskCrud.CreateTask | backend/app/crud/task.py:12-13 | a TaskCreate is stored exactly when it carries an id no task has |
| TaskCrud.UpdateTask | backend/app/crud/task.py:15-19 | a missing id returns None and changes nothing; for a present id the update succeeds exactly when the patch fits the task, and then the task is replaced in place by the patched, stamped row |
| TaskCrud.DeleteTask | backend/app/crud/task.py:21-26 | returns true exactly when the task existed; afterwards the id is absent; false leaves the tasks unchanged |
| TaskCrud.GetTaskByPosition | backend/app/crud/task.py:28-30 | a task at exactly (x, y), or None exactly when there is none |
| NoteCrud.GetNote | backend/app/crud/note.py:37-38 | returns a note with the id, or None exactly when none has it |
| NoteCrud.GetNotes | backend/app/crud/note.py:41-42 | returns at most limit notes: the window starting at skip |
| NoteCrud.CreateNote | backend/app/crud/note.py:12-13 | every create_note raises and stores nothing |
| NoteCrud.UpdateIgnoresTaskId | backend/app/schemas/note.py:12-20 | a NoteUpdate's task_id has no effect on the stored note |
| NoteCrud.UpdateNote | backend/app/crud/note.py:15-19 | a missing id returns None and changes nothing; for a present id the update succeeds exactly when the patch fits the note, and then the note is replaced in place by the patched, stamped row |
| NoteCrud.DeleteNote | backend/app/crud/note.py:21-26 | returns true exactly when the note existed; afterwards the id is absent; false leaves the notes unchanged |
| NoteCrud.GetNoteByPosition | backend/app/crud/note.py:28-30 | a note at exactly (x, y), or None exactly when there is none |
| CanvasState.MaxZBounds | frontend/src/stores/canvas.js:122-131 | the maximum is at least 0, at least every numeric z_index, and is 0 or some element's z_index |
| CanvasState.CanvasStore.GetMaxZIndex | frontend/src/stores/canvas.js:122-131 | the two loops compute the maximum over the cards followed by the notes |
| CanvasState.FindIndex | frontend/src/stores/canvas.js:53 | findIndex gives the first position with the id, or -1 exactly when none has it |
| CanvasState.Without | frontend/src/stores/canvas.js:68 | the filter keeps exactly the elements without the id |
| CanvasState.WithoutAppend | frontend/src/stores/canvas.js:68 | the filter keeps relative order |
| CanvasState.CanvasStore.constructor | frontend/src/stores/canvas.js:5-14 | the store starts with empty lists, nothing selected, scale 1 and offset 0 |
| CanvasState.CanvasStore.Outgoing | frontend/src/stores/canvas.js:36-40 | the posted body is the caller's data, given z_index max_z_index + 1 when it has none; no body when that request fails |
| CanvasState.CanvasStore.CreateCard | frontend/src/stores/canvas.js:34-48 | the answer is appended to the cards only after a successful post; existing cards and all other state untouched |
| CanvasState.CanvasStore.UpdateCard | frontend/src/stores/canvas.js:50-63 | the answer is merged into only the first card with the id; no change when none has it or the put fails |
| CanvasState.CanvasStore.DeleteCard | frontend/src/stores/canvas.js:65-73 | after a successful delete the cards are the filtered list |
| CanvasState.CanvasStore.CreateNote | frontend/src/stores/canvas.js:75-89 | the answer is appended to the notes only after a successful post |
| CanvasState.CanvasStore.UpdateNote | frontend/src/stores/canvas.js:91-104 | the answer is merged into only the first note with the id |
| CanvasState.CanvasStore.CreateTaskLink | frontend/src/stores/canvas.js:106-115 | the answer is appended to the task links; the other lists are unchanged |
| CanvasState.CanvasStore.SetSelectedElement | frontend/src/stores/canvas.js:117-119 | sets the selection and nothing else |
| CanvasState.CanvasStore.SetTransform | frontend/src/stores/canvas.js:133-137 | sets scale, x and y exactly and nothing else |
| CanvasState.UpdateKeepsId | frontend/src/stores/canvas.js:50-57 | when the answer keeps the id, the merged card is still the one found under it |
| CanvasState.CreateKeepsPositions | frontend/src/stores/canvas.js:42 | appending keeps every existing card at its position |
| CanvasState.MaxZRaise | frontend/src/services/CanvasElementService.js:22-35 | raising one element's z_index to at least the maximum makes it the maximum |
| ElementService.CanvasElementService.constructor | frontend/src/services/CanvasElementService.js:5-7 | the service works on the store it is given |
| ElementService.CanvasElementService.GetMaxZIndex | frontend/src/services/CanvasElementService.js:12-20 | the loop computes the maximum over the cards followed by the notes, ignoring non-numeric z_index |
| ElementService.CanvasElementService.BringToFront | frontend/src/services/CanvasElementService.js:22-35 | returns the maximum plus one; only the first card with the id when the type is exactly "card", else the first note with the id, gets that z_index; nothing else changes |
| ElementService.BringToFrontAbove | frontend/src/services/CanvasElementService.js:22-24 | the returned value is at least 1 and above every numeric z_index before the call |
| ElementService.RaiseCardTop | frontend/src/services/CanvasElementService.js:26-32 | raising a found card to the maximum plus one makes it the maximum over cards and notes |
| ElementService.RaiseNoteTop | frontend/src/services/CanvasElementService.js:26-32 | raising a found note to the maximum plus one makes it the maximum over cards and notes |
| ElementService.BringToFrontTop | frontend/src/services/CanvasElementService.js:22-35 | when the element is found, the maximum afterwards is the returned value; when not, the lists are unchanged |
| ElementService.RaisedFrame | frontend/src/services/CanvasElementService.js:26-32 | at most one element changes, and in it only z_index |
| ElementService.InsertByZ | frontend/src/services/CanvasElementService.js:40-43 | inserting into a list sorted by `z_index \|\| 0` keeps it sorted, makes it one longer, and its head is either the element or the old head |
| ElementService.InsertByZPerm | frontend/src/services/CanvasElementService.js:40-43 | insertion adds exactly the inserted element and loses none |
| ElementService.SortByZ | frontend/src/services/CanvasElementService.js:40-43 | the sort yields a permutation that is non-decreasing in `z_index \|\| 0` |
| ElementService.CanvasElementService.GetSortedElements | frontend/src/services/CanvasElementService.js:40-43 | the result is a permutation of the cards followed by the notes, non-decreasing in `z_index \|\| 0`; the store is only read |

## Left out

- The missing `z_index` attribute of the note model: as written, `Note.z_index` in `get_next_z_index` and `Note(z_index=…)` in `create_note` raise; the model stores a z for notes instead.
- File upload and download, the health endpoint, CORS and static mounts, table creation with its retry, sessions, commits and `refresh`: I/O and framework wiring. A commit appears only as success or failure.
- `get_task_links` and `get_note_links` (backend/app/main.py:223-225, 250-252) return the link tables unchanged, which are the `taskLinks` and `noteLinks` fields of `Store.Database`; they have no member of their own.
- Foreign keys, relationship cascades and the ORM mapper configuration: deleting a task or a note leaves links that name it, and a link's ids are never checked against other tables at the database level.
- Attributes of the ORM object that are not modelled columns (created_at, updated_at, relationship names, class-level attributes): keys naming them in an update body are treated as unknown keys.
- Records.Fits: values are checked strictly by JSON type, so PostgreSQL's assignment casts (a numeric string into an integer column, a number into a text column) are not modelled; such bodies are refused in the model although the database may store them.
- Api.Update: a null z_index is modelled as refused, because z is kept non-null for the ordering rules; the database would store NULL, which PostgreSQL orders first in `order_by(desc)`.
- Crud.Update: the same null z_index case as Api.Update.
- Integer width: the integer columns are 32-bit in the database and unbounded here; the JSON numbers of a body are integers, and fractional numbers are not modelled.
- Ids of other JSON types: an id in a link body that is not a string never matches a row.
- UUID generation and server timestamps are parameters; a UUID collision is modelled as a failed commit.
- Views.TitleMatches: case folding covers ASCII and basic Cyrillic letters only, and `%` and `_` inside q are matched literally rather than as ILIKE wildcards.
- Crud.GetMulti: a negative skip or limit (an SQL error) is excluded by the types.
- The client's axios calls and their interleaving, `loadData`, and logging: each action is modelled by its local effect given the server's answer.
- Aliasing on the client: `Object.assign` and `element.z_index = …` mutate shared objects in place, so another holder of the same object (such as `selectedElement`) would see the change; the model updates the list entries only. The mutation of the caller's `cardData` is modelled as the returned body that was sent.
- CanvasState.ZOf: a z_index that is not a number (a numeric string, a boolean) is treated as absent, while JavaScript would coerce it in `>` and in `-`.
- ElementService.CanvasElementService.GetSortedElements: the sort is stable in JavaScript and `SortByZ` is stable by construction, but stability is not stated as a contract.

## Findings

| source | as written | input that shows it | evidently intended | confidence | as-written member | corrected member |
|---|---|---|---|---|---|---|
| backend/app/main.py:65-66 | reads `max_card_z`, a name never bound (line 61 binds `max_task_z`), so `get_next_z_index` raises NameError; since `card_data.get("z_index", get_next_z_index(db))` evaluates its default first, every create_card and create_note fails, even with z_index supplied, and so does get_max_z_index | POST /api/cards with body `{}` on an empty database | use the top task's z_index, giving max(0, top task z, top note z) + 1 | not executed | Api.NextZIndexAsWritten | Api.NextZIndex |
