/** The task-link and note-link handlers of backend/app/main.py. */
module Links {
  import opened Common
  import opened Records
  import opened Store

  /** Whether a JSON id value is the id of some row (a value of any other
      JSON type equals no string id). */
  predicate HasId(rows: seq<Card>, v: Json)
  {
    v.JStr? && v.s in Ids(rows)
  }

  /** The columns of the link create_task_link stores. */
  datatype LinkFields = LinkFields(sourceId: string, targetId: string, linkType: string, targetType: string)

  const LinkNotFound: string := "Связь не найдена"

  /** The checks of create_task_link, in their order: the two required
      keys, the source task, the target in the table link_target_type names
      (default "card", which names neither), then the NOT NULL string column
      link_type (default "depends_on"). */
  function CheckTaskLink(tasks: seq<Card>, notes: seq<Card>, data: map<string, Json>): (r: Result<LinkFields>)
    ensures r.Ok? ==> r.value.sourceId in Ids(tasks)
    ensures r.Ok? ==>
      || (r.value.targetType == "task" && r.value.targetId in Ids(tasks))
      || (r.value.targetType == "note" && r.value.targetId in Ids(notes))
    ensures r.Ok? ==> "source_id" in data && "target_id" in data && "link_target_type" in data
    ensures r.Ok? ==> JStr(r.value.sourceId) == data["source_id"] && JStr(r.value.targetId) == data["target_id"]
    ensures r.Ok? ==> JStr(r.value.linkType) == Lookup(data, "link_type", JStr("depends_on"))
    ensures r.Ok? ==> JStr(r.value.targetType) == data["link_target_type"]
    // the source is checked before the target and before the target type
    ensures "source_id" in data && "target_id" in data && !HasId(tasks, data["source_id"]) ==>
              r == Err(NotFound("Source card not found"))
    // an omitted target type is the default "card": always a bad request once the source exists
    ensures "source_id" in data && "target_id" in data && HasId(tasks, data["source_id"]) && "link_target_type" !in data ==>
              r == Err(BadRequest("Invalid link_target_type"))
    // once the source exists: the target type decides which table must hold the target
    ensures "source_id" in data && "target_id" in data && HasId(tasks, data["source_id"]) ==>
              var targetType := Lookup(data, "link_target_type", JStr("card"));
              var linkType := Lookup(data, "link_type", JStr("depends_on"));
              && (targetType == JStr("task") && HasId(tasks, data["target_id"]) && linkType.JStr? ==> r.Ok?)
              && (targetType == JStr("note") && HasId(notes, data["target_id"]) && linkType.JStr? ==> r.Ok?)
              && (targetType == JStr("task") && !HasId(tasks, data["target_id"]) ==> r == Err(NotFound("Target card not found")))
              && (targetType == JStr("note") && !HasId(notes, data["target_id"]) ==> r == Err(NotFound("Target note not found")))
              && (targetType != JStr("task") && targetType != JStr("note") ==> r == Err(BadRequest("Invalid link_target_type")))
              && (!linkType.JStr? && ((targetType == JStr("task") && HasId(tasks, data["target_id"])) || (targetType == JStr("note") && HasId(notes, data["target_id"]))) ==>
                    r.Err? && r.error.ServerError?)
    ensures r.Err? && r.error.NotFound? ==> "source_id" in data && "target_id" in data
    ensures "source_id" !in data || "target_id" !in data ==> r.Err? && r.error.ServerError?
  {
    if "source_id" !in data then Err(ServerError("KeyError: 'source_id'"))
    else if "target_id" !in data then Err(ServerError("KeyError: 'target_id'"))
    else
      var source := data["source_id"];
      var target := data["target_id"];
      var targetType := Lookup(data, "link_target_type", JStr("card"));
      if !HasId(tasks, source) then Err(NotFound("Source card not found"))
      else if targetType == JStr("task") && !HasId(tasks, target) then Err(NotFound("Target card not found"))
      else if targetType == JStr("note") && !HasId(notes, target) then Err(NotFound("Target note not found"))
      else if targetType != JStr("task") && targetType != JStr("note") then Err(BadRequest("Invalid link_target_type"))
      else
        var linkType := Lookup(data, "link_type", JStr("depends_on"));
        if !linkType.JStr? then Err(ServerError("the database refused link_type"))
        else Ok(LinkFields(source.s, target.s, linkType.s, targetType.s))
  }

  /** POST /api/task-links: on success exactly one link is appended, under
      the next id of the sequence; on any error no link is stored. */
  method CreateTaskLink(db: Database, data: map<string, Json>, now: Timestamp) returns (r: Result<TaskLink>)
    requires db.Valid()
    modifies db
    ensures db.Valid()
    ensures r.Ok? <==> CheckTaskLink(old(db.tasks), old(db.notes), data).Ok?
    ensures r.Err? ==> r.error == CheckTaskLink(old(db.tasks), old(db.notes), data).error
    ensures r.Err? ==> db.taskLinks == old(db.taskLinks)
    ensures r.Ok? ==>
      var f := CheckTaskLink(old(db.tasks), old(db.notes), data).value;
      r.value == TaskLink(old(db.taskLinkSerial), f.sourceId, f.targetId, f.linkType, f.targetType, now)
    ensures r.Ok? ==> db.taskLinks == old(db.taskLinks) + [r.value]
    ensures db.tasks == old(db.tasks) && db.notes == old(db.notes) && db.noteLinks == old(db.noteLinks)
  {
    var checked := CheckTaskLink(db.tasks, db.notes, data);
    if checked.Err? {
      return Err(checked.error);
    }
    var f := checked.value;
    var link := TaskLink(db.taskLinkSerial, f.sourceId, f.targetId, f.linkType, f.targetType, now);
    db.taskLinks := db.taskLinks + [link];
    db.taskLinkSerial := db.taskLinkSerial + 1;
    r := Ok(link);
  }

  /** The position of the first link whose id, read through idOf, is the
      given one (`filter(Link.id == link_id).first()`). */
  function LinkIndex<L>(links: seq<L>, idOf: L -> int, id: int): (r: Option<nat>)
    ensures r.Some? ==> r.value < |links| && idOf(links[r.value]) == id
    ensures r.None? <==> forall i :: 0 <= i < |links| ==> idOf(links[i]) != id
  {
    if links == [] then None
    else if idOf(links[0]) == id then Some(0)
    else
      var rest := LinkIndex(links[1..], idOf, id);
      assert forall i :: 1 <= i < |links| ==> links[i] == links[1..][i - 1];
      if rest.None? then None else Some(rest.value + 1)
  }

  /** DELETE /api/task-links/{id}: NotFound when no link has the id;
      otherwise exactly that link is removed. */
  method DeleteTaskLink(db: Database, linkId: int) returns (r: Result<string>)
    requires db.Valid()
    modifies db
    ensures db.Valid()
    ensures r.Err? <==> forall i :: 0 <= i < |old(db.taskLinks)| ==> old(db.taskLinks)[i].id != linkId
    ensures r.Err? ==> r.error == NotFound(LinkNotFound) && db.taskLinks == old(db.taskLinks)
    ensures r.Ok? ==> db.taskLinks == RemoveAt(old(db.taskLinks), LinkIndex(old(db.taskLinks), TaskLinkId, linkId).value)
    ensures r.Ok? ==> |db.taskLinks| == |old(db.taskLinks)| - 1
    ensures r.Ok? ==> r.value == "Связь удалена"
    ensures forall i :: 0 <= i < |db.taskLinks| ==> db.taskLinks[i].id != linkId
    ensures db.tasks == old(db.tasks) && db.notes == old(db.notes) && db.noteLinks == old(db.noteLinks)
  {
    var i := LinkIndex(db.taskLinks, TaskLinkId, linkId);
    if i.None? {
      return Err(NotFound(LinkNotFound));
    }
    RemoveLink(db.taskLinks, TaskLinkId, db.taskLinkSerial, i.value);
    db.taskLinks := RemoveAt(db.taskLinks, i.value);
    r := Ok("Связь удалена");
  }

  /** The fields create_note_link stores: both ids are required keys of NOT
      NULL string columns; link_type defaults to "linked_to", and a null
      link_type is left out of the INSERT, so the column default
      "linked_to" is stored. The notes are never consulted. */
  function CheckNoteLink(data: map<string, Json>): (r: Result<(string, string, string)>)
    ensures r.Ok? <==>
      && "source_id" in data && data["source_id"].JStr?
      && "target_id" in data && data["target_id"].JStr?
      && (Lookup(data, "link_type", JStr("linked_to")).JStr? || Lookup(data, "link_type", JStr("linked_to")).JNull?)
    ensures r.Ok? ==> JStr(r.value.0) == data["source_id"] && JStr(r.value.1) == data["target_id"]
    ensures r.Ok? ==> JStr(r.value.2) == Lookup(data, "link_type", JStr("linked_to")) || (r.value.2 == "linked_to" && data["link_type"] == JNull)
    ensures r.Err? ==> r.error.ServerError?
  {
    if "source_id" !in data then Err(ServerError("KeyError: 'source_id'"))
    else if "target_id" !in data then Err(ServerError("KeyError: 'target_id'"))
    else
      var source := data["source_id"];
      var target := data["target_id"];
      var linkType := Lookup(data, "link_type", JStr("linked_to"));
      if !source.JStr? || !target.JStr? || !(linkType.JStr? || linkType.JNull?) then
        Err(ServerError("the database refused a value of the body"))
      else
        Ok((source.s, target.s, if linkType.JStr? then linkType.s else "linked_to"))
  }

  /** POST /api/note-links: no existence check; a well-formed body always
      appends exactly one link, whether or not its notes exist. */
  method CreateNoteLink(db: Database, data: map<string, Json>, now: Timestamp) returns (r: Result<NoteLink>)
    requires db.Valid()
    modifies db
    ensures db.Valid()
    ensures r.Ok? <==> CheckNoteLink(data).Ok?
    ensures r.Ok? ==>
      var f := CheckNoteLink(data).value;
      r.value == NoteLink(old(db.noteLinkSerial), f.0, f.1, f.2, now)
    ensures r.Ok? ==> db.noteLinks == old(db.noteLinks) + [r.value]
    ensures r.Err? ==> db.noteLinks == old(db.noteLinks)
    ensures db.tasks == old(db.tasks) && db.notes == old(db.notes) && db.taskLinks == old(db.taskLinks)
  {
    var checked := CheckNoteLink(data);
    if checked.Err? {
      return Err(checked.error);
    }
    var f := checked.value;
    var link := NoteLink(db.noteLinkSerial, f.0, f.1, f.2, now);
    db.noteLinks := db.noteLinks + [link];
    db.noteLinkSerial := db.noteLinkSerial + 1;
    r := Ok(link);
  }

  /** DELETE /api/note-links/{id}. */
  method DeleteNoteLink(db: Database, linkId: int) returns (r: Result<string>)
    requires db.Valid()
    modifies db
    ensures db.Valid()
    ensures r.Err? <==> forall i :: 0 <= i < |old(db.noteLinks)| ==> old(db.noteLinks)[i].id != linkId
    ensures r.Err? ==> r.error == NotFound(LinkNotFound) && db.noteLinks == old(db.noteLinks)
    ensures r.Ok? ==> db.noteLinks == RemoveAt(old(db.noteLinks), LinkIndex(old(db.noteLinks), NoteLinkId, linkId).value)
    ensures r.Ok? ==> |db.noteLinks| == |old(db.noteLinks)| - 1
    ensures r.Ok? ==> r.value == "Связь удалена"
    ensures forall i :: 0 <= i < |db.noteLinks| ==> db.noteLinks[i].id != linkId
    ensures db.tasks == old(db.tasks) && db.notes == old(db.notes) && db.taskLinks == old(db.taskLinks)
  {
    var i := LinkIndex(db.noteLinks, NoteLinkId, linkId);
    if i.None? {
      return Err(NotFound(LinkNotFound));
    }
    RemoveLink(db.noteLinks, NoteLinkId, db.noteLinkSerial, i.value);
    db.noteLinks := RemoveAt(db.noteLinks, i.value);
    r := Ok("Связь удалена");
  }
}
