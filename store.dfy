/** The database the request handlers and the CRUD layer work on, held in
    memory: the tasks and notes tables in row order, the two link tables, and
    the id sequences of the link tables. */
module Store {
  import opened Common
  import opened Records

  /** The primary key of a card table: no two rows share an id. */
  predicate UniqueIds(rows: seq<Card>)
  {
    forall i, j :: 0 <= i < j < |rows| ==> rows[i].id != rows[j].id
  }

  predicate AllOfKind(rows: seq<Card>, k: Kind)
  {
    forall i :: 0 <= i < |rows| ==> rows[i].KindOf() == k
  }

  function Ids(rows: seq<Card>): set<string>
  {
    set c | c in rows :: c.id
  }

  /** The position of the first row with the given id. */
  function IndexOf(rows: seq<Card>, id: string): (r: Option<nat>)
    ensures r.Some? ==> r.value < |rows| && rows[r.value].id == id
    ensures r.Some? ==> forall j :: 0 <= j < r.value ==> rows[j].id != id
    ensures r.None? <==> id !in Ids(rows)
  {
    if rows == [] then None
    else if rows[0].id == id then Some(0)
    else
      var rest := IndexOf(rows[1..], id);
      assert Ids(rows) == {rows[0].id} + Ids(rows[1..]) by {
        assert forall c :: c in rows <==> c == rows[0] || c in rows[1..];
      }
      if rest.None? then None else Some(rest.value + 1)
  }

  function RemoveAt<T>(s: seq<T>, i: nat): seq<T>
    requires i < |s|
  {
    s[..i] + s[i + 1..]
  }

  /** Removing the row at i from a table with unique ids removes exactly the
      id at i and keeps every other row. */
  lemma RemoveAtIds(rows: seq<Card>, i: nat)
    requires i < |rows| && UniqueIds(rows)
    ensures UniqueIds(RemoveAt(rows, i))
    ensures Ids(RemoveAt(rows, i)) == Ids(rows) - {rows[i].id}
    ensures |RemoveAt(rows, i)| == |rows| - 1
  {
    var r := RemoveAt(rows, i);
    assert forall j :: 0 <= j < |r| ==> r[j] == if j < i then rows[j] else rows[j + 1];
    forall id | id in Ids(rows) - {rows[i].id} ensures id in Ids(r) {
      var c :| c in rows && c.id == id;
      var j :| 0 <= j < |rows| && rows[j] == c;
      assert j != i;
      assert c == if j < i then r[j] else r[j - 1];
    }
  }

  /** Replacing the row at i keeps the ids unique when the new id is the old
      one or belongs to no row. */
  lemma ReplaceAtIds(rows: seq<Card>, i: nat, c: Card)
    requires i < |rows| && UniqueIds(rows)
    requires c.id == rows[i].id || c.id !in Ids(rows)
    ensures UniqueIds(rows[i := c])
  {
    forall j | 0 <= j < |rows| && j != i ensures rows[j].id != c.id {
      assert rows[j] in rows;
    }
  }

  lemma AppendIds(rows: seq<Card>, c: Card)
    requires UniqueIds(rows) && c.id !in Ids(rows)
    ensures UniqueIds(rows + [c])
    ensures Ids(rows + [c]) == Ids(rows) + {c.id}
  {
    var r := rows + [c];
    forall j | 0 <= j < |rows| ensures rows[j].id != c.id {
      assert rows[j] in rows;
    }
    assert forall d :: d in r <==> d in rows || d == c;
  }

  function TaskLinkId(l: TaskLink): int { l.id }

  function NoteLinkId(l: NoteLink): int { l.id }

  /** The ids of a link table are distinct and below the table's id
      sequence, read through idOf. */
  predicate LinkIdsOk<L>(links: seq<L>, idOf: L -> int, serial: int)
  {
    && (forall i :: 0 <= i < |links| ==> idOf(links[i]) < serial)
    && (forall i, j :: 0 <= i < j < |links| ==> idOf(links[i]) != idOf(links[j]))
  }

  /** Removing a link keeps the link ids sound and drops exactly that id. */
  lemma RemoveLink<L>(links: seq<L>, idOf: L -> int, serial: int, i: nat)
    requires i < |links| && LinkIdsOk(links, idOf, serial)
    ensures LinkIdsOk(RemoveAt(links, i), idOf, serial)
    ensures |RemoveAt(links, i)| == |links| - 1
    ensures forall j :: 0 <= j < |RemoveAt(links, i)| ==> idOf(RemoveAt(links, i)[j]) != idOf(links[i])
  {
    var rest := RemoveAt(links, i);
    assert forall j :: 0 <= j < |rest| ==> rest[j] == if j < i then links[j] else links[j + 1];
  }

  class Database {
    var tasks: seq<Card>
    var notes: seq<Card>
    var taskLinks: seq<TaskLink>
    var noteLinks: seq<NoteLink>
    /** The next value of the task_links and note_links id sequences. */
    var taskLinkSerial: int
    var noteLinkSerial: int

    ghost predicate Valid()
      reads this
    {
      && UniqueIds(tasks) && AllOfKind(tasks, TaskKind)
      && UniqueIds(notes) && AllOfKind(notes, NoteKind)
      && LinkIdsOk(taskLinks, TaskLinkId, taskLinkSerial)
      && LinkIdsOk(noteLinks, NoteLinkId, noteLinkSerial)
    }

    constructor ()
      ensures Valid()
      ensures tasks == [] && notes == [] && taskLinks == [] && noteLinks == []
    {
      tasks, notes := [], [];
      taskLinks, noteLinks := [], [];
      taskLinkSerial, noteLinkSerial := 1, 1;
    }

    /** The table of the given kind. */
    function Rows(k: Kind): seq<Card>
      reads this
    {
      if k == TaskKind then tasks else notes
    }
  }

  function Other(k: Kind): Kind
  {
    if k == TaskKind then NoteKind else TaskKind
  }

  /** Replace the table of the given kind; nothing else changes. */
  method SetRows(db: Database, k: Kind, rows: seq<Card>)
    modifies db
    ensures db.Rows(k) == rows
    ensures db.Rows(Other(k)) == old(db.Rows(Other(k)))
    ensures db.taskLinks == old(db.taskLinks) && db.noteLinks == old(db.noteLinks)
    ensures db.taskLinkSerial == old(db.taskLinkSerial) && db.noteLinkSerial == old(db.noteLinkSerial)
  {
    if k == TaskKind {
      db.tasks := rows;
    } else {
      db.notes := rows;
    }
  }
}
