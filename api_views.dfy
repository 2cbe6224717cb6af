/** The read-only views of backend/app/main.py: title search and the graph
    projection. */
module Views {
  import opened Common
  import opened Records
  import opened Store

  /** Lower-casing of one character: ASCII letters, the basic Cyrillic
      capitals А..Я and Ё. */
  function Lower(ch: char): char
  {
    if 'A' <= ch <= 'Z' then (ch as int + 32) as char
    else if 'А' <= ch <= 'Я' then (ch as int + 32) as char
    else if ch == 'Ё' then 'ё'
    else ch
  }

  function LowerStr(s: string): (r: string)
    ensures |r| == |s|
    ensures forall i :: 0 <= i < |s| ==> r[i] == Lower(s[i])
  {
    if s == [] then [] else [Lower(s[0])] + LowerStr(s[1..])
  }

  /** Whether q occurs in s as a contiguous piece. */
  predicate HasInfix(s: string, q: string)
    decreases |s|
  {
    q <= s || (s != [] && HasInfix(s[1..], q))
  }

  /** q sits in s starting at offset i. */
  predicate OccursAt(s: string, q: string, i: int)
  {
    0 <= i && i + |q| <= |s| && s[i..i + |q|] == q
  }

  /** An infix found by HasInfix sits at some offset. */
  lemma {:induction false} InfixOffset(s: string, q: string) returns (i: int)
    requires HasInfix(s, q)
    ensures OccursAt(s, q, i)
    decreases |s|
  {
    if q <= s {
      i := 0;
    } else {
      var j := InfixOffset(s[1..], q);
      assert s[1..][j..j + |q|] == s[j + 1..j + 1 + |q|];
      i := j + 1;
    }
  }

  /** A piece at any offset is found by HasInfix. */
  lemma {:induction false} OffsetInfix(s: string, q: string, i: int)
    requires OccursAt(s, q, i)
    ensures HasInfix(s, q)
    decreases i
  {
    if i > 0 {
      assert s[1..][i - 1..i - 1 + |q|] == s[i..i + |q|];
      OffsetInfix(s[1..], q, i - 1);
    }
  }

  /** HasInfix means: q sits in s at some offset. */
  lemma HasInfixAt(s: string, q: string)
    ensures HasInfix(s, q) <==> exists i :: OccursAt(s, q, i)
  {
    if HasInfix(s, q) {
      var i := InfixOffset(s, q);
    }
    forall i | OccursAt(s, q, i) ensures HasInfix(s, q) {
      OffsetInfix(s, q, i);
    }
  }

  /** title ILIKE '%q%'. */
  predicate TitleMatches(title: string, q: string)
  {
    HasInfix(LowerStr(title), LowerStr(q))
  }

  /** The rows whose title matches, in table order. */
  function SelectByTitle(rows: seq<Card>, q: string): (r: seq<Card>)
    ensures forall c :: c in r <==> c in rows && TitleMatches(c.title, q)
    ensures |r| <= |rows|
  {
    if rows == [] then []
    else
      var rest := SelectByTitle(rows[1..], q);
      assert forall c :: c in rows <==> c == rows[0] || c in rows[1..];
      if TitleMatches(rows[0].title, q) then [rows[0]] + rest else rest
  }

  /** Selection keeps table order: selecting from two pieces of a table is
      selecting from each piece. */
  lemma {:induction false} SelectByTitleAppend(a: seq<Card>, b: seq<Card>, q: string)
    ensures SelectByTitle(a + b, q) == SelectByTitle(a, q) + SelectByTitle(b, q)
  {
    if a == [] {
      assert a + b == b;
    } else {
      assert (a + b)[1..] == a[1..] + b;
      SelectByTitleAppend(a[1..], b, q);
    }
  }

  datatype Found = Found(cards: seq<Card>, notes: seq<Card>)

  /** GET /api/search?q=: the tasks and, separately, the notes whose title
      contains q, case-insensitively; content is never consulted. */
  function Search(db: Database, q: string): (r: Found)
    reads db
    ensures forall c :: c in r.cards <==> c in db.tasks && TitleMatches(c.title, q)
    ensures forall c :: c in r.notes <==> c in db.notes && TitleMatches(c.title, q)
  {
    Found(SelectByTitle(db.tasks, q), SelectByTitle(db.notes, q))
  }

  /** Changing a row's content never changes whether it is found. */
  lemma SearchIgnoresContent(c: Card, content: Json, q: string)
    ensures c in SelectByTitle([c], q) <==> c.(content := content) in SelectByTitle([c.(content := content)], q)
  {
  }

  /** A graph node: the dict get_graph appends per task and per note. */
  datatype Node = Node(id: string, title: string, nodeType: string, x: Option<int>, y: Option<int>)

  /** A graph edge: a task link carries its target_type; a note link has no
      such key. */
  datatype Edge =
    | TaskEdge(source: string, target: string, linkType: string, targetType: string)
    | NoteEdge(source: string, target: string, linkType: string)

  /** GET /api/graph: one node per task (type "card") and then one per note
      (type "note"), one edge per task link and then one per note link. The
      database is only read. */
  method GetGraph(db: Database) returns (nodes: seq<Node>, edges: seq<Edge>)
    ensures |nodes| == |db.tasks| + |db.notes|
    ensures forall i :: 0 <= i < |db.tasks| ==>
      nodes[i] == Node(db.tasks[i].id, db.tasks[i].title, "card", db.tasks[i].x, db.tasks[i].y)
    ensures forall j :: 0 <= j < |db.notes| ==>
      nodes[|db.tasks| + j] == Node(db.notes[j].id, db.notes[j].title, "note", db.notes[j].x, db.notes[j].y)
    ensures |edges| == |db.taskLinks| + |db.noteLinks|
    ensures forall i :: 0 <= i < |db.taskLinks| ==>
      var l := db.taskLinks[i]; edges[i] == TaskEdge(l.sourceId, l.targetId, l.linkType, l.targetType)
    ensures forall j :: 0 <= j < |db.noteLinks| ==>
      var l := db.noteLinks[j]; edges[|db.taskLinks| + j] == NoteEdge(l.sourceId, l.targetId, l.linkType)
  {
    var cards, notes := db.tasks, db.notes;
    var taskLinks, noteLinks := db.taskLinks, db.noteLinks;
    nodes, edges := [], [];
    for i := 0 to |cards|
      invariant |nodes| == i
      invariant forall k :: 0 <= k < i ==> nodes[k] == Node(cards[k].id, cards[k].title, "card", cards[k].x, cards[k].y)
    {
      nodes := nodes + [Node(cards[i].id, cards[i].title, "card", cards[i].x, cards[i].y)];
    }
    for j := 0 to |notes|
      invariant |nodes| == |cards| + j
      invariant forall k :: 0 <= k < |cards| ==> nodes[k] == Node(cards[k].id, cards[k].title, "card", cards[k].x, cards[k].y)
      invariant forall k :: 0 <= k < j ==> nodes[|cards| + k] == Node(notes[k].id, notes[k].title, "note", notes[k].x, notes[k].y)
    {
      nodes := nodes + [Node(notes[j].id, notes[j].title, "note", notes[j].x, notes[j].y)];
    }
    for i := 0 to |taskLinks|
      invariant |edges| == i
      invariant forall k :: 0 <= k < i ==>
        edges[k] == TaskEdge(taskLinks[k].sourceId, taskLinks[k].targetId, taskLinks[k].linkType, taskLinks[k].targetType)
    {
      var l := taskLinks[i];
      edges := edges + [TaskEdge(l.sourceId, l.targetId, l.linkType, l.targetType)];
    }
    for j := 0 to |noteLinks|
      invariant |edges| == |taskLinks| + j
      invariant forall k :: 0 <= k < |taskLinks| ==>
        edges[k] == TaskEdge(taskLinks[k].sourceId, taskLinks[k].targetId, taskLinks[k].linkType, taskLinks[k].targetType)
      invariant forall k :: 0 <= k < j ==>
        edges[|taskLinks| + k] == NoteEdge(noteLinks[k].sourceId, noteLinks[k].targetId, noteLinks[k].linkType)
    {
      var l := noteLinks[j];
      edges := edges + [NoteEdge(l.sourceId, l.targetId, l.linkType)];
    }
  }
}
