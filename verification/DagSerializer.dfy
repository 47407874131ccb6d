/**
 The canonical form of a DAG (packages/shared/src/dag/dag-serializer.ts). `localeCompare` is the
 parameter `compare`: any consistent comparison, which may find different ids equal.
 */
module DagSerializer {
  import opened Types
  import opened Sequences
  import opened Graphs
  import opened StableSorting
  import DagValidator

  datatype TaskRow = TaskRow(id: Id, name: string, kind: string)

  datatype EdgeRow = EdgeRow(source: Id, target: Id, conditionExpr: Option<string>)

  datatype SerializedDAG = SerializedDAG(tasks: seq<TaskRow>, edges: seq<EdgeRow>)

  function RowOfTask(t: TaskDefinition): TaskRow {
    TaskRow(t.id, t.name, t.kind)
  }

  function RowOfEdge(e: Edge): EdgeRow {
    EdgeRow(e.source, e.target, e.conditionExpr)
  }

  function TaskOfRow(r: TaskRow): TaskDefinition {
    TaskDefinition(r.id, "", r.name, r.kind, 300000, None)
  }

  function EdgeOfRow(r: EdgeRow): Edge {
    Edge("", "", r.source, r.target, r.conditionExpr)
  }

  function EndOrder(compare: Comparator<Id>, a: (Id, Id), b: (Id, Id)): int {
    var sourceCompare := compare(a.0, b.0);
    if sourceCompare != 0 then sourceCompare else compare(a.1, b.1)
  }

  function ByEnds(compare: Comparator<Id>): Comparator<(Id, Id)> {
    (a: (Id, Id), b: (Id, Id)) => EndOrder(compare, a, b)
  }

  function ByTask(compare: Comparator<Id>): Comparator<TaskDefinition> {
    (a: TaskDefinition, b: TaskDefinition) => compare(a.id, b.id)
  }

  function ByTaskRow(compare: Comparator<Id>): Comparator<TaskRow> {
    (a: TaskRow, b: TaskRow) => compare(a.id, b.id)
  }

  function ByEdge(compare: Comparator<Id>): Comparator<Edge> {
    (a: Edge, b: Edge) => EndOrder(compare, (a.source, a.target), (b.source, b.target))
  }

  function ByEdgeRow(compare: Comparator<Id>): Comparator<EdgeRow> {
    (a: EdgeRow, b: EdgeRow) => EndOrder(compare, (a.source, a.target), (b.source, b.target))
  }

  function Serialize(tasks: seq<TaskDefinition>, edges: seq<Edge>, compare: Comparator<Id>): SerializedDAG {
    SerializedDAG(Map(Sort(tasks, ByTask(compare)), RowOfTask), Map(Sort(edges, ByEdge(compare)), RowOfEdge))
  }

  function Deserialize(d: SerializedDAG): (seq<TaskDefinition>, seq<Edge>) {
    (Map(d.tasks, TaskOfRow), Map(d.edges, EdgeOfRow))
  }

  /** Sorting and projecting may be exchanged: what is compared is kept. */
  lemma SerializeSortsRows(tasks: seq<TaskDefinition>, edges: seq<Edge>, compare: Comparator<Id>)
    ensures Serialize(tasks, edges, compare)
            == SerializedDAG(Sort(Map(tasks, RowOfTask), ByTaskRow(compare)),
                             Sort(Map(edges, RowOfEdge), ByEdgeRow(compare)))
  {
    SortCommutes(tasks, RowOfTask, ByTask(compare), ByTaskRow(compare));
    SortCommutes(edges, RowOfEdge, ByEdge(compare), ByEdgeRow(compare));
  }

  lemma EndOrderIsOrder(compare: Comparator<Id>, a: (Id, Id), b: (Id, Id), c: (Id, Id))
    requires IsOrder(compare)
    ensures EndOrder(compare, a, b) <= 0 <==> EndOrder(compare, b, a) >= 0
    ensures EndOrder(compare, a, b) <= 0 && EndOrder(compare, b, c) <= 0 ==> EndOrder(compare, a, c) <= 0
  {
    assert compare(a.0, b.0) <= 0 <==> compare(b.0, a.0) >= 0;
    assert compare(b.0, a.0) <= 0 <==> compare(a.0, b.0) >= 0;
    assert compare(a.1, b.1) <= 0 <==> compare(b.1, a.1) >= 0;
    if compare(a.0, b.0) <= 0 && compare(b.0, c.0) <= 0 && compare(a.0, c.0) == 0 {
      assert compare(c.0, a.0) <= 0;
      assert compare(b.0, a.0) <= 0 && compare(c.0, b.0) <= 0;
      assert compare(a.0, b.0) == 0 && compare(b.0, c.0) == 0;
    }
  }

  lemma ByEndsIsOrder(compare: Comparator<Id>)
    requires IsOrder(compare)
    ensures IsOrder(ByEnds(compare))
  {
    forall a, b, c
      ensures (ByEnds(compare)(a, b) <= 0 <==> ByEnds(compare)(b, a) >= 0)
              && (ByEnds(compare)(a, b) <= 0 && ByEnds(compare)(b, c) <= 0 ==> ByEnds(compare)(a, c) <= 0)
    {
      EndOrderIsOrder(compare, a, b, c);
    }
  }

  lemma RowOrdersAreOrders(compare: Comparator<Id>)
    requires IsOrder(compare)
    ensures IsOrder(ByTaskRow(compare)) && IsOrder(ByEdgeRow(compare))
    ensures IsOrder(ByTask(compare)) && IsOrder(ByEdge(compare))
  {
    ByEndsIsOrder(compare);
    OrderByKey((t: TaskDefinition) => t.id, ByTask(compare), compare);
    OrderByKey((r: TaskRow) => r.id, ByTaskRow(compare), compare);
    OrderByKey((e: Edge) => (e.source, e.target), ByEdge(compare), ByEnds(compare));
    OrderByKey((r: EdgeRow) => (r.source, r.target), ByEdgeRow(compare), ByEnds(compare));
  }

  /** Tasks come sorted by id and edges by source and then target, and every row is there as often as in the input. */
  lemma SerializedIsSortedAndComplete(tasks: seq<TaskDefinition>, edges: seq<Edge>, compare: Comparator<Id>)
    requires IsOrder(compare)
    ensures var d := Serialize(tasks, edges, compare);
            && IsSorted(d.tasks, ByTaskRow(compare)) && IsSorted(d.edges, ByEdgeRow(compare))
            && (forall i, j :: 0 <= i < j < |d.tasks| ==> compare(d.tasks[i].id, d.tasks[j].id) <= 0)
            && (forall i, j :: 0 <= i < j < |d.edges| ==> compare(d.edges[i].source, d.edges[j].source) <= 0)
            && (forall i, j :: 0 <= i < j < |d.edges| && compare(d.edges[i].source, d.edges[j].source) == 0 ==>
                  compare(d.edges[i].target, d.edges[j].target) <= 0)
            && multiset(d.tasks) == multiset(Map(tasks, RowOfTask))
            && multiset(d.edges) == multiset(Map(edges, RowOfEdge))
  {
    RowOrdersAreOrders(compare);
    SerializeSortsRows(tasks, edges, compare);
    SortSorts(Map(tasks, RowOfTask), ByTaskRow(compare));
    SortSorts(Map(edges, RowOfEdge), ByEdgeRow(compare));
    SortPermutes(Map(tasks, RowOfTask), ByTaskRow(compare));
    SortPermutes(Map(edges, RowOfEdge), ByEdgeRow(compare));
    var d := Serialize(tasks, edges, compare);
    forall i, j | 0 <= i < j < |d.tasks| ensures compare(d.tasks[i].id, d.tasks[j].id) <= 0 {
      assert ByTaskRow(compare)(d.tasks[i], d.tasks[j]) <= 0;
    }
    forall i, j | 0 <= i < j < |d.edges|
      ensures compare(d.edges[i].source, d.edges[j].source) <= 0
      ensures compare(d.edges[i].source, d.edges[j].source) == 0 ==> compare(d.edges[i].target, d.edges[j].target) <= 0
    {
      assert ByEdgeRow(compare)(d.edges[i], d.edges[j]) <= 0;
    }
  }

  /** What a row keeps of a task and of an edge. */
  lemma RowsKeepFields(tasks: seq<TaskDefinition>, edges: seq<Edge>)
    ensures var rows := Map(tasks, RowOfTask);
            |rows| == |tasks| && forall i :: 0 <= i < |tasks| ==>
              rows[i].id == tasks[i].id && rows[i].name == tasks[i].name && rows[i].kind == tasks[i].kind
    ensures var rows := Map(edges, RowOfEdge);
            |rows| == |edges| && forall i :: 0 <= i < |edges| ==>
              && rows[i].source == edges[i].source && rows[i].target == edges[i].target
              && rows[i].conditionExpr == edges[i].conditionExpr
  {
  }

  /** What is read back: the fields of the rows, and the defaults for all others. */
  lemma ReadBack(d: SerializedDAG)
    ensures var (tasks, edges) := Deserialize(d);
            && |tasks| == |d.tasks| && |edges| == |d.edges|
            && (forall i :: 0 <= i < |tasks| ==>
                  && tasks[i].id == d.tasks[i].id && tasks[i].name == d.tasks[i].name && tasks[i].kind == d.tasks[i].kind
                  && tasks[i].workflowId == "" && tasks[i].timeoutMs == 300000 && tasks[i].retryPolicy == None)
            && (forall i :: 0 <= i < |edges| ==>
                  && edges[i].source == d.edges[i].source && edges[i].target == d.edges[i].target
                  && edges[i].conditionExpr == d.edges[i].conditionExpr
                  && edges[i].id == "" && edges[i].workflowId == "")
  {
  }

  predicate SameEnds(compare: Comparator<Id>, r: EdgeRow, e: EdgeRow) {
    compare(r.source, e.source) == 0 && compare(r.target, e.target) == 0
  }

  /** Edges whose ends compare equal stay in the order of the input. */
  lemma SameEndsKeepOrder(tasks: seq<TaskDefinition>, edges: seq<Edge>, compare: Comparator<Id>, e: EdgeRow, same: EdgeRow -> bool)
    requires IsOrder(compare) && forall r :: same(r) <==> SameEnds(compare, r, e)
    ensures Filter(Serialize(tasks, edges, compare).edges, same) == Filter(Map(edges, RowOfEdge), same)
  {
    RowOrdersAreOrders(compare);
    SerializeSortsRows(tasks, edges, compare);
    assert PicksEquals(same, ByEdgeRow(compare), e);
    SortIsStable(Map(edges, RowOfEdge), ByEdgeRow(compare), e, same);
  }

  lemma RowsComeBack(d: SerializedDAG)
    ensures Map(Deserialize(d).0, RowOfTask) == d.tasks && Map(Deserialize(d).1, RowOfEdge) == d.edges
  {
  }

  /** Serializing again what was read back changes nothing, whatever the comparison finds equal. */
  lemma SerializeIsIdempotent(tasks: seq<TaskDefinition>, edges: seq<Edge>, compare: Comparator<Id>)
    requires IsOrder(compare)
    ensures var d := Serialize(tasks, edges, compare);
            Serialize(Deserialize(d).0, Deserialize(d).1, compare) == d
  {
    var d := Serialize(tasks, edges, compare);
    SerializedIsSortedAndComplete(tasks, edges, compare);
    SerializeSortsRows(Deserialize(d).0, Deserialize(d).1, compare);
    RowsComeBack(d);
    SortedIsFixed(d.tasks, ByTaskRow(compare));
    SortedIsFixed(d.edges, ByEdgeRow(compare));
  }

  /** With ids, and edge ends, that compare equal only for the same task or edge, the order of the inputs does not matter. */
  lemma SerializeIgnoresOrder(
    tasks: seq<TaskDefinition>, edges: seq<Edge>, tasks': seq<TaskDefinition>, edges': seq<Edge>, compare: Comparator<Id>)
    requires IsOrder(compare) && multiset(tasks) == multiset(tasks') && multiset(edges) == multiset(edges')
    requires forall a, b :: a in tasks && b in tasks && ByTask(compare)(a, b) == 0 ==> a == b
    requires forall a, b :: a in edges && b in edges && ByEdge(compare)(a, b) == 0 ==> a == b
    ensures Serialize(tasks, edges, compare) == Serialize(tasks', edges', compare)
  {
    RowOrdersAreOrders(compare);
    SortIgnoresOrder(tasks, tasks', ByTask(compare));
    SortIgnoresOrder(edges, edges', ByEdge(compare));
  }

  lemma SameRowsSameGraph(tasks: seq<TaskDefinition>, edges: seq<Edge>, d: SerializedDAG)
    requires multiset(d.tasks) == multiset(Map(tasks, RowOfTask))
    requires multiset(d.edges) == multiset(Map(edges, RowOfEdge))
    ensures NodeSet(Deserialize(d).0) == NodeSet(tasks) && Arcs(Deserialize(d).1) == Arcs(edges)
  {
    PermutationsShareMembers(d.tasks, Map(tasks, RowOfTask));
    PermutationsShareMembers(d.edges, Map(edges, RowOfEdge));
    TaskRowsKeepIds(tasks, d.tasks);
    EdgeRowsKeepEnds(edges, d.edges);
  }

  lemma TaskRowsKeepIds(tasks: seq<TaskDefinition>, rows: seq<TaskRow>)
    requires forall r :: r in rows <==> r in Map(tasks, RowOfTask)
    ensures NodeSet(Map(rows, TaskOfRow)) == NodeSet(tasks)
  {
    var back := Map(rows, TaskOfRow);
    forall n | n in NodeSet(tasks) ensures n in NodeSet(back) {
      var i :| 0 <= i < |tasks| && tasks[i].id == n;
      assert Map(tasks, RowOfTask)[i] in rows;
      var j :| 0 <= j < |rows| && rows[j] == RowOfTask(tasks[i]);
      assert back[j] in back;
    }
    forall n | n in NodeSet(back) ensures n in NodeSet(tasks) {
      var j :| 0 <= j < |back| && back[j].id == n;
      assert rows[j] in Map(tasks, RowOfTask);
      var i :| 0 <= i < |tasks| && Map(tasks, RowOfTask)[i] == rows[j];
      assert tasks[i] in tasks;
    }
  }

  lemma EdgeRowsKeepEnds(edges: seq<Edge>, rows: seq<EdgeRow>)
    requires forall r :: r in rows <==> r in Map(edges, RowOfEdge)
    ensures Arcs(Map(rows, EdgeOfRow)) == Arcs(edges)
  {
    var back := Map(rows, EdgeOfRow);
    forall a | a in Arcs(edges) ensures a in Arcs(back) {
      var i :| 0 <= i < |edges| && (edges[i].source, edges[i].target) == a;
      assert Map(edges, RowOfEdge)[i] in rows;
      var j :| 0 <= j < |rows| && rows[j] == RowOfEdge(edges[i]);
      assert back[j] in back;
    }
    forall a | a in Arcs(back) ensures a in Arcs(edges) {
      var j :| 0 <= j < |back| && (back[j].source, back[j].target) == a;
      assert rows[j] in Map(edges, RowOfEdge);
      var i :| 0 <= i < |edges| && Map(edges, RowOfEdge)[i] == rows[j];
      assert edges[i] in edges;
    }
  }

  lemma ReferencesAreArcs(tasks: seq<TaskDefinition>, edges: seq<Edge>)
    ensures (forall e :: e in edges ==> DagValidator.ValidReference(tasks, e))
            <==> (forall a :: a in Arcs(edges) ==> a.0 in NodeSet(tasks) && a.1 in NodeSet(tasks))
  {
    if forall a :: a in Arcs(edges) ==> a.0 in NodeSet(tasks) && a.1 in NodeSet(tasks) {
      forall e | e in edges ensures DagValidator.ValidReference(tasks, e) {
        assert (e.source, e.target) in Arcs(edges);
      }
    }
  }

  /** `validateDAG` accepts what was written and read back exactly when it accepts the original. */
  lemma ValidityIsPreserved(tasks: seq<TaskDefinition>, edges: seq<Edge>, compare: Comparator<Id>)
    requires IsOrder(compare)
    ensures var back := Deserialize(Serialize(tasks, edges, compare));
            DagValidator.Validation(back.0, back.1) == [] <==> DagValidator.Validation(tasks, edges) == []
  {
    var back := Deserialize(Serialize(tasks, edges, compare));
    SerializedIsSortedAndComplete(tasks, edges, compare);
    SameRowsSameGraph(tasks, edges, Serialize(tasks, edges, compare));
    assert GraphOf(back.0, back.1) == GraphOf(tasks, edges);
    ReferencesAreArcs(tasks, edges);
    ReferencesAreArcs(back.0, back.1);
    DagValidator.ValidationIsExact(tasks, edges);
    DagValidator.ValidationIsExact(back.0, back.1);
  }
}
