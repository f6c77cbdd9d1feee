/** The three worklist tasks of the order builder as functions of its whole state
    (src/cfg/wto.cpp). */
module WtoSteps {
  import opened ControlFlow
  import opened WtoTree

  /** A depth-first number; Finite(0) marks a label that is not visited. */
  datatype Dfn = Finite(n: nat) | Infinity

  datatype VertexData = VertexData(dfn: Dfn, headDfn: nat)

  /** Names the component vector of the whole order or of the cycle with the given head. */
  datatype PartitionId = TopLevel | CycleOf(head: Label)

  datatype TaskKind = PushSuccessors | StartVisit | ContinueVisit

  datatype VisitArgs = VisitArgs(kind: TaskKind, vertex: Label, partition: PartitionId, containingCycle: PartitionId)

  /** `stack` and `tasks` have their top at the end.  `enclosing` maps a cycle's head to the
      partition the cycle was created in; `containing` is the order's label table. */
  datatype State = State(
    data: map<Label, VertexData>,
    num: nat,
    stack: seq<Label>,
    tasks: seq<VisitArgs>,
    partitions: map<PartitionId, seq<Component>>,
    enclosing: map<Label, PartitionId>,
    containing: map<Label, PartitionId>)

  const Unvisited := VertexData(Finite(0), 0)

  function Initial(g: Cfg): State {
    State(map l | l in g.children :: Unvisited, 0, [],
          [VisitArgs(PushSuccessors, g.entry, TopLevel, TopLevel)],
          map[TopLevel := []], map[], map[])
  }

  /** The labels among `children` still unvisited, in the order in which they are pushed. */
  function Pending(children: seq<Label>, data: map<Label, VertexData>): (r: seq<Label>)
    requires forall x :: x in children ==> x in data
    ensures forall x :: x in r <==> x in children && data[x].dfn == Finite(0)
  {
    if children == [] then []
    else Pending(children[1..], data) + (if data[children[0]].dfn == Finite(0) then [children[0]] else [])
  }

  /** The last child is pushed first, whatever the number of children: the first is visited first. */
  lemma {:induction false} PendingReversed(a: seq<Label>, b: seq<Label>, data: map<Label, VertexData>)
    requires forall x :: x in a || x in b ==> x in data
    ensures Pending(a + b, data) == Pending(b, data) + Pending(a, data)
  {
    if a == [] {
      assert a + b == b;
    } else {
      assert (a + b)[1..] == a[1..] + b;
      PendingReversed(a[1..], b, data);
    }
  }

  lemma {:induction false} PendingOne(l: Label, data: map<Label, VertexData>)
    requires l in data
    ensures Pending([l], data) == if data[l].dfn == Finite(0) then [l] else []
  {
    assert [l][1..] == [];
  }

  function PushTasks(labels: seq<Label>, id: PartitionId): seq<VisitArgs> {
    seq(|labels|, i requires 0 <= i < |labels| => VisitArgs(PushSuccessors, labels[i], id, id))
  }

  /** The number a successor contributes to the head computation. */
  function MinDfn(d: VertexData): Dfn {
    if d.headDfn != 0 && d.dfn != Infinity then Finite(d.headDfn) else d.dfn
  }

  predicate AtMost(d: Dfn, n: nat) {
    d.Finite? && d.n <= n
  }

  function HeadScan(children: seq<Label>, data: map<Label, VertexData>, head: nat, loop: bool): (nat, bool)
    requires forall x :: x in children ==> x in data
  {
    if children == [] then (head, loop)
    else
      var m := MinDfn(data[children[0]]);
      if AtMost(m, head) then HeadScan(children[1..], data, m.n, true)
      else HeadScan(children[1..], data, head, loop)
  }

  /** The topmost position of `v`. */
  function TopIndex(stack: seq<Label>, v: Label): (p: nat)
    requires v in stack
    ensures p < |stack| && stack[p] == v
    ensures forall i :: p < i < |stack| ==> stack[i] != v
  {
    if stack[|stack| - 1] == v then |stack| - 1 else TopIndex(stack[..|stack| - 1], v)
  }

  function Reset(data: map<Label, VertexData>, elements: seq<Label>): map<Label, VertexData> {
    map l | l in data :: if l in elements then Unvisited else data[l]
  }

  function Emplace(m: map<Label, PartitionId>, l: Label, id: PartitionId): map<Label, PartitionId> {
    if l in m then m else m[l := id]
  }

  /** What a task may rely on; the state `s` no longer holds it. */
  ghost predicate Runnable(g: Cfg, s: State, t: VisitArgs) {
    && g.WellFormed()
    && s.data.Keys == g.children.Keys
    && t.vertex in s.data
    && t.partition in s.partitions
    && match t.kind
       case PushSuccessors => true
       case StartVisit => t.vertex in s.stack && s.data[t.vertex].dfn.Finite?
       case ContinueVisit => t.containingCycle in s.partitions && t.partition != t.containingCycle
  }

  ghost function PushSuccessorsStep(g: Cfg, s: State, t: VisitArgs): State
    requires t.kind == PushSuccessors && Runnable(g, s, t)
  {
    if s.data[t.vertex].dfn != Finite(0) then s
    else
      var data := s.data[t.vertex := s.data[t.vertex].(dfn := Finite(s.num + 1))];
      s.(data := data,
      num := s.num + 1,
      stack := s.stack + [t.vertex],
      tasks := s.tasks + [VisitArgs(StartVisit, t.vertex, t.partition, t.containingCycle)]
      + PushTasks(Pending(g.children[t.vertex], data), t.partition))
  }

  /** The vertex at stack position `p` heads a cycle; the labels above it are forgotten. */
  ghost function LoopResult(g: Cfg, s: State, t: VisitArgs, head: nat, p: nat): State
    requires g.WellFormed() && s.data.Keys == g.children.Keys && t.vertex in s.data && p < |s.stack|
  {
    var v := t.vertex;
    var data := Reset(s.data, s.stack[p + 1..])[v := VertexData(Infinity, head)];
    s.(data := data,
    stack := s.stack[..p],
    tasks := s.tasks + [VisitArgs(ContinueVisit, v, t.partition, CycleOf(v))]
    + PushTasks(Pending(g.children[v], data), CycleOf(v)),
    partitions := s.partitions[CycleOf(v) := []],
    enclosing := s.enclosing[v := t.containingCycle])
  }

  ghost function StartVisitStep(g: Cfg, s: State, t: VisitArgs): State
    requires t.kind == StartVisit && Runnable(g, s, t)
  {
    var v := t.vertex;
    var d := s.data[v].dfn.n;
    var (head, loop) := HeadScan(g.children[v], s.data, d, false);
    if head != d then
      s.(data := s.data[v := s.data[v].(headDfn := head)])
    else if !loop then
      s.(data := s.data[v := VertexData(Infinity, head)],
      stack := s.stack[..|s.stack| - 1],
      partitions := s.partitions[t.partition := s.partitions[t.partition] + [Vertex(v)]],
      containing := Emplace(s.containing, v, t.containingCycle))
    else
      LoopResult(g, s, t, head, TopIndex(s.stack, v))
  }

  ghost function ContinueVisitStep(g: Cfg, s: State, t: VisitArgs): State
    requires t.kind == ContinueVisit && Runnable(g, s, t)
  {
    var components := s.partitions[t.containingCycle] + [Vertex(t.vertex)];
    s.(partitions := s.partitions[t.containingCycle := components]
    [t.partition := s.partitions[t.partition] + [Cycle(components)]],
    containing := Emplace(s.containing, t.vertex, t.containingCycle))
  }

  ghost function TaskStep(g: Cfg, s: State, t: VisitArgs): State
    requires Runnable(g, s, t)
  {
    match t.kind
    case PushSuccessors => PushSuccessorsStep(g, s, t)
    case StartVisit => StartVisitStep(g, s, t)
    case ContinueVisit => ContinueVisitStep(g, s, t)
  }

  /** The task on top can run and makes `r` of `s`. */
  ghost predicate Leads(g: Cfg, s: State, r: State) {
    s.tasks != [] && Runnable(g, Popped(s), Top(s)) && r == TaskStep(g, Popped(s), Top(s))
  }

  /** The state after at most `n` tasks. */
  ghost function Ran(g: Cfg, s: State, n: nat): State
    decreases n
  {
    if n == 0 || s.tasks == [] || !Runnable(g, Popped(s), Top(s)) then s
    else Ran(g, TaskStep(g, Popped(s), Top(s)), n - 1)
  }

  lemma {:induction false} RanOneMore(g: Cfg, s: State, n: nat)
    requires var r := Ran(g, s, n); r.tasks != [] && Runnable(g, Popped(r), Top(r))
    ensures var r := Ran(g, s, n); Ran(g, s, n + 1) == TaskStep(g, Popped(r), Top(r))
    decreases n
  {
    hide TaskStep, Runnable;
    if n > 0 {
      RanOneMore(g, TaskStep(g, Popped(s), Top(s)), n - 1);
    }
  }

  /** Once no task is left nothing changes. */
  lemma {:induction false} RanEnds(g: Cfg, s: State, n: nat, m: nat)
    requires n <= m && Ran(g, s, n).tasks == []
    ensures Ran(g, s, m) == Ran(g, s, n)
    decreases n
  {
    hide TaskStep, Runnable;
    if n > 0 && s.tasks != [] && Runnable(g, Popped(s), Top(s)) {
      RanEnds(g, TaskStep(g, Popped(s), Top(s)), n - 1, m - 1);
    }
  }

  ghost function Popped(s: State): State
    requires s.tasks != []
  {
    s.(tasks := s.tasks[..|s.tasks| - 1])
  }

  function Top(s: State): VisitArgs
    requires s.tasks != []
  {
    s.tasks[|s.tasks| - 1]
  }

  /** The scan ends at the least number among the start value and the successors' numbers, and
      reports a loop when some successor reaches down to the start value. */
  lemma {:induction false} HeadScanMin(children: seq<Label>, data: map<Label, VertexData>, head: nat, loop: bool)
    requires forall x :: x in children ==> x in data
    ensures var r := HeadScan(children, data, head, loop);
            && r.0 <= head
            && (forall x :: x in children && MinDfn(data[x]).Finite? ==> r.0 <= MinDfn(data[x]).n)
            && (r.0 == head || exists x :: x in children && MinDfn(data[x]) == Finite(r.0))
            && (r.1 <==> loop || exists x :: x in children && AtMost(MinDfn(data[x]), head))
  {
    if children != [] {
      var m := MinDfn(data[children[0]]);
      var rest := children[1..];
      assert forall x :: x in children <==> x == children[0] || x in rest;
      if AtMost(m, head) {
        HeadScanMin(rest, data, m.n, true);
      } else {
        HeadScanMin(rest, data, head, loop);
      }
    }
  }

  /** Started below every loop, a scan that reports one ends at the number of some successor. */
  lemma {:induction false} HeadScanWitness(children: seq<Label>, data: map<Label, VertexData>, start: nat)
    returns (x: Label)
    requires forall y :: y in children ==> y in data
    requires HeadScan(children, data, start, false).1
    ensures x in children && x in data && MinDfn(data[x]) == Finite(HeadScan(children, data, start, false).0)
    ensures HeadScan(children, data, start, false).0 <= start
  {
    hide MinDfn, HeadScan;
    HeadScanMin(children, data, start, false);
    var r := HeadScan(children, data, start, false);
    if r.0 == start {
      x :| x in children && AtMost(MinDfn(data[x]), start);
    } else {
      x :| x in children && MinDfn(data[x]) == Finite(r.0);
    }
  }

  /** The scan's result is at most every successor's number; without a loop all are above the start. */
  lemma {:induction false} HeadScanBound(children: seq<Label>, data: map<Label, VertexData>, start: nat, x: Label)
    requires forall y :: y in children ==> y in data
    requires x in children && MinDfn(data[x]).Finite?
    ensures HeadScan(children, data, start, false).0 <= MinDfn(data[x]).n
    ensures !HeadScan(children, data, start, false).1 ==> start < MinDfn(data[x]).n
  {
    hide MinDfn, HeadScan;
    HeadScanMin(children, data, start, false);
  }

  lemma {:induction false} HeadScanLow(children: seq<Label>, data: map<Label, VertexData>, start: nat)
    requires forall y :: y in children ==> y in data
    ensures HeadScan(children, data, start, false).0 <= start
    ensures HeadScan(children, data, start, false).0 < start ==> HeadScan(children, data, start, false).1
  {
    hide MinDfn, HeadScan;
    HeadScanMin(children, data, start, false);
  }
}
