/** Ending a visit, and that of the counter before it, in the runs with and without counters. */
module CountedVisit {
  import opened ControlFlow
  import opened WtoTree
  import opened WtoSteps
  import opened WtoInvariant
  import opened CountedData
  import opened CountedRun
  import opened CountedPush

  // ----- what a visit can do -----

  ghost predicate Lows(s: State, r: State, v: Label, head: nat)
    requires v in s.data && s.tasks != []
  {
    && r.data == s.data[v := s.data[v].(headDfn := head)] && r.num == s.num && r.partitions == s.partitions
    && r.tasks == Popped(s).tasks
  }

  ghost predicate Singles(s: State, r: State, v: Label, p: PartitionId, head: nat)
    requires s.tasks != []
  {
    && r.data == s.data[v := VertexData(Infinity, head)] && r.num == s.num && r.tasks == Popped(s).tasks
    && p in s.partitions && r.partitions == s.partitions[p := s.partitions[p] + [Vertex(v)]]
  }

  /** `els` are the labels numbered after `v`. */
  ghost predicate Above(data: map<Label, VertexData>, v: Label, els: seq<Label>)
    requires v in data && data[v].dfn.Finite?
  {
    forall l :: l in els <==> l in data && data[l].dfn.Finite? && data[l].dfn.n > data[v].dfn.n
  }

  ghost predicate OpensCycle(
    s: State, r: State, v: Label, p: PartitionId, children: seq<Label>, head: nat, els: seq<Label>)
    requires v in s.data && s.data[v].dfn.Finite? && s.tasks != []
  {
    && Above(s.data, v, els)
    && r.data == Reset(s.data, els)[v := VertexData(Infinity, head)] && r.num == s.num
    && (forall x :: x in children ==> x in r.data)
    && r.tasks == Popped(s).tasks + [VisitArgs(ContinueVisit, v, p, CycleOf(v))]
                  + PushTasks(Pending(children, r.data), CycleOf(v))
    && r.partitions == s.partitions[CycleOf(v) := []]
  }

  /** `r` is `s` after the visit of `v`, whose scan found `head`. */
  ghost predicate Outcome(s: State, r: State, v: Label, p: PartitionId, children: seq<Label>, head: nat, loop: bool,
                          els: seq<Label>)
  {
    && v in s.data && s.data[v].dfn.Finite? && s.data[v].dfn.n > 0 && s.tasks != []
    && (forall x :: x in children ==> x in s.data)
    && (head, loop) == HeadScan(children, s.data, s.data[v].dfn.n, false) && (loop ==> head > 0)
    && if head != s.data[v].dfn.n then Lows(s, r, v, head)
       else if !loop then Singles(s, r, v, p, head)
       else OpensCycle(s, r, v, p, children, head, els)
  }

  lemma {:induction false} ScanPositive(children: seq<Label>, data: map<Label, VertexData>, start: nat, loop: bool)
    requires forall x :: x in children ==> x in data && data[x].dfn != Finite(0)
    requires start > 0
    ensures HeadScan(children, data, start, loop).0 > 0
  {
    if children != [] {
      var m := MinDfn(data[children[0]]);
      ScanPositive(children[1..], data, if AtMost(m, start) then m.n else start, loop || AtMost(m, start));
    }
  }

  lemma {:induction false} PlaceOnStack(g: Cfg, s: State, l: Label) returns (q: nat)
    requires Numbers(g, s) && l in s.data && s.data[l].dfn.Finite? && s.data[l].dfn.n > 0
    ensures q < |s.stack| && s.stack[q] == l
  {
    q :| 0 <= q < |s.stack| && s.stack[q] == l;
  }

  lemma {:induction false} StackOrder(g: Cfg, s: State, p: nat, q: nat)
    requires Numbers(g, s) && p < |s.stack| && q < |s.stack|
    ensures s.stack[p] in s.data && s.data[s.stack[p]].dfn.Finite?
    ensures s.stack[q] in s.data && s.data[s.stack[q]].dfn.Finite?
    ensures p < q <==> s.data[s.stack[p]].dfn.n < s.data[s.stack[q]].dfn.n
  {
    if p < q {
      assert Dn(s, s.stack[p]) < Dn(s, s.stack[q]);
    } else if q < p {
      assert Dn(s, s.stack[q]) < Dn(s, s.stack[p]);
    }
  }

  lemma {:induction false} StackAbove(g: Cfg, s: State, v: Label)
    requires Numbers(g, s) && v in s.stack && v in s.data && s.data[v].dfn.Finite?
    ensures Above(s.data, v, s.stack[TopIndex(s.stack, v) + 1..])
  {
    hide Numbers;
    var p := TopIndex(s.stack, v);
    var els := s.stack[p + 1..];
    forall l | l in els ensures l in s.data && s.data[l].dfn.Finite? && s.data[l].dfn.n > s.data[v].dfn.n {
      var i :| 0 <= i < |els| && els[i] == l;
      StackOrder(g, s, p, p + 1 + i);
    }
    forall l | l in s.data && s.data[l].dfn.Finite? && s.data[l].dfn.n > s.data[v].dfn.n ensures l in els {
      var q := PlaceOnStack(g, s, l);
      StackOrder(g, s, p, q);
      assert els[q - p - 1] == l;
    }
  }

  lemma {:induction false} LowGives(g: Cfg, s: State, r: State, head: nat, loop: bool)
    requires Leads(g, s, r) && s.tasks != [] && Top(s).kind == StartVisit && Top(s).partition == Top(s).containingCycle
    requires Top(s).vertex in g.children && Top(s).vertex in s.data && s.data[Top(s).vertex].dfn.Finite?
    requires forall x :: x in g.children[Top(s).vertex] ==> x in s.data
    requires (head, loop) == HeadScan(g.children[Top(s).vertex], s.data, s.data[Top(s).vertex].dfn.n, false)
    requires head != s.data[Top(s).vertex].dfn.n
    ensures Lows(s, r, Top(s).vertex, head)
  {
    hide HeadScan, Pending, PushTasks, Cfg.WellFormed, TopIndex, LoopResult;
  }

  lemma {:induction false} SingleGives(g: Cfg, s: State, r: State, head: nat, loop: bool)
    requires Leads(g, s, r) && s.tasks != [] && Top(s).kind == StartVisit && Top(s).partition == Top(s).containingCycle
    requires Top(s).vertex in g.children && Top(s).vertex in s.data && s.data[Top(s).vertex].dfn.Finite?
    requires forall x :: x in g.children[Top(s).vertex] ==> x in s.data
    requires (head, loop) == HeadScan(g.children[Top(s).vertex], s.data, s.data[Top(s).vertex].dfn.n, false)
    requires head == s.data[Top(s).vertex].dfn.n && !loop
    ensures Singles(s, r, Top(s).vertex, Top(s).partition, head)
  {
    hide HeadScan, Pending, PushTasks, Cfg.WellFormed, TopIndex, LoopResult;
  }

  lemma {:induction false} LoopGives(g: Cfg, s: State, r: State, head: nat, loop: bool)
    requires Leads(g, s, r) && s.tasks != [] && Top(s).kind == StartVisit && Top(s).partition == Top(s).containingCycle
    requires Top(s).vertex in g.children && Top(s).vertex in s.data && s.data[Top(s).vertex].dfn.Finite?
    requires forall x :: x in g.children[Top(s).vertex] ==> x in s.data
    requires (head, loop) == HeadScan(g.children[Top(s).vertex], s.data, s.data[Top(s).vertex].dfn.n, false)
    requires head == s.data[Top(s).vertex].dfn.n && loop && Top(s).vertex in s.stack
    requires Above(s.data, Top(s).vertex, s.stack[TopIndex(s.stack, Top(s).vertex) + 1..])
    ensures var v := Top(s).vertex;
            OpensCycle(s, r, v, Top(s).partition, g.children[v], head, s.stack[TopIndex(s.stack, v) + 1..])
  {
    hide HeadScan, Pending, PushTasks, Cfg.WellFormed, TopIndex, Above;
  }

  lemma {:induction false} StartGives(g: Cfg, s: State, r: State) returns (head: nat, loop: bool, els: seq<Label>)
    requires Leads(g, s, r) && s.tasks != [] && Top(s).kind == StartVisit && Numbers(g, s)
    requires Top(s).partition == Top(s).containingCycle && Top(s).vertex in g.children && Top(s).vertex in s.data
    requires s.data[Top(s).vertex].dfn.Finite? && s.data[Top(s).vertex].dfn.n > 0 && Top(s).vertex in s.stack
    requires forall x :: x in g.children[Top(s).vertex] ==> x in s.data && s.data[x].dfn != Finite(0)
    ensures Outcome(s, r, Top(s).vertex, Top(s).partition, g.children[Top(s).vertex], head, loop, els)
  {
    hide Leads, Numbers, HeadScan, TopIndex, Lows, Singles, OpensCycle, Above;
    var v := Top(s).vertex;
    var scan := HeadScan(g.children[v], s.data, s.data[v].dfn.n, false);
    head, loop := scan.0, scan.1;
    els := s.stack[TopIndex(s.stack, v) + 1..];
    ScanPositive(g.children[v], s.data, s.data[v].dfn.n, false);
    StackAbove(g, s, v);
    if head != s.data[v].dfn.n {
      LowGives(g, s, r, head, loop);
    } else if loop {
      LoopGives(g, s, r, head, loop);
    } else {
      SingleGives(g, s, r, head, loop);
    }
  }

  /** A visit in a state of the run on `g`. */
  lemma {:induction false} StartOnTheWay(g: Cfg, s: State, r: State) returns (head: nat, loop: bool, els: seq<Label>)
    requires OnTheWay(g, s) && Leads(g, s, r) && s.tasks != [] && Top(s).kind == StartVisit
    ensures Top(s).vertex in g.children
    ensures Outcome(s, r, Top(s).vertex, Top(s).partition, g.children[Top(s).vertex], head, loop, els)
  {
    hide OnTheWay, Leads, Outcome, Numbers;
    StartFacts(g, s);
    OnTheWayBasics(g, s);
    head, loop, els := StartGives(g, s, r);
  }

  // ----- the same visit in both runs -----

  /** What is known about a visit of `v` in both runs before it ends. */
  ghost predicate Visits(heads: set<Label>, phi: seq<nat>, s: State, s': State, v: Label) {
    && Same(heads, phi, s, s') && s.tasks != [] && Top(s).kind == StartVisit && Top(s).vertex == v && v in s.data
    && s.data[v].dfn.Finite? && s.data[v].dfn.n > 0
  }

  /** The numbers of `v` and of its counter in the second run. */
  lemma {:induction false} VisitNumbers(heads: set<Label>, phi: seq<nat>, s: State, s': State, v: Label)
    requires Visits(heads, phi, s, s', v)
    ensures |phi| == s.num + 1 && Within(s.data[v], s.num) && v in s'.data
    ensures s'.data[v] == VertexData(Finite(phi[s.data[v].dfn.n]), phi[s.data[v].headDfn])
    ensures v in heads ==>
              var n := s.data[v].dfn.n;
              && CounterLabel(v) != v && CounterLabel(v) in s'.data
              && s'.data[CounterLabel(v)] == VertexData(Finite(phi[n] + 1), phi[s.data[v].headDfn])
              && phi[n] + 1 <= s'.num && (n < s.num ==> phi[n] + 1 < phi[n + 1])
    ensures forall i: nat, j: nat :: i < j <= s.num ==> phi[i] < phi[j]
    ensures phi[0] == 0
  {
    hide SameParts;
    AlikeAt(heads, OpenHeads(s.tasks), phi, s.data, s.num, s'.data, s'.num, v);
    AlikeKeys(heads, OpenHeads(s.tasks), phi, s.data, s.num, s'.data, s'.num);
    hide Alike;
  }

  lemma {:induction false} VisitScan(
    heads: set<Label>, phi: seq<nat>, s: State, s': State, v: Label, children: seq<Label>, start': nat)
    requires Visits(heads, phi, s, s', v) && |phi| == s.num + 1 && s.data[v].dfn.n <= s.num
    requires forall x :: x in children ==> x in s.data && x in s'.data
    requires var n := s.data[v].dfn.n;
             start' == phi[n] || (start' == phi[n] + 1 && (n < s.num ==> start' < phi[n + 1]))
    ensures var n := s.data[v].dfn.n;
            var r, r' := HeadScan(children, s.data, n, false), HeadScan(children, s'.data, start', false);
            && r.0 <= n && r'.1 == r.1 && (r.0 < n ==> r.1)
            && r'.0 == if r.1 || start' == phi[n] then phi[r.0] else start'
  {
    hide Alike, SameParts, HeadScan;
    SameScan(heads, OpenHeads(s.tasks), phi, s.data, s.num, s'.data, s'.num, children, s.data[v].dfn.n, start', false);
    HeadScanLow(children, s.data, s.data[v].dfn.n);
  }

  /** Data of a label and its counter replaced while the label's task goes. */
  lemma {:induction false} ReplacedSame(heads: set<Label>, phi: seq<nat>, s: State, r: State, s': State, r': State,
                                        v: Label, d: VertexData, c: VertexData)
    requires Visits(heads, phi, s, s', v) && |phi| == s.num + 1 && Within(d, s.num)
    requires r.data == s.data[v := d] && r.num == s.num && r.tasks == Popped(s).tasks
    requires r'.data == Replaced(heads, s'.data, v, Renumbered(phi, d), c) && r'.num == s'.num
    requires forall open :: v in heads ==> CounterFollows(phi, d, s'.num, c, open)
    requires r'.tasks == Doubled(heads, r.tasks) && SameParts(heads, r.partitions, r'.partitions)
    ensures Same(heads, phi, r, r')
  {
    hide Alike, SameParts, Within, Renumbered, Replaced, CounterFollows, Doubled;
    OpenPopped(s, r.tasks);
    AlikeReplace(heads, OpenHeads(s.tasks), phi, s.data, s.num, s'.data, s'.num, v, d, c);
    AlikeOpen(heads, OpenHeads(s.tasks), OpenHeads(r.tasks), phi, r.data, r.num, r'.data, r'.num);
  }
}
