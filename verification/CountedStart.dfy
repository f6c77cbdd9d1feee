/** The end of a visit makes the same of both runs: with a counter, the counter's visit ends first. */
module CountedStart {
  import opened ControlFlow
  import opened WtoTree
  import opened WtoSteps
  import opened WtoInvariant
  import opened CountedData
  import opened CountedRun
  import opened CountedPush
  import opened CountedVisit

  // ----- labels without a counter, and low visits -----

  lemma {:induction false} PartsAppended(
    heads: set<Label>, parts: map<PartitionId, seq<Component>>, parts': map<PartitionId, seq<Component>>,
    p: PartitionId, c: Component)
    requires SameParts(heads, parts, parts') && p in parts
    ensures p in parts'
    ensures SameParts(heads, parts[p := parts[p] + [c]], parts'[p := parts'[p] + FollowedOne(heads, c)])
  {
    FollowedSnoc(heads, parts[p], c);
  }

  lemma {:induction false} LowSame(heads: set<Label>, phi: seq<nat>, s: State, r: State, s': State, r': State,
                                   v: Label, head: nat, c: VertexData)
    requires Visits(heads, phi, s, s', v) && Lows(s, r, v, head) && head <= s.data[v].dfn.n <= s.num
             && |phi| == s.num + 1
    requires v in heads ==> c == VertexData(Finite(phi[s.data[v].dfn.n] + 1), phi[head])
    requires r'.data == Replaced(heads, s'.data, v, VertexData(Finite(phi[s.data[v].dfn.n]), phi[head]), c)
    requires r'.num == s'.num && r'.partitions == s'.partitions && r'.tasks == Doubled(heads, Popped(s).tasks)
    ensures Same(heads, phi, r, r')
  {
    VisitNumbers(heads, phi, s, s', v);
    hide Alike, SameParts, Doubled, Replaced;
    var d := s.data[v].(headDfn := head);
    assert Renumbered(phi, d) == VertexData(Finite(phi[s.data[v].dfn.n]), phi[head]);
    assert forall open :: v in heads ==> CounterFollows(phi, d, s'.num, c, open);
    assert SameParts(heads, r.partitions, r'.partitions);
    ReplacedSame(heads, phi, s, r, s', r', v, d, c);
  }

  lemma {:induction false} SingleSame(heads: set<Label>, phi: seq<nat>, s: State, r: State, s': State, r': State,
                                      v: Label, p: PartitionId, head: nat, c: VertexData)
    requires Visits(heads, phi, s, s', v) && Singles(s, r, v, p, head) && head <= s.num && |phi| == s.num + 1
    requires c.dfn.Infinity? && p in s'.partitions
    requires r'.data == Replaced(heads, s'.data, v, VertexData(Infinity, phi[head]), c)
    requires r'.num == s'.num && r'.tasks == Doubled(heads, Popped(s).tasks)
    requires r'.partitions == s'.partitions[p := s'.partitions[p] + FollowedOne(heads, Vertex(v))]
    ensures Same(heads, phi, r, r')
  {
    hide Alike, SameParts, Doubled, Replaced, FollowedOne;
    PartsAppended(heads, s.partitions, s'.partitions, p, Vertex(v));
    ReplacedSame(heads, phi, s, r, s', r', v, VertexData(Infinity, head), c);
  }

  // ----- cycles -----

  /** No other label has the number of `v`. */
  ghost predicate Unique(data: map<Label, VertexData>, v: Label)
    requires v in data
  {
    forall l :: l in data && data[l].dfn == data[v].dfn ==> l == v
  }

  lemma {:induction false} NumberIsUnique(g: Cfg, s: State, v: Label)
    requires Numbers(g, s) && v in s.data && s.data[v].dfn.Finite? && s.data[v].dfn.n > 0
    ensures Unique(s.data, v)
  {
    hide Numbers;
    forall l | l in s.data && s.data[l].dfn == s.data[v].dfn ensures l == v {
      var a := PlaceOnStack(g, s, l);
      var b := PlaceOnStack(g, s, v);
      StackOrder(g, s, a, b);
      StackOrder(g, s, b, a);
    }
  }

  /** The labels above `v` are the same in both runs, and the counters above it are those of `v` and of the
      labels above it. */
  lemma {:induction false} SameAbove(
    heads: set<Label>, open: set<Label>, phi: seq<nat>, data: map<Label, VertexData>, num: nat,
    data': map<Label, VertexData>, num': nat, v: Label, els: seq<Label>, els': seq<Label>, l: Label)
    requires Alike(heads, open, phi, data, num, data', num') && v in data && data[v].dfn.Finite? && v in data'
    requires data'[v].dfn.Finite? && Above(data, v, els) && Above(data', v, els') && Unique(data, v) && l in data
    ensures l in els <==> l in els'
    ensures l in heads && l in els ==> CounterLabel(l) in els'
    ensures l in heads && CounterLabel(l) in els' && l != v ==>
              l in els || (data[l].dfn.Infinity? && l in open) || data[l] == Unvisited
  {
    AlikeAt(heads, open, phi, data, num, data', num', v);
    AlikeAt(heads, open, phi, data, num, data', num', l);
    AlikeKeys(heads, open, phi, data, num, data', num');
    hide Alike;
    assert data[l].dfn.Finite? && data[l].dfn.n < data[v].dfn.n ==> phi[data[l].dfn.n] < phi[data[v].dfn.n];
    assert data[l].dfn.Finite? && data[v].dfn.n < data[l].dfn.n ==> phi[data[v].dfn.n] < phi[data[l].dfn.n];
  }

  /** The data after a cycle has been opened. */
  lemma {:induction false} LoopAlike(
    heads: set<Label>, open: set<Label>, phi: seq<nat>, data: map<Label, VertexData>, num: nat,
    data': map<Label, VertexData>, num': nat, v: Label, head: nat, els: seq<Label>, els': seq<Label>, c: VertexData)
    requires Alike(heads, open, phi, data, num, data', num') && v in data && data[v].dfn.Finite? && v in data'
    requires data'[v].dfn.Finite? && Above(data, v, els) && Above(data', v, els') && Unique(data, v) && v in open
    requires head <= num && |phi| == num + 1
    ensures Alike(heads, open, phi, Reset(data, els)[v := VertexData(Infinity, head)], num,
                  Reset(Replaced(heads, data', v, VertexData(Infinity, phi[head]), c), els'), num')
  {
    var d := VertexData(Infinity, head);
    var more, more' := data[v := d], Replaced(heads, data', v, VertexData(Infinity, phi[head]), c);
    hide Alike, Replaced, Reset;
    AlikeReplace(heads, open, phi, data, num, data', num', v, d, c);
    assert v !in els;
    hide Above;
    forall l | l in more
      ensures l in els <==> l in els'
      ensures l in heads && l in els ==> CounterLabel(l) in els'
      ensures l in heads && CounterLabel(l) in els' ==>
                l in els || (more[l].dfn.Infinity? && l in open) || more[l] == Unvisited
    {
      SameAbove(heads, open, phi, data, num, data', num', v, els, els', l);
    }
    AlikeReset(heads, open, phi, more, num, more', num', els, els');
    ResetThen(data, els, v, d);
  }

  lemma {:induction false} ResetThen(data: map<Label, VertexData>, els: seq<Label>, v: Label, d: VertexData)
    requires v !in els && v in data
    ensures Reset(data[v := d], els) == Reset(data, els)[v := d]
  {
  }

  lemma {:induction false} OpenedBy(s: State, r: State, v: Label, p: PartitionId, labels: seq<Label>)
    requires s.tasks != [] && Top(s).kind == StartVisit
    requires r.tasks == Popped(s).tasks + [VisitArgs(ContinueVisit, v, p, CycleOf(v))] + PushTasks(labels, CycleOf(v))
    ensures OpenHeads(s.tasks) <= OpenHeads(r.tasks) && v in OpenHeads(r.tasks)
  {
    hide PushTasks;
    OpenPopped(s, r.tasks);
    assert VisitArgs(ContinueVisit, v, p, CycleOf(v)) in r.tasks;
  }

  /** A cycle without a counter is opened. */
  lemma {:induction false} LoopSame(
    heads: set<Label>, phi: seq<nat>, s: State, r: State, s': State, r': State, v: Label, p: PartitionId,
    children: seq<Label>, head: nat, els: seq<Label>, els': seq<Label>)
    requires Visits(heads, phi, s, s', v) && v !in heads && Unique(s.data, v) && head <= s.num && |phi| == s.num + 1
    requires v in s'.data && s'.data[v].dfn.Finite? && s'.tasks != []
    requires OpensCycle(s, r, v, p, children, head, els) && OpensCycle(s', r', v, p, children, phi[head], els')
    requires Popped(s').tasks == Doubled(heads, Popped(s).tasks)
    ensures Same(heads, phi, r, r')
  {
    hide Alike, SameParts, Doubled, Pending, PushTasks, OpenHeads, Unique, Above, Reset;
    var t := VisitArgs(ContinueVisit, v, p, CycleOf(v));
    OpenedBy(s, r, v, p, Pending(children, r.data));
    AlikeOpen(heads, OpenHeads(s.tasks), OpenHeads(r.tasks), phi, s.data, s.num, s'.data, s'.num);
    LoopAlike(heads, OpenHeads(r.tasks), phi, s.data, s.num, s'.data, s'.num, v, head, els, els', Unvisited);
    NotAbove(s'.data, v, els');
    ResetThen(s'.data, els', v, VertexData(Infinity, phi[head]));
    assert r'.data == Reset(Replaced(heads, s'.data, v, VertexData(Infinity, phi[head]), Unvisited), els');
    SamePending(heads, OpenHeads(r.tasks), phi, r.data, r.num, r'.data, r'.num, children);
    DoubledVisit(heads, Popped(s).tasks, t, Pending(children, r.data), CycleOf(v));
    assert DoubledTask(heads, t) == [t];
    PartsOpened(heads, s.partitions, s'.partitions, CycleOf(v));
  }

  lemma {:induction false} NotAbove(data: map<Label, VertexData>, v: Label, els: seq<Label>)
    requires v in data && data[v].dfn.Finite? && Above(data, v, els)
    ensures v !in els
  {
  }

  lemma {:induction false} PartsOpened(
    heads: set<Label>, parts: map<PartitionId, seq<Component>>, parts': map<PartitionId, seq<Component>>,
    p: PartitionId)
    requires SameParts(heads, parts, parts')
    ensures SameParts(heads, parts[p := []], parts'[p := []])
  {
  }

  /** The visit of a label without a counter. */
  lemma {:induction false} PlainVisitSame(
    heads: set<Label>, phi: seq<nat>, s: State, r: State, s': State, r': State, v: Label, p: PartitionId,
    children: seq<Label>, a: (nat, bool, seq<Label>), b: (nat, bool, seq<Label>))
    requires Visits(heads, phi, s, s', v) && v !in heads && Unique(s.data, v)
    requires Outcome(s, r, v, p, children, a.0, a.1, a.2) && Outcome(s', r', v, p, children, b.0, b.1, b.2)
    requires Popped(s').tasks == Doubled(heads, Popped(s).tasks)
    ensures Same(heads, phi, r, r')
  {
    hide Same, Doubled, Lows, Singles, OpensCycle, HeadScan, Unique;
    VisitNumbers(heads, phi, s, s', v);
    var n := s.data[v].dfn.n;
    VisitScan(heads, phi, s, s', v, children, phi[n]);
    if a.0 != n {
      PlainLow(heads, phi, s, r, s', r', v, a.0, b.0);
    } else if !a.1 {
      PlainSingle(heads, phi, s, r, s', r', v, p, a.0, b.0);
    } else {
      LoopSame(heads, phi, s, r, s', r', v, p, children, a.0, a.2, b.2);
    }
  }

  lemma {:induction false} PlainLow(
    heads: set<Label>, phi: seq<nat>, s: State, r: State, s': State, r': State, v: Label, head: nat, head': nat)
    requires Visits(heads, phi, s, s', v) && v !in heads && s'.tasks != [] && v in s'.data
    requires |phi| == s.num + 1 && head <= s.data[v].dfn.n <= s.num && head' == phi[head]
    requires s'.data[v].dfn == Finite(phi[s.data[v].dfn.n])
    requires Lows(s, r, v, head) && Lows(s', r', v, head') && Popped(s').tasks == Doubled(heads, Popped(s).tasks)
    ensures Same(heads, phi, r, r')
  {
    hide Same, Doubled;
    LowSame(heads, phi, s, r, s', r', v, head, Unvisited);
  }

  lemma {:induction false} PlainSingle(
    heads: set<Label>, phi: seq<nat>, s: State, r: State, s': State, r': State, v: Label, p: PartitionId, head: nat,
    head': nat)
    requires Visits(heads, phi, s, s', v) && v !in heads && s'.tasks != [] && v in s'.data
    requires |phi| == s.num + 1 && head <= s.num && head' == phi[head]
    requires Singles(s, r, v, p, head) && Singles(s', r', v, p, head')
    requires Popped(s').tasks == Doubled(heads, Popped(s).tasks)
    ensures Same(heads, phi, r, r')
  {
    hide Same, Doubled;
    SingleSame(heads, phi, s, r, s', r', v, p, head, VertexData(Infinity, 0));
  }
}
