/** The end of the visits of a head and its counter, and the closing of a cycle. */
module CountedHead {
  import opened ControlFlow
  import opened WtoTree
  import opened WtoSteps
  import opened WtoInvariant
  import opened CountedData
  import opened CountedRun
  import opened CountedPush
  import opened CountedVisit
  import opened CountedStart

  /** A head and its counter, whose tasks are the two on top of the second run. */
  ghost predicate HeadVisits(heads: set<Label>, phi: seq<nat>, s: State, s': State, v: Label, p: PartitionId) {
    && Visits(heads, phi, s, s', v) && v in heads && s'.tasks != [] && Top(s) == VisitArgs(StartVisit, v, p, p)
    && Popped(s').tasks == Doubled(heads, Popped(s).tasks) + [Top(s)]
    && Top(s') == VisitArgs(StartVisit, CounterLabel(v), p, p)
  }

  lemma {:induction false} TopHead(heads: set<Label>, phi: seq<nat>, s: State, s': State)
    requires Same(heads, phi, s, s') && s.tasks != [] && Top(s).kind != PushSuccessors && Top(s).vertex in heads
    ensures s'.tasks != [] && Top(s') == CounterVisit(Top(s))
    ensures Popped(s').tasks == Doubled(heads, Popped(s).tasks) + [Top(s)]
  {
    hide Alike, SameParts;
    assert s.tasks == Popped(s).tasks + [Top(s)];
    DoubledSnoc(heads, Popped(s).tasks, Top(s));
  }

  /** The counter's visit: it joins the cycle of its head or stands alone before it. */
  lemma {:induction false} CounterFirst(
    heads: set<Label>, phi: seq<nat>, s: State, r: State, s': State, m: State, v: Label, p: PartitionId,
    children: seq<Label>, a: (nat, bool, seq<Label>), b: (nat, bool, seq<Label>))
    requires HeadVisits(heads, phi, s, s', v, p) && Outcome(s, r, v, p, children, a.0, a.1, a.2)
    requires Outcome(s', m, CounterLabel(v), p, children, b.0, b.1, b.2)
    ensures |phi| == s.num + 1 && a.0 <= s.data[v].dfn.n <= s.num && (a.0 < s.data[v].dfn.n ==> a.1)
    ensures a.1 ==> Lows(s', m, CounterLabel(v), phi[a.0]) && 0 < phi[a.0] <= phi[s.data[v].dfn.n]
    ensures !a.1 ==> Singles(s', m, CounterLabel(v), p, phi[s.data[v].dfn.n] + 1)
  {
    hide Same, Doubled, Lows, Singles, OpensCycle, HeadScan;
    VisitNumbers(heads, phi, s, s', v);
    var n := s.data[v].dfn.n;
    VisitScan(heads, phi, s, s', v, children, phi[n] + 1);
    assert a.0 < n ==> phi[a.0] < phi[n];
    assert a.0 > 0 ==> phi[0] < phi[a.0];
  }

  lemma {:induction false} ScanOnly(c: Label, data: map<Label, VertexData>, start: nat)
    requires c in data
    ensures HeadScan([c], data, start, false) ==
            if AtMost(MinDfn(data[c]), start) then (MinDfn(data[c]).n, true) else (start, false)
  {
    assert [c][1..] == [];
  }

  /** Then the head's own visit finds what it would have found without the counter. */
  lemma {:induction false} HeadSecond(
    heads: set<Label>, phi: seq<nat>, s: State, s': State, m: State, q: State, v: Label, p: PartitionId, head: nat,
    loop: bool, b: (nat, bool, seq<Label>))
    requires HeadVisits(heads, phi, s, s', v, p) && Outcome(m, q, v, p, [CounterLabel(v)], b.0, b.1, b.2)
    requires |phi| == s.num + 1 && head <= s.data[v].dfn.n <= s.num && (head < s.data[v].dfn.n ==> loop)
    requires CounterLabel(v) in s'.data
    requires loop ==> Lows(s', m, CounterLabel(v), phi[head]) && 0 < phi[head] <= phi[s.data[v].dfn.n]
    requires !loop ==> Singles(s', m, CounterLabel(v), p, phi[s.data[v].dfn.n] + 1)
    ensures m.tasks == Popped(s').tasks && m.num == s'.num && v in m.data && v in s'.data && m.data[v] == s'.data[v]
    ensures m.data[v].dfn == Finite(phi[s.data[v].dfn.n])
    ensures head < s.data[v].dfn.n ==> Lows(m, q, v, phi[head])
    ensures head == s.data[v].dfn.n && !loop ==> Singles(m, q, v, p, phi[head])
    ensures head == s.data[v].dfn.n && loop ==> OpensCycle(m, q, v, p, [CounterLabel(v)], phi[head], b.2)
  {
    hide Same, Doubled, OpensCycle, HeadScan;
    VisitNumbers(heads, phi, s, s', v);
    var n := s.data[v].dfn.n;
    assert head < n ==> phi[head] < phi[n];
    ScanOnly(CounterLabel(v), m.data, phi[n]);
  }

  lemma {:induction false} HeadLow(
    heads: set<Label>, phi: seq<nat>, s: State, r: State, s': State, m: State, q: State, v: Label, p: PartitionId,
    head: nat)
    requires HeadVisits(heads, phi, s, s', v, p) && Lows(s, r, v, head) && CounterLabel(v) in s'.data
    requires |phi| == s.num + 1 && head <= s.data[v].dfn.n <= s.num && v in m.data && m.tasks != []
    requires m.tasks == Popped(s').tasks && m.data[v].dfn == Finite(phi[s.data[v].dfn.n])
    requires Lows(s', m, CounterLabel(v), phi[head]) && Lows(m, q, v, phi[head])
    ensures Same(heads, phi, r, q)
  {
    VisitNumbers(heads, phi, s, s', v);
    hide Same, Doubled;
    LowSame(heads, phi, s, r, s', q, v, head, VertexData(Finite(phi[s.data[v].dfn.n] + 1), phi[head]));
  }

  lemma {:induction false} HeadSingle(
    heads: set<Label>, phi: seq<nat>, s: State, r: State, s': State, m: State, q: State, v: Label, p: PartitionId,
    head: nat)
    requires HeadVisits(heads, phi, s, s', v, p) && Singles(s, r, v, p, head) && CounterLabel(v) in s'.data
    requires |phi| == s.num + 1 && head == s.data[v].dfn.n <= s.num && m.tasks != []
    requires m.tasks == Popped(s').tasks
    requires Singles(s', m, CounterLabel(v), p, phi[head] + 1) && Singles(m, q, v, p, phi[head])
    ensures Same(heads, phi, r, q)
  {
    VisitNumbers(heads, phi, s, s', v);
    hide Same, Doubled;
    var c := CounterLabel(v);
    assert s'.partitions[p] + [Vertex(c)] + [Vertex(v)] == s'.partitions[p] + FollowedOne(heads, Vertex(v));
    SingleSame(heads, phi, s, r, s', q, v, p, head, VertexData(Infinity, phi[head] + 1));
  }

  /** A cycle with a counter is opened, and the counter pushed into it. */
  lemma {:induction false} HeadLoop(
    heads: set<Label>, phi: seq<nat>, s: State, r: State, s': State, m: State, q: State, r': State, v: Label,
    p: PartitionId, children: seq<Label>, head: nat, els: seq<Label>, els': seq<Label>)
    requires HeadVisits(heads, phi, s, s', v, p) && Unique(s.data, v)
    requires CounterLabel(v) in s'.data && CounterLabel(v) != v && v in m.data && m.data[v].dfn.Finite? && m.tasks != []
    requires |phi| == s.num + 1 && head == s.data[v].dfn.n <= s.num && OpensCycle(s, r, v, p, children, head, els)
    requires m.tasks == Popped(s').tasks && v in s'.data && m.data[v] == s'.data[v]
    requires Lows(s', m, CounterLabel(v), phi[head]) && OpensCycle(m, q, v, p, [CounterLabel(v)], phi[head], els')
    requires Pushes(q, r', CounterLabel(v), CycleOf(v), children)
    requires Popped(q).tasks == Popped(m).tasks + [VisitArgs(ContinueVisit, v, p, CycleOf(v))]
    ensures Same(heads, phi, r, r')
  {
    hide Alike, SameParts, Doubled, Pending, PushTasks, OpenHeads, Unique, Reset;
    var c, t, open := CounterLabel(v), VisitArgs(ContinueVisit, v, p, CycleOf(v)), OpenHeads(r.tasks);
    OpenedBy(s, r, v, p, Pending(children, r.data));
    AlikeOpen(heads, OpenHeads(s.tasks), open, phi, s.data, s.num, s'.data, s'.num);
    assert c in m.data;
    LoopAlike(heads, open, phi, s.data, s.num, s'.data, s'.num, v, head, els, els', m.data[c]);
    hide Above;
    HeadLoopData(s'.data, m.data, v, c, VertexData(Infinity, phi[head]), els', q.data);
    AlikeCounter(heads, open, open, phi, r.data, r.num, q.data, q.num, v, VertexData(Finite(q.num + 1), 0), r'.num);
    SamePending(heads, open, phi, r.data, r.num, r'.data, r'.num, children);
    DoubledVisit(heads, Popped(s).tasks, t, Pending(children, r.data), CycleOf(v));
    PartsOpened(heads, s.partitions, s'.partitions, CycleOf(v));
  }

  lemma {:induction false} HeadLoopData(
    data: map<Label, VertexData>, mid: map<Label, VertexData>, v: Label, c: Label, d: VertexData, els: seq<Label>,
    q: map<Label, VertexData>)
    requires v in data && c in data && c in mid && c != v && mid == data[c := mid[c]]
    requires v !in els && q == Reset(mid, els)[v := d]
    ensures q == Reset(data[c := mid[c]][v := d], els)
  {
  }

  // ----- whole tasks -----

  /** The visit of a label without a counter ends in both runs. */
  lemma {:induction false} PlainVisitAlong(
    g: Cfg, heads: set<Label>, g': Cfg, phi: seq<nat>, s: State, r: State, s': State) returns (r': State)
    requires Together(g, heads, g', phi, s, s') && Leads(g, s, r) && s.tasks != [] && Top(s).kind == StartVisit
    requires Top(s).vertex !in heads
    ensures Takes(g', s', r', 1)
    ensures OnTheWay(g', r') && Same(heads, phi, r, r')
  {
    hide Setting, OnTheWay, Leads, Same, Outcome, Unique, Doubled, Takes;
    var v, p := Top(s).vertex, Top(s).partition;
    TopPlain(heads, phi, s, s');
    r' := Onward(g', s');
    TakesOne(g', s', r');
    var head, loop, els := StartOnTheWay(g, s, r);
    var head', loop', els' := StartOnTheWay(g', s', r');
    SettingAt(g, heads, g', v);
    VisitUnique(g, s, r, v, p, g.children[v], head, loop, els);
    PlainVisitSame(heads, phi, s, r, s', r', v, p, g.children[v], (head, loop, els), (head', loop', els'));
  }

  lemma {:induction false} VisitUnique(
    g: Cfg, s: State, r: State, v: Label, p: PartitionId, children: seq<Label>, head: nat, loop: bool,
    els: seq<Label>)
    requires OnTheWay(g, s) && Outcome(s, r, v, p, children, head, loop, els)
    ensures v in s.data && s.data[v].dfn.Finite? && s.data[v].dfn.n > 0 && Unique(s.data, v)
  {
    hide OnTheWay, Lows, Singles, OpensCycle, HeadScan, Unique, Numbers;
    OnTheWayBasics(g, s);
    NumberIsUnique(g, s, v);
  }

  /** The visits of a head and its counter end. */
  lemma {:induction false} HeadVisitAlong(
    g: Cfg, heads: set<Label>, g': Cfg, phi: seq<nat>, s: State, r: State, s': State) returns (r': State)
    requires Together(g, heads, g', phi, s, s') && Leads(g, s, r) && s.tasks != [] && Top(s).kind == StartVisit
    requires Top(s).vertex in heads
    ensures Takes(g', s', r', 2) || Takes(g', s', r', 3)
    ensures OnTheWay(g', r') && Same(heads, phi, r, r')
  {
    hide Setting, OnTheWay, Leads, Same, Outcome, Unique, Doubled, Lows, Singles, OpensCycle, Pushes, Takes;
    var v, p := Top(s).vertex, Top(s).partition;
    var c := CounterLabel(v);
    TopHead(heads, phi, s, s');
    StartFacts(g, s);
    SettingAt(g, heads, g', v);
    var m := Onward(g', s');
    var head, loop, els := StartOnTheWay(g, s, r);
    var h1, l1, e1 := StartOnTheWay(g', s', m);
    VisitUnique(g, s, r, v, p, g.children[v], head, loop, els);
    OutcomeVertex(s', m, c, p, g.children[v], h1, l1, e1);
    CounterFirst(heads, phi, s, r, s', m, v, p, g.children[v], (head, loop, els), (h1, l1, e1));
    MidTasks(s', m, c, p, phi[head], phi[s.data[v].dfn.n] + 1, loop);
    assert m.tasks == Doubled(heads, Popped(s).tasks) + [Top(s)];
    var q := Onward(g', m);
    TakesOne(g', m, q);
    TakesOneMore(g', s', m, q, 1);
    var h2, l2, e2 := StartOnTheWay(g', m, q);
    HeadSecond(heads, phi, s, s', m, q, v, p, head, loop, (h2, l2, e2));
    OutcomeIs(s, r, v, p, g.children[v], head, loop, els);
    if head != s.data[v].dfn.n {
      HeadLow(heads, phi, s, r, s', m, q, v, p, head);
      r' := q;
    } else if !loop {
      HeadSingle(heads, phi, s, r, s', m, q, v, p, head);
      r' := q;
    } else {
      CounterAbove(heads, phi, s, s', m, v, p, phi[head]);
      CounterNext(m, q, v, p, phi[head], e2);
      r' := Onward(g', q);
      TakesOne(g', q, r');
      TakesOneMore(g', m, q, r', 1);
      TakesOneMore(g', s', m, r', 2);
      PushOnTheWay(g', q, r');
      HeadLoop(heads, phi, s, r, s', m, q, r', v, p, g.children[v], head, els, e2);
    }
  }

  lemma {:induction false} CounterAbove(
    heads: set<Label>, phi: seq<nat>, s: State, s': State, m: State, v: Label, p: PartitionId, low: nat)
    requires HeadVisits(heads, phi, s, s', v, p) && CounterLabel(v) in s'.data
             && Lows(s', m, CounterLabel(v), low)
    ensures v in m.data && m.data[v].dfn.Finite? && CounterLabel(v) in m.data && m.data[CounterLabel(v)].dfn.Finite?
    ensures m.data[CounterLabel(v)].dfn.n > m.data[v].dfn.n
  {
    hide Same, Doubled;
    VisitNumbers(heads, phi, s, s', v);
  }

  lemma {:induction false} OutcomeVertex(s: State, r: State, v: Label, p: PartitionId, children: seq<Label>, head: nat,
                                         loop: bool, els: seq<Label>)
    requires Outcome(s, r, v, p, children, head, loop, els)
    ensures v in s.data
  {
    hide Lows, Singles, OpensCycle, HeadScan;
  }

  lemma {:induction false} OutcomeIs(s: State, r: State, v: Label, p: PartitionId, children: seq<Label>, head: nat,
                                     loop: bool, els: seq<Label>)
    requires Outcome(s, r, v, p, children, head, loop, els)
    ensures v in s.data && s.data[v].dfn.Finite? && s.tasks != []
    ensures if head != s.data[v].dfn.n then Lows(s, r, v, head)
            else if !loop then Singles(s, r, v, p, head)
            else OpensCycle(s, r, v, p, children, head, els)
  {
    hide Lows, Singles, OpensCycle, HeadScan;
  }

  lemma {:induction false} MidTasks(s: State, m: State, c: Label, p: PartitionId, low: nat, single: nat, loop: bool)
    requires c in s.data && s.tasks != []
    requires if loop then Lows(s, m, c, low) else Singles(s, m, c, p, single)
    ensures m.tasks == Popped(s).tasks
  {
  }

  /** Once a cycle with a counter is open its counter is next. */
  lemma {:induction false} CounterNext(m: State, q: State, v: Label, p: PartitionId, head: nat, els: seq<Label>)
    requires v in m.data && m.data[v].dfn.Finite? && m.tasks != [] && CounterLabel(v) != v
    requires OpensCycle(m, q, v, p, [CounterLabel(v)], head, els)
    requires CounterLabel(v) in m.data && m.data[CounterLabel(v)].dfn.Finite?
    requires m.data[CounterLabel(v)].dfn.n > m.data[v].dfn.n
    ensures q.tasks != [] && Top(q) == VisitArgs(PushSuccessors, CounterLabel(v), CycleOf(v), CycleOf(v))
    ensures Popped(q).tasks == Popped(m).tasks + [VisitArgs(ContinueVisit, v, p, CycleOf(v))]
    ensures CounterLabel(v) in q.data && q.data[CounterLabel(v)].dfn == Finite(0)
  {
    hide Pending, PushTasks;
    PendingOnly(CounterLabel(v), q.data, CycleOf(v));
  }
}
