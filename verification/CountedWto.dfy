/** The order of a graph with counters is the order of the graph with each counter right after its head
    (src/cfg/wto.cpp:205-218, src/ir/cfg_builder.cpp:298-306, src/fwd_analyzer.cpp:265-272). */
module CountedWto {
  import opened ControlFlow
  import opened WtoTree
  import opened WtoSteps
  import opened WtoInvariant
  import opened Counters
  import opened CountedData
  import opened CountedRun
  import opened CountedPush
  import opened CountedVisit
  import opened CountedHead
  import opened LoopCuts
  import WeakOrder

  // ----- closing a cycle -----

  /** `r` is `s` after the cycle of `v` has been placed in `p`. */
  ghost predicate Closes(s: State, r: State, v: Label, p: PartitionId) {
    && s.tasks != [] && CycleOf(v) in s.partitions && p in s.partitions && p != CycleOf(v)
    && r.data == s.data && r.num == s.num && r.tasks == Popped(s).tasks
    && r.partitions == Closed(s.partitions, v, p)
  }

  ghost function Closed(parts: map<PartitionId, seq<Component>>, v: Label, p: PartitionId)
    : map<PartitionId, seq<Component>>
    requires CycleOf(v) in parts && p in parts
  {
    var cs := parts[CycleOf(v)] + [Vertex(v)];
    parts[CycleOf(v) := cs][p := parts[p] + [Cycle(cs)]]
  }

  lemma {:induction false} CloseOnTheWay(g: Cfg, s: State, r: State)
    requires OnTheWay(g, s) && Leads(g, s, r) && s.tasks != [] && Top(s).kind == ContinueVisit
    ensures Closes(s, r, Top(s).vertex, Top(s).partition)
  {
    hide OnTheWay;
    ContinueFacts(g, s);
  }

  lemma {:induction false} OpenClosed(s: State, h: Label)
    requires s.tasks != [] && h in OpenHeads(s.tasks) && h != Top(s).vertex
    ensures h in OpenHeads(Popped(s).tasks)
  {
    var t :| t in s.tasks && t.kind == ContinueVisit && t.vertex == h;
    assert s.tasks == Popped(s).tasks + [Top(s)];
    assert t in Popped(s).tasks;
  }

  lemma {:induction false} PartsUpdated(
    heads: set<Label>, parts: map<PartitionId, seq<Component>>, parts': map<PartitionId, seq<Component>>,
    id: PartitionId, cs: seq<Component>, cs': seq<Component>)
    requires SameParts(heads, parts, parts') && cs' == Followed(heads, cs)
    ensures SameParts(heads, parts[id := cs], parts'[id := cs'])
  {
    hide Followed;
  }

  /** The second run has `cs'` in its cycle when the cycle is closed. */
  lemma {:induction false} PartsClosed(
    heads: set<Label>, parts: map<PartitionId, seq<Component>>, parts': map<PartitionId, seq<Component>>, v: Label,
    p: PartitionId, cs': seq<Component>)
    requires SameParts(heads, parts, parts') && CycleOf(v) in parts && p in parts && p != CycleOf(v)
    requires cs' + [Vertex(v)] == Followed(heads, parts[CycleOf(v)]) + FollowedOne(heads, Vertex(v))
    ensures p in parts' && SameParts(heads, Closed(parts, v, p), Closed(parts'[CycleOf(v) := cs'], v, p))
  {
    var cs, all' := parts[CycleOf(v)] + [Vertex(v)], cs' + [Vertex(v)];
    FollowedSnoc(heads, parts[CycleOf(v)], Vertex(v));
    FollowedSnoc(heads, parts[p], Cycle(cs));
    assert FollowedOne(heads, Cycle(cs)) == [Cycle(all')];
    hide Followed, FollowedOne;
    PartsUpdated(heads, parts, parts', CycleOf(v), cs, all');
    PartsUpdated(heads, parts[CycleOf(v) := cs], parts'[CycleOf(v) := all'], p, parts[p] + [Cycle(cs)],
                 parts'[p] + [Cycle(all')]);
    hide SameParts;
    assert parts'[CycleOf(v) := cs'][CycleOf(v) := all'] == parts'[CycleOf(v) := all'];
  }

  lemma {:induction false} SamePart(
    heads: set<Label>, parts: map<PartitionId, seq<Component>>, parts': map<PartitionId, seq<Component>>,
    id: PartitionId)
    requires SameParts(heads, parts, parts') && id in parts
    ensures id in parts' && parts'[id] == Followed(heads, parts[id])
  {
  }

  lemma {:induction false} PlainCloseAlong(
    g: Cfg, heads: set<Label>, g': Cfg, phi: seq<nat>, s: State, r: State, s': State) returns (r': State)
    requires Together(g, heads, g', phi, s, s') && Leads(g, s, r) && s.tasks != [] && Top(s).kind == ContinueVisit
    requires Top(s).vertex !in heads
    ensures Takes(g', s', r', 1)
    ensures OnTheWay(g', r') && Same(heads, phi, r, r')
  {
    hide Setting, OnTheWay, Leads, Doubled, Closed, Alike, SameParts, OpenHeads, Takes;
    var v, p := Top(s).vertex, Top(s).partition;
    TopPlain(heads, phi, s, s');
    r' := Onward(g', s');
    TakesOne(g', s', r');
    CloseOnTheWay(g, s, r);
    CloseOnTheWay(g', s', r');
    SamePart(heads, s.partitions, s'.partitions, CycleOf(v));
    PartsClosed(heads, s.partitions, s'.partitions, v, p, s'.partitions[CycleOf(v)]);
    assert s'.partitions[CycleOf(v) := s'.partitions[CycleOf(v)]] == s'.partitions;
    forall h | h in heads && h in OpenHeads(s.tasks) ensures h in OpenHeads(r.tasks) {
      OpenClosed(s, h);
    }
    AlikeOpen(heads, OpenHeads(s.tasks), OpenHeads(r.tasks), phi, r.data, r.num, r'.data, r'.num);
  }

  /** Before a cycle is closed its counter, all of whose successors are done, is placed in it. */
  lemma {:induction false} CounterLast(
    heads: set<Label>, phi: seq<nat>, s: State, s': State, m: State, v: Label, children: seq<Label>,
    b: (nat, bool, seq<Label>))
    requires Same(heads, phi, s, s')
    requires forall x :: x in children ==> x in s.data && s.data[x].dfn.Infinity?
    requires Outcome(s', m, CounterLabel(v), CycleOf(v), children, b.0, b.1, b.2)
    ensures Singles(s', m, CounterLabel(v), CycleOf(v), b.0)
  {
    hide Same, Lows, Singles, OpensCycle, HeadScan;
    forall x | x in children ensures x in s'.data && s'.data[x].dfn.Infinity? {
      SameAt(heads, phi, s, s', x);
    }
    NothingFound(children, s'.data, s'.data[CounterLabel(v)].dfn.n);
  }

  lemma {:induction false} HeadCloseAlong(
    g: Cfg, heads: set<Label>, g': Cfg, phi: seq<nat>, s: State, r: State, s': State) returns (r': State)
    requires Together(g, heads, g', phi, s, s') && Leads(g, s, r) && s.tasks != [] && Top(s).kind == ContinueVisit
    requires Top(s).vertex in heads
    ensures Takes(g', s', r', 2)
    ensures OnTheWay(g', r') && Same(heads, phi, r, r')
  {
    hide Setting, OnTheWay, Leads, Same, Outcome, Doubled, Singles, Closes, Takes;
    var v, p := Top(s).vertex, Top(s).partition;
    TopHead(heads, phi, s, s');
    ContinueFacts(g, s);
    SettingAt(g, heads, g', v);
    CloseOnTheWay(g, s, r);
    var m := Onward(g', s');
    var head, loop, els := StartOnTheWay(g', s', m);
    CounterLast(heads, phi, s, s', m, v, g.children[v], (head, loop, els));
    SingleTasks(s', m, CounterLabel(v), CycleOf(v), head);
    assert m.tasks == Doubled(heads, Popped(s).tasks) + [Top(s)];
    r' := Onward(g', m);
    TakesOne(g', m, r');
    TakesOneMore(g', s', m, r', 1);
    CloseOnTheWay(g', m, r');
    HeadCloseSame(heads, phi, s, r, s', m, r', v, p, head);
  }

  lemma {:induction false} SingleTasks(s: State, m: State, c: Label, p: PartitionId, head: nat)
    requires s.tasks != [] && Singles(s, m, c, p, head)
    ensures m.tasks == Popped(s).tasks
  {
  }

  lemma {:induction false} HeadCloseSame(
    heads: set<Label>, phi: seq<nat>, s: State, r: State, s': State, m: State, r': State, v: Label, p: PartitionId,
    head: nat)
    requires Same(heads, phi, s, s') && v in heads && v in s.data && s.data[v].dfn.Infinity? && s'.tasks != []
    requires Singles(s', m, CounterLabel(v), CycleOf(v), head) && Closes(s, r, v, p) && Closes(m, r', v, p)
    requires Top(s).vertex == v && m.tasks == Doubled(heads, Popped(s).tasks) + [Top(s)]
    ensures Same(heads, phi, r, r')
  {
    hide Closed, Alike, SameParts, OpenHeads, Doubled;
    SamePart(heads, s.partitions, s'.partitions, CycleOf(v));
    var cs' := s'.partitions[CycleOf(v)] + [Vertex(CounterLabel(v))];
    assert cs' + [Vertex(v)] == s'.partitions[CycleOf(v)] + FollowedOne(heads, Vertex(v));
    PartsClosed(heads, s.partitions, s'.partitions, v, p, cs');
    forall h | h in heads && h in OpenHeads(s.tasks) && h != v ensures h in OpenHeads(r.tasks) {
      OpenClosed(s, h);
    }
    AlikeCounter(heads, OpenHeads(s.tasks), OpenHeads(r.tasks), phi, s.data, s.num, s'.data, s'.num, v,
                 VertexData(Infinity, head), s'.num);
  }

  // ----- whole runs -----

  /** Each task of the run without counters is one task or a few of the run with them. */
  lemma {:induction false} TaskAlong(g: Cfg, heads: set<Label>, g': Cfg, phi: seq<nat>, s: State, r: State, s': State)
    returns (psi: seq<nat>, r': State)
    requires Together(g, heads, g', phi, s, s') && Leads(g, s, r) && s.tasks != []
    ensures exists n :: 1 <= n <= 3 && Takes(g', s', r', n)
    ensures OnTheWay(g', r') && Same(heads, psi, r, r')
  {
    hide Together, OnTheWay, Same, Takes;
    var v := Top(s).vertex;
    assert v in s.data;
    hide Leads;
    psi := phi;
    match Top(s).kind
    case PushSuccessors => psi, r' := PushAlong(g, heads, g', phi, s, r, s');
    case StartVisit =>
      if v in heads {
        r' := HeadVisitAlong(g, heads, g', phi, s, r, s');
      } else {
        r' := PlainVisitAlong(g, heads, g', phi, s, r, s');
      }
    case ContinueVisit =>
      if v in heads {
        r' := HeadCloseAlong(g, heads, g', phi, s, r, s');
      } else {
        r' := PlainCloseAlong(g, heads, g', phi, s, r, s');
      }
  }

  lemma {:induction false} RunAlong(g: Cfg, heads: set<Label>, g': Cfg, n: nat)
    returns (phi: seq<nat>, s': State)
    requires Setting(g, heads, g')
    ensures Together(g, heads, g', phi, Ran(g, Initial(g), n), s')
  {
    hide Ran, OnTheWay, Same, Setting, Leads;
    if n == 0 {
      SettingFormed(g, heads, g');
      FirstState(g);
      FirstState(g');
      FirstSame(g, heads, g');
      NothingRan(g);
      phi, s' := [0], Initial(g');
    } else {
      phi, s' := RunAlong(g, heads, g', n - 1);
      var s := Ran(g, Initial(g), n - 1);
      if s.tasks == [] {
        RanEnds(g, Initial(g), n - 1, n);
      } else {
        var r := Onward(g, s);
        RanLeads(g, Initial(g), n - 1, r);
        phi, s' := TaskAlong(g, heads, g', phi, s, r, s');
      }
    }
  }

  lemma {:induction false} SettingFormed(g: Cfg, heads: set<Label>, g': Cfg)
    requires Setting(g, heads, g')
    ensures g.WellFormed() && g'.WellFormed()
  {
  }

  lemma {:induction false} NothingRan(g: Cfg)
    ensures Ran(g, Initial(g), 0) == Initial(g)
  {
  }

  lemma {:induction false} RanLeads(g: Cfg, s: State, n: nat, r: State)
    requires Leads(g, Ran(g, s, n), r)
    ensures Ran(g, s, n + 1) == r
  {
    hide Ran, TaskStep, Runnable;
    RanOneMore(g, s, n);
  }

  /** The order built of the graph with counters has each counter right after its head. */
  lemma {:induction false} BuiltFollows(g: Cfg, heads: set<Label>, g': Cfg, w: WeakOrder.Wto, w': WeakOrder.Wto)
    requires Setting(g, heads, g') && WeakOrder.IsBuilt(g, w) && WeakOrder.IsBuilt(g', w')
    ensures w'.components == Followed(heads, w.components)
  {
    hide Ran, Setting, WeakOrder.IsBuilt;
    var n: nat := BuiltSteps(g, w);
    var phi, s' := RunAlong(g, heads, g', n);
    SameEnds(heads, phi, Ran(g, Initial(g), n), s');
    BuiltFrom(g', s', w');
  }

  lemma {:induction false} BuiltSteps(g: Cfg, w: WeakOrder.Wto) returns (n: nat)
    requires WeakOrder.IsBuilt(g, w)
    ensures WeakOrder.BuiltAfter(g, w, n)
  {
    hide WeakOrder.BuiltAfter;
    n :| WeakOrder.BuiltAfter(g, w, n);
  }

  lemma {:induction false} SameEnds(heads: set<Label>, phi: seq<nat>, s: State, s': State)
    requires Same(heads, phi, s, s') && s.tasks == [] && TopLevel in s.partitions
    ensures s'.tasks == [] && TopLevel in s'.partitions
    ensures s'.partitions[TopLevel] == Followed(heads, s.partitions[TopLevel])
  {
    hide Alike;
  }

  lemma {:induction false} BuiltFrom(g: Cfg, s: State, w: WeakOrder.Wto)
    requires OnTheWay(g, s) && s.tasks == [] && TopLevel in s.partitions && WeakOrder.IsBuilt(g, w)
    ensures w.components == s.partitions[TopLevel]
  {
    hide Ran, Kept;
    var n: nat, fs: seq<Frame> :| Ran(g, Initial(g), n) == s && Kept(g, s, fs);
    var w0 := WeakOrder.Wto(s.partitions[TopLevel], s.containing, s.enclosing);
    assert WeakOrder.BuiltAfter(g, w0, n);
    WeakOrder.BuiltIsUnique(g, w, w0);
  }

  // ----- reading the order -----

  /** A reading order with each counter right after its head. */
  ghost function WithCounters(heads: set<Label>, order: seq<Label>): seq<Label> {
    if order == [] then []
    else
      var l := order[0];
      (if l in heads then [l, CounterLabel(l)] else [l]) + WithCounters(heads, order[1..])
  }

  lemma {:induction false} WithCountersConcat(heads: set<Label>, a: seq<Label>, b: seq<Label>)
    ensures WithCounters(heads, a + b) == WithCounters(heads, a) + WithCounters(heads, b)
  {
    if a == [] {
      assert a + b == b;
    } else {
      assert (a + b)[1..] == a[1..] + b;
      WithCountersConcat(heads, a[1..], b);
    }
  }

  lemma {:induction false} OrderConcat(a: seq<Component>, b: seq<Component>)
    ensures Order(a + b) == Order(b) + Order(a)
  {
    if b == [] {
      assert a + b == a;
    } else {
      hide Order;
      var n := |b| - 1;
      assert a + b == (a + b[..n]) + [b[n]];
      assert b == b[..n] + [b[n]];
      OrderConcat(a, b[..n]);
      OrderSnoc(a + b[..n], b[n]);
      OrderSnoc(b[..n], b[n]);
    }
  }

  lemma {:induction false} FollowedOrder(heads: set<Label>, cs: seq<Component>)
    ensures Order(Followed(heads, cs)) == WithCounters(heads, Order(cs))
  {
    if cs != [] {
      var n := |cs| - 1;
      FollowedOrder(heads, cs[..n]);
      FollowedOneOrder(heads, cs[n]);
      OrderConcat(Followed(heads, cs[..n]), FollowedOne(heads, cs[n]));
      WithCountersConcat(heads, OrderOf(cs[n]), Order(cs[..n]));
    }
  }

  lemma {:induction false} FollowedOneOrder(heads: set<Label>, c: Component)
    ensures Order(FollowedOne(heads, c)) == WithCounters(heads, OrderOf(c))
  {
    match c
    case Vertex(l) =>
      assert [l][1..] == [];
      OrderSnoc([], Vertex(l));
      if l in heads {
        OrderSnoc([Vertex(CounterLabel(l))], Vertex(l));
        OrderSnoc([], Vertex(CounterLabel(l)));
        assert [] + [Vertex(CounterLabel(l))] == [Vertex(CounterLabel(l))];
      }
      assert [] + [Vertex(l)] == [Vertex(l)];
    case Cycle(cs) =>
      FollowedOrder(heads, cs);
      OrderSnoc([], Cycle(Followed(heads, cs)));
      assert [] + [Cycle(Followed(heads, cs))] == [Cycle(Followed(heads, cs))];
  }

  lemma {:induction false} FollowedHeaded(heads: set<Label>, cs: seq<Component>)
    ensures Headed(Followed(heads, cs)) <==> Headed(cs)
    ensures Headed(cs) ==> Head(Followed(heads, cs)) == Head(cs)
  {
  }

  lemma {:induction false} FollowedHeads(heads: set<Label>, cs: seq<Component>)
    ensures LoopHeads(Followed(heads, cs)) == LoopHeads(cs)
  {
    if cs != [] {
      var n := |cs| - 1;
      var rest, c := Followed(heads, cs[..n]), cs[n];
      FollowedHeads(heads, cs[..n]);
      match c
      case Vertex(l) =>
        LoopHeadsSnoc(rest, Vertex(l));
        if l in heads {
          LoopHeadsSnoc(rest, Vertex(CounterLabel(l)));
          LoopHeadsSnoc(rest + [Vertex(CounterLabel(l))], Vertex(l));
          assert rest + [Vertex(CounterLabel(l))] + [Vertex(l)] == Followed(heads, cs);
        }
      case Cycle(body) =>
        FollowedHeaded(heads, body);
        LoopHeadsSnoc(rest, Cycle(Followed(heads, body)));
    }
  }

  lemma {:induction false} LoopHeadsSnoc(cs: seq<Component>, c: Component)
    ensures LoopHeads(cs + [c]) ==
            (if c.Cycle? && Headed(c.components) then [Head(c.components)] else []) + LoopHeads(cs)
  {
    assert (cs + [c])[..|cs|] == cs;
  }

  /** The head of a strongly connected cycle leads somewhere. */
  lemma {:induction false} CycleHeadLeads(g: Cfg, body: seq<Component>)
    requires Headed(body) && RealComponent(g, Cycle(body))
    ensures Head(body) in g.children && g.children[Head(body)] != []
  {
    hide Headed, Head, RealCycles;
    HeadFirst(body);
    hide Order;
    var h := Head(body);
    assert Connected(g, Members(body), h, h);
    var path :| IsPath(g, Members(body), path) && path[0] == h && path[|path| - 1] == h;
    assert g.Edge(path[0], path[1]);
  }

  lemma {:induction false} HeadLeads(g: Cfg, cs: seq<Component>, h: Label)
    requires RealCycles(g, cs) && h in LoopHeads(cs)
    ensures h in g.children && g.children[h] != []
  {
    hide RealComponent;
    var n := |cs| - 1;
    if h in LoopHeads(cs[..n]) {
      HeadLeads(g, cs[..n], h);
    } else {
      assert RealComponent(g, cs[n]);
      CycleHeadLeads(g, cs[n].components);
    }
  }

  /** What counters do to the order that is built: each is read right after its head and nothing else
      changes, so the outermost cycles have the heads that were counted. */
  lemma {:induction false} CountedOrderIsBuilt(g: Cfg, w: WeakOrder.Wto, g': Cfg, w': WeakOrder.Wto)
    requires g.WellFormed() && WeakOrder.Valid(g, w) && WeakOrder.IsBuilt(g, w) && WeakOrder.IsBuilt(g', w')
    requires var heads := Range(LoopHeads(w.components)); Counted(g, heads, g') && Threaded(g, heads, g')
    ensures var heads := Range(LoopHeads(w.components));
            && w'.components == Followed(heads, w.components)
            && Order(w'.components) == WithCounters(heads, Order(w.components))
            && LoopHeads(w'.components) == LoopHeads(w.components)
  {
    var heads := Range(LoopHeads(w.components));
    IsSetting(g, w, g');
    BuiltFollows(g, heads, g', w, w');
    FollowedOrder(heads, w.components);
    FollowedHeads(heads, w.components);
  }

  lemma {:induction false} IsSetting(g: Cfg, w: WeakOrder.Wto, g': Cfg)
    requires g.WellFormed() && WeakOrder.Valid(g, w)
    requires var heads := Range(LoopHeads(w.components)); Counted(g, heads, g') && Threaded(g, heads, g')
    ensures Setting(g, Range(LoopHeads(w.components)), g')
  {
    hide RealCycles, LoopHeads, Threaded, Cfg.WellFormed;
    forall h | h in LoopHeads(w.components) ensures h in g.children && g.children[h] != [] {
      HeadLeads(g, w.components, h);
    }
  }
}
