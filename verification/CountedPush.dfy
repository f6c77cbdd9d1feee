/** Pushing a label, and its counter with it, in the runs with and without counters. */
module CountedPush {
  import opened ControlFlow
  import opened WtoSteps
  import opened WtoInvariant
  import opened CountedData
  import opened CountedRun

  /** Both runs on the way, at the same place, with a task left. */
  ghost predicate Together(g: Cfg, heads: set<Label>, g': Cfg, phi: seq<nat>, s: State, s': State) {
    && Setting(g, heads, g') && OnTheWay(g, s) && OnTheWay(g', s') && Same(heads, phi, s, s')
  }

  /** The task on top, where it does not bring a counter along. */
  lemma {:induction false} TopPlain(heads: set<Label>, phi: seq<nat>, s: State, s': State)
    requires Same(heads, phi, s, s') && s.tasks != []
    requires Top(s).kind == PushSuccessors || Top(s).vertex !in heads
    ensures s'.tasks != [] && Top(s') == Top(s) && Popped(s').tasks == Doubled(heads, Popped(s).tasks)
  {
    hide Alike, SameParts;
    assert s.tasks == Popped(s).tasks + [Top(s)];
    DoubledSnoc(heads, Popped(s).tasks, Top(s));
  }

  lemma {:induction false} OpenGrows(a: seq<VisitArgs>, b: seq<VisitArgs>)
    requires forall t :: t in a && t.kind == ContinueVisit ==> t in b
    ensures OpenHeads(a) <= OpenHeads(b)
  {
  }

  lemma {:induction false} OpenPopped(s: State, b: seq<VisitArgs>)
    requires s.tasks != [] && Top(s).kind != ContinueVisit && Popped(s).tasks <= b
    ensures OpenHeads(s.tasks) <= OpenHeads(b)
  {
    forall t | t in s.tasks && t.kind == ContinueVisit ensures t in b {
      assert s.tasks == Popped(s).tasks + [Top(s)];
      assert t in Popped(s).tasks;
    }
    OpenGrows(s.tasks, b);
  }

  lemma {:induction false} PendingOnly(l: Label, data: map<Label, VertexData>, id: PartitionId)
    requires l in data && data[l].dfn == Finite(0)
    ensures PushTasks(Pending([l], data), id) == [VisitArgs(PushSuccessors, l, id, id)]
  {
    assert [l][1..] == [];
    assert Pending([l], data) == [l];
  }

  /** `r` is `s` with `v` numbered and its visit and successors scheduled. */
  ghost predicate Pushes(s: State, r: State, v: Label, p: PartitionId, children: seq<Label>) {
    && v in s.data && s.data[v] == Unvisited && s.tasks != []
    && r.data == s.data[v := VertexData(Finite(s.num + 1), 0)] && r.num == s.num + 1 && r.partitions == s.partitions
    && (forall x :: x in children ==> x in r.data)
    && r.tasks == Popped(s).tasks + [VisitArgs(StartVisit, v, p, p)] + PushTasks(Pending(children, r.data), p)
  }

  lemma {:induction false} PushGives(g: Cfg, s: State, r: State)
    requires Leads(g, s, r) && Top(s).kind == PushSuccessors && Basics(g, s)
    requires Top(s).partition == Top(s).containingCycle
    requires Top(s).vertex in s.data && s.data[Top(s).vertex].dfn == Finite(0)
    ensures Top(s).vertex in g.children
    ensures Pushes(s, r, Top(s).vertex, Top(s).partition, g.children[Top(s).vertex])
  {
    hide Numbers, Pending, PushTasks;
  }

  lemma {:induction false} PushNothing(g: Cfg, s: State, r: State)
    requires Leads(g, s, r) && Top(s).kind == PushSuccessors
    requires Top(s).vertex in s.data && s.data[Top(s).vertex].dfn != Finite(0)
    ensures r == Popped(s)
  {
  }

  /** A push in a state of the run on `g`. */
  lemma {:induction false} PushOnTheWay(g: Cfg, s: State, r: State)
    requires OnTheWay(g, s) && Leads(g, s, r) && s.tasks != [] && Top(s).kind == PushSuccessors
    requires Top(s).vertex in s.data && s.data[Top(s).vertex].dfn == Finite(0)
    ensures Top(s).vertex in g.children
    ensures Pushes(s, r, Top(s).vertex, Top(s).partition, g.children[Top(s).vertex])
  {
    hide OnTheWay, Leads, Pushes, Basics;
    PushFacts(g, s);
    OnTheWayBasics(g, s);
    PushGives(g, s, r);
  }

  lemma {:induction false} SameAt(heads: set<Label>, phi: seq<nat>, s: State, s': State, v: Label)
    requires Same(heads, phi, s, s') && v in s.data
    ensures v in s'.data && (s'.data[v].dfn == Finite(0) <==> s.data[v].dfn == Finite(0))
    ensures s'.data[v].dfn.Infinity? <==> s.data[v].dfn.Infinity?
  {
    hide Alike, SameParts;
    AlikeAt(heads, OpenHeads(s.tasks), phi, s.data, s.num, s'.data, s'.num, v);
  }

  /** A label that has been visited is skipped in both runs. */
  lemma {:induction false} SkipAlong(g: Cfg, heads: set<Label>, g': Cfg, phi: seq<nat>, s: State, r: State, s': State)
    returns (r': State)
    requires Together(g, heads, g', phi, s, s') && Leads(g, s, r) && s.tasks != [] && Top(s).kind == PushSuccessors
    requires Top(s).vertex in s.data && s.data[Top(s).vertex].dfn != Finite(0)
    ensures Takes(g', s', r', 1)
    ensures OnTheWay(g', r') && Same(heads, phi, r, r')
  {
    hide Alike, SameParts, Setting, OnTheWay, Leads, Takes;
    TopPlain(heads, phi, s, s');
    r' := Onward(g', s');
    TakesOne(g', s', r');
    SameAt(heads, phi, s, s', Top(s).vertex);
    PushNothing(g, s, r);
    PushNothing(g', s', r');
    OpenPopped(s, r.tasks);
    AlikeOpen(heads, OpenHeads(s.tasks), OpenHeads(r.tasks), phi, s.data, s.num, s'.data, s'.num);
  }

  /** A label without a counter. */
  lemma {:induction false} PlainAlong(g: Cfg, heads: set<Label>, g': Cfg, phi: seq<nat>, s: State, r: State, s': State)
    returns (psi: seq<nat>, r': State)
    requires Together(g, heads, g', phi, s, s') && Leads(g, s, r) && s.tasks != [] && Top(s).kind == PushSuccessors
    requires Top(s).vertex in s.data && s.data[Top(s).vertex].dfn == Finite(0) && Top(s).vertex !in heads
    ensures Takes(g', s', r', 1)
    ensures OnTheWay(g', r') && Same(heads, psi, r, r')
  {
    hide Setting, OnTheWay, Leads, Same, Pushes, Doubled, Takes;
    var v := Top(s).vertex;
    TopPlain(heads, phi, s, s');
    r' := Onward(g', s');
    TakesOne(g', s', r');
    SameAt(heads, phi, s, s', v);
    PushOnTheWay(g, s, r);
    PushOnTheWay(g', s', r');
    SettingAt(g, heads, g', v);
    PlainSame(heads, phi, s, r, s', r', v, Top(s).partition, g.children[v]);
    psi := phi + [s'.num + 1];
  }

  lemma {:induction false} DoubledVisit(
    heads: set<Label>, ts: seq<VisitArgs>, t: VisitArgs, labels: seq<Label>, id: PartitionId)
    ensures Doubled(heads, ts + [t] + PushTasks(labels, id))
         == Doubled(heads, ts) + DoubledTask(heads, t) + PushTasks(labels, id)
  {
    DoubledPushes(heads, ts + [t], labels, id);
    DoubledSnoc(heads, ts, t);
  }

  lemma {:induction false} PlainSame(heads: set<Label>, phi: seq<nat>, s: State, r: State, s': State, r': State,
                                     v: Label, p: PartitionId, children: seq<Label>)
    requires Same(heads, phi, s, s') && Pushes(s, r, v, p, children) && Pushes(s', r', v, p, children)
    requires v !in heads && Top(s).kind == PushSuccessors && Popped(s').tasks == Doubled(heads, Popped(s).tasks)
    ensures Same(heads, phi + [s'.num + 1], r, r')
  {
    hide Alike, Pending, PushTasks, Doubled, OpenHeads;
    var visit := VisitArgs(StartVisit, v, p, p);
    OpenPopped(s, r.tasks);
    assert r'.data == Pushed(heads, s'.data, s'.num, v);
    PushedAlike(heads, OpenHeads(s.tasks), OpenHeads(r.tasks), phi, s, r, s', r', v);
    SamePending(heads, OpenHeads(r.tasks), phi + [s'.num + 1], r.data, r.num, r'.data, r'.num, children);
    DoubledVisit(heads, Popped(s).tasks, visit, Pending(children, r.data), p);
    assert DoubledTask(heads, visit) == [visit];
  }

  lemma {:induction false} PushedAlike(
    heads: set<Label>, open: set<Label>, open': set<Label>, phi: seq<nat>, s: State, r: State, s': State, r': State,
    v: Label)
    requires Alike(heads, open, phi, s.data, s.num, s'.data, s'.num) && v in s.data && s.data[v] == Unvisited
    requires open <= open' && r.data == s.data[v := VertexData(Finite(s.num + 1), 0)] && r.num == s.num + 1
    requires r'.data == Pushed(heads, s'.data, s'.num, v) && r'.num == s'.num + if v in heads then 2 else 1
    ensures Alike(heads, open', phi + [s'.num + 1], r.data, r.num, r'.data, r'.num)
  {
    hide Alike, Pushed;
    AlikePush(heads, open, phi, s.data, s.num, s'.data, s'.num, v);
    AlikeOpen(heads, open, open', phi + [s'.num + 1], r.data, r.num, r'.data, r'.num);
  }

  /** A head is pushed, and right after it its counter. */
  lemma {:induction false} HeadAlong(g: Cfg, heads: set<Label>, g': Cfg, phi: seq<nat>, s: State, r: State, s': State)
    returns (psi: seq<nat>, r': State)
    requires Together(g, heads, g', phi, s, s') && Leads(g, s, r) && s.tasks != [] && Top(s).kind == PushSuccessors
    requires Top(s).vertex in s.data && s.data[Top(s).vertex].dfn == Finite(0) && Top(s).vertex in heads
    ensures Takes(g', s', r', 2)
    ensures OnTheWay(g', r') && Same(heads, psi, r, r')
  {
    hide Setting, OnTheWay, Leads, Same, Pushes, Doubled, Takes;
    var v, p := Top(s).vertex, Top(s).partition;
    TopPlain(heads, phi, s, s');
    var m := Onward(g', s');
    SameAt(heads, phi, s, s', v);
    PushOnTheWay(g, s, r);
    PushOnTheWay(g', s', m);
    SettingAt(g, heads, g', v);
    CounterUnvisited(heads, phi, s, s', v);
    ThenCounter(s', m, v, p);
    r' := Onward(g', m);
    TakesOne(g', m, r');
    TakesOneMore(g', s', m, r', 1);
    PushOnTheWay(g', m, r');
    HeadSame(heads, phi, s, r, s', m, r', v, p, g.children[v]);
    psi := phi + [s'.num + 1];
  }

  lemma {:induction false} CounterUnvisited(heads: set<Label>, phi: seq<nat>, s: State, s': State, v: Label)
    requires Same(heads, phi, s, s') && v in s.data && s.data[v].dfn == Finite(0) && v in heads
    ensures CounterLabel(v) in s'.data && s'.data[CounterLabel(v)] == Unvisited && CounterLabel(v) != v
  {
    hide Alike, SameParts;
    AlikeAt(heads, OpenHeads(s.tasks), phi, s.data, s.num, s'.data, s'.num, v);
    AlikeKeys(heads, OpenHeads(s.tasks), phi, s.data, s.num, s'.data, s'.num);
  }

  /** Once a head is pushed its counter is next. */
  lemma {:induction false} ThenCounter(s: State, m: State, v: Label, p: PartitionId)
    requires Pushes(s, m, v, p, [CounterLabel(v)]) && CounterLabel(v) in s.data && CounterLabel(v) != v
    requires s.data[CounterLabel(v)] == Unvisited
    ensures m.tasks != [] && Top(m) == VisitArgs(PushSuccessors, CounterLabel(v), p, p)
    ensures Popped(m).tasks == Popped(s).tasks + [VisitArgs(StartVisit, v, p, p)]
    ensures CounterLabel(v) in m.data && m.data[CounterLabel(v)].dfn == Finite(0)
  {
    hide Pending, PushTasks;
    PendingOnly(CounterLabel(v), m.data, p);
  }

  lemma {:induction false} HeadSame(heads: set<Label>, phi: seq<nat>, s: State, r: State, s': State, m: State,
                                    r': State, v: Label, p: PartitionId, children: seq<Label>)
    requires Same(heads, phi, s, s') && Pushes(s, r, v, p, children)
    requires Pushes(s', m, v, p, [CounterLabel(v)]) && Pushes(m, r', CounterLabel(v), p, children)
    requires v in heads && Top(s).kind == PushSuccessors && Popped(s').tasks == Doubled(heads, Popped(s).tasks)
    requires Popped(m).tasks == Popped(s').tasks + [VisitArgs(StartVisit, v, p, p)]
    ensures Same(heads, phi + [s'.num + 1], r, r')
  {
    hide Alike, Pending, PushTasks, Doubled, OpenHeads;
    var visit := VisitArgs(StartVisit, v, p, p);
    OpenPopped(s, r.tasks);
    assert r'.data == Pushed(heads, s'.data, s'.num, v);
    PushedAlike(heads, OpenHeads(s.tasks), OpenHeads(r.tasks), phi, s, r, s', r', v);
    SamePending(heads, OpenHeads(r.tasks), phi + [s'.num + 1], r.data, r.num, r'.data, r'.num, children);
    DoubledVisit(heads, Popped(s).tasks, visit, Pending(children, r.data), p);
    assert DoubledTask(heads, visit) == [visit, VisitArgs(StartVisit, CounterLabel(v), p, p)];
  }

  /** A push, whatever it finds. */
  lemma {:induction false} PushAlong(g: Cfg, heads: set<Label>, g': Cfg, phi: seq<nat>, s: State, r: State, s': State)
    returns (psi: seq<nat>, r': State)
    requires Together(g, heads, g', phi, s, s') && Leads(g, s, r) && s.tasks != [] && Top(s).kind == PushSuccessors
    requires Top(s).vertex in s.data
    ensures Takes(g', s', r', 1) || Takes(g', s', r', 2)
    ensures OnTheWay(g', r') && Same(heads, psi, r, r')
  {
    hide Together, OnTheWay, Leads, Same, Takes;
    if s.data[Top(s).vertex].dfn != Finite(0) {
      psi := phi;
      r' := SkipAlong(g, heads, g', phi, s, r, s');
    } else if Top(s).vertex in heads {
      psi, r' := HeadAlong(g, heads, g', phi, s, r, s');
    } else {
      psi, r' := PlainAlong(g, heads, g', phi, s, r, s');
    }
  }
}
