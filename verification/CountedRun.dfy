/** The worklist on a graph with counters does what it does on the graph without them, and visits each
    counter right after its head (src/cfg/wto.cpp:102-218, src/ir/cfg_builder.cpp:298-306). */
module CountedRun {
  import opened ControlFlow
  import opened WtoTree
  import opened WtoSteps
  import opened WtoInvariant
  import opened WtoFrames
  import opened WtoStart
  import opened WtoContinue
  import opened WtoNest
  import opened WtoRun
  import opened Counters
  import opened CountedData
  import WeakOrder

  // ----- states that the worklist comes to -----

  /** The state occurs in the run on `g`. */
  ghost predicate OnTheWay(g: Cfg, s: State) {
    exists n: nat, fs: seq<Frame> :: Ran(g, Initial(g), n) == s && Kept(g, s, fs)
  }

  ghost predicate Kept(g: Cfg, s: State, fs: seq<Frame>) {
    Inv(g, s, fs) && EntryLast(g, s, fs) && NestInv(s, fs)
  }

  lemma {:induction false} FirstState(g: Cfg)
    requires g.WellFormed()
    ensures OnTheWay(g, Initial(g))
  {
    hide Inv, EntryLast, NestInv;
    var fs := InitialInv(g);
    assert Ran(g, Initial(g), 0) == Initial(g) && Kept(g, Initial(g), fs);
  }

  lemma {:induction false} Onward(g: Cfg, s: State) returns (r: State)
    requires OnTheWay(g, s) && s.tasks != []
    ensures Leads(g, s, r) && OnTheWay(g, r)
  {
    hide Inv, EntryLast, NestInv, Runnable, TaskStep, Ran;
    var n: nat, fs: seq<Frame> :| Ran(g, Initial(g), n) == s && Kept(g, s, fs);
    var fs' := Next(g, s, fs);
    RanOneMore(g, Initial(g), n);
    r := TaskStep(g, Popped(s), Top(s));
    assert Kept(g, r, fs');
  }

  /** `n` tasks make `r` of `s`. */
  ghost predicate Takes(g: Cfg, s: State, r: State, n: nat)
    decreases n
  {
    if n == 0 then s == r else exists m :: Leads(g, s, m) && Takes(g, m, r, n - 1)
  }

  lemma {:induction false} TakesOne(g: Cfg, s: State, r: State)
    requires Leads(g, s, r)
    ensures Takes(g, s, r, 1)
  {
    hide Leads;
    assert Takes(g, r, r, 0);
  }

  lemma {:induction false} TakesOneMore(g: Cfg, s: State, m: State, r: State, n: nat)
    requires Leads(g, s, m) && Takes(g, m, r, n)
    ensures Takes(g, s, r, n + 1)
  {
    hide Leads;
  }

  ghost predicate Basics(g: Cfg, s: State) {
    && g.WellFormed() && Numbers(g, s)
    && (forall l :: l in s.data && s.data[l].dfn == Finite(0) ==> s.data[l] == Unvisited)
    && (forall l, x :: l in g.children && x in g.children[l] ==> x in s.data)
  }

  lemma {:induction false} OnTheWayBasics(g: Cfg, s: State)
    requires OnTheWay(g, s)
    ensures Basics(g, s)
  {
    hide Ran, EntryLast, NestInv, Core, Covered, TasksOf, Basics;
    var n: nat, fs: seq<Frame> :| Ran(g, Initial(g), n) == s && Kept(g, s, fs);
    CoreBasics(g, s, fs);
  }

  lemma {:induction false} CoreBasics(g: Cfg, s: State, fs: seq<Frame>)
    requires Core(g, s, fs)
    ensures Basics(g, s)
  {
    hide Shape, Vertices, AllFinished, Levels, Partitions, Links, OnlyReachable;
    assert s.data.Keys == g.children.Keys by {
      DataKeys(g, s);
    }
    hide Numbers;
  }

  /** What is known when a label is about to be pushed. */
  lemma {:induction false} PushFacts(g: Cfg, s: State)
    requires OnTheWay(g, s) && s.tasks != [] && Top(s).kind == PushSuccessors
    ensures Top(s).partition == Top(s).containingCycle
  {
    hide Ran, EntryLast, NestInv, Core, Covered, TasksOf;
    var n: nat, fs: seq<Frame> :| Ran(g, Initial(g), n) == s && Kept(g, s, fs);
    AtLeastOne(g, s, fs);
    WeakOrder.PushIsUniform(s, fs);
  }

  /** What is known when a visit is about to end. */
  lemma {:induction false} StartFacts(g: Cfg, s: State)
    requires OnTheWay(g, s) && s.tasks != [] && Top(s).kind == StartVisit
    ensures Top(s).partition == Top(s).containingCycle && Top(s).vertex in g.children && Top(s).vertex in s.data
    ensures s.data[Top(s).vertex].dfn.Finite? && s.data[Top(s).vertex].dfn.n > 0 && Top(s).vertex in s.stack
    ensures forall x :: x in g.children[Top(s).vertex] ==> x in s.data && s.data[x].dfn != Finite(0)
  {
    hide Ran, EntryLast, NestInv, Covered, Core, TasksOf;
    var n: nat, fs: seq<Frame> :| Ran(g, Initial(g), n) == s && Kept(g, s, fs);
    AtLeastOne(g, s, fs);
    LastFrame(g, s, fs);
    StartVertex(g, s, fs);
    NothingPending(g, s, fs);
  }

  /** The last frame is the one that the task on top belongs to. */
  lemma {:induction false} LastFrame(g: Cfg, s: State, fs: seq<Frame>)
    requires Inv(g, s, fs) && fs != [] && s.tasks != [] && Top(s).kind != PushSuccessors
    ensures |fs| > 1 && fs[|fs| - 1].pending == []
    ensures var f := fs[|fs| - 1];
            Top(s) == if f.open then VisitArgs(ContinueVisit, f.vertex, PidAt(fs, |fs| - 2), CycleOf(f.vertex))
            else VisitArgs(StartVisit, f.vertex, PidAt(fs, |fs| - 1), PidAt(fs, |fs| - 1))
  {
    hide Core, Covered, TasksOf;
    if fs[|fs| - 1].pending != [] {
      TopPush(s, fs);
    } else if |fs| == 1 {
      IdleHasNoTask(s, fs);
    } else {
      TopVisit(s, fs);
    }
  }

  lemma {:induction false} StartVertex(g: Cfg, s: State, fs: seq<Frame>)
    requires Inv(g, s, fs) && |fs| > 1 && !fs[|fs| - 1].open
    ensures var v := fs[|fs| - 1].vertex;
            v in g.children && v in s.data && s.data[v].dfn.Finite? && s.data[v].dfn.n > 0 && v in s.stack
  {
    hide Shape, Numbers, Vertices, Heads, AllFinished, Levels, Partitions, Links, OnlyReachable, Covered, TasksOf;
    VertexNumber(g, s, fs);
  }

  lemma {:induction false} NothingPending(g: Cfg, s: State, fs: seq<Frame>)
    requires Inv(g, s, fs) && |fs| > 1 && fs[|fs| - 1].pending == [] && fs[|fs| - 1].vertex in g.children
    ensures forall x :: x in g.children[fs[|fs| - 1].vertex] ==>
                          x in s.data && s.data[x].dfn != Finite(0)
  {
    hide Shape, Vertices, Heads, AllFinished, Levels, Partitions, Links, OnlyReachable, TasksOf;
    forall x | x in g.children[fs[|fs| - 1].vertex]
      ensures x in s.data && s.data[x].dfn != Finite(0) {
      var k: nat := |fs| - 1;
      assert Target(g, fs, k, x);
      assert !InOpenAbove(fs, k, x);
    }
  }

  /** What is known when a cycle is about to be closed. */
  lemma {:induction false} ContinueFacts(g: Cfg, s: State)
    requires OnTheWay(g, s) && s.tasks != [] && Top(s).kind == ContinueVisit
    ensures Top(s).containingCycle == CycleOf(Top(s).vertex) && Top(s).vertex in g.children && Top(s).vertex in s.data
    ensures s.data[Top(s).vertex].dfn.Infinity?
    ensures forall x :: x in g.children[Top(s).vertex] ==> x in s.data && s.data[x].dfn.Infinity?
  {
    hide Ran, EntryLast, NestInv, Covered, Core, TasksOf, Level, Partition, OpenPartition;
    var n: nat, fs: seq<Frame> :| Ran(g, Initial(g), n) == s && Kept(g, s, fs);
    AtLeastOne(g, s, fs);
    LastFrame(g, s, fs);
    var v := fs[|fs| - 1].vertex;
    ClosingFacts(g, s, fs);
    HeadDone(g, s, fs);
    hide Inv, Closing, Leads;
    forall x | x in g.children[v] ensures x in s.data && s.data[x].dfn.Infinity? {
      assert g.Edge(v, x);
      if x in fs[|fs| - 1].comp {
        HeadTargetDone(g, s, fs, x);
      }
      assert IsInf(s, x);
    }
  }

  lemma {:induction false} HeadDone(g: Cfg, s: State, fs: seq<Frame>)
    requires fs != [] && Level(g, s, fs, |fs| - 1)
    ensures IsInf(s, fs[|fs| - 1].vertex)
    ensures forall x :: g.Edge(fs[|fs| - 1].vertex, x) ==> x in fs[|fs| - 1].comp || IsInf(s, x)
  {
  }

  // ----- the two runs -----

  /** The order with each counter read right after its head; partitions are stored back to front. */
  ghost function Followed(heads: set<Label>, cs: seq<Component>): seq<Component> {
    if cs == [] then [] else Followed(heads, cs[..|cs| - 1]) + FollowedOne(heads, cs[|cs| - 1])
  }

  ghost function FollowedOne(heads: set<Label>, c: Component): seq<Component> {
    match c
    case Vertex(l) => if l in heads then [Vertex(CounterLabel(l)), Vertex(l)] else [Vertex(l)]
    case Cycle(cs) => [Cycle(Followed(heads, cs))]
  }

  lemma {:induction false} FollowedSnoc(heads: set<Label>, cs: seq<Component>, c: Component)
    ensures Followed(heads, cs + [c]) == Followed(heads, cs) + FollowedOne(heads, c)
  {
    assert (cs + [c])[..|cs|] == cs;
  }

  /** Each visit of a head comes with a visit of its counter. */
  ghost function Doubled(heads: set<Label>, ts: seq<VisitArgs>): seq<VisitArgs> {
    if ts == [] then [] else Doubled(heads, ts[..|ts| - 1]) + DoubledTask(heads, ts[|ts| - 1])
  }

  ghost function DoubledTask(heads: set<Label>, t: VisitArgs): seq<VisitArgs> {
    if t.kind == PushSuccessors || t.vertex !in heads then [t] else [t, CounterVisit(t)]
  }

  ghost function CounterVisit(t: VisitArgs): VisitArgs {
    var id := if t.kind == ContinueVisit then CycleOf(t.vertex) else t.partition;
    VisitArgs(StartVisit, CounterLabel(t.vertex), id, id)
  }

  lemma {:induction false} DoubledSnoc(heads: set<Label>, ts: seq<VisitArgs>, t: VisitArgs)
    ensures Doubled(heads, ts + [t]) == Doubled(heads, ts) + DoubledTask(heads, t)
  {
    assert (ts + [t])[..|ts|] == ts;
  }

  lemma {:induction false} DoubledPushes(heads: set<Label>, ts: seq<VisitArgs>, labels: seq<Label>, id: PartitionId)
    ensures Doubled(heads, ts + PushTasks(labels, id)) == Doubled(heads, ts) + PushTasks(labels, id)
  {
    hide Doubled;
    if labels == [] {
      assert PushTasks(labels, id) == [] && ts + [] == ts;
    } else {
      var n := |labels| - 1;
      var last := VisitArgs(PushSuccessors, labels[n], id, id);
      PushTasksInit(labels, id);
      hide PushTasks;
      DoubledPushes(heads, ts, labels[..n], id);
      DoubledSnoc(heads, ts + PushTasks(labels[..n], id), last);
      assert ts + PushTasks(labels, id) == (ts + PushTasks(labels[..n], id)) + [last];
    }
  }

  /** The heads whose cycles are being built. */
  ghost function OpenHeads(ts: seq<VisitArgs>): set<Label> {
    set t | t in ts && t.kind == ContinueVisit :: t.vertex
  }

  ghost predicate SameParts(
    heads: set<Label>, parts: map<PartitionId, seq<Component>>, parts': map<PartitionId, seq<Component>>) {
    forall id :: id in parts ==> id in parts' && parts'[id] == Followed(heads, parts[id])
  }

  /** The states of both runs at the same place. */
  ghost predicate Same(heads: set<Label>, phi: seq<nat>, s: State, s': State) {
    && Alike(heads, OpenHeads(s.tasks), phi, s.data, s.num, s'.data, s'.num)
    && s'.tasks == Doubled(heads, s.tasks)
    && SameParts(heads, s.partitions, s'.partitions)
  }

  /** Counters can follow these heads, each of which leads somewhere. */
  ghost predicate Setting(g: Cfg, heads: set<Label>, g': Cfg) {
    && g.WellFormed() && g'.WellFormed() && g'.entry == g.entry && Threaded(g, heads, g')
    && heads <= g.children.Keys && Insertable(g, heads)
    && forall h :: h in heads ==> g.children[h] != []
  }

  lemma {:induction false} SettingAt(g: Cfg, heads: set<Label>, g': Cfg, v: Label)
    requires Setting(g, heads, g') && v in g.children
    ensures v in g'.children && g'.children[v] == if v in heads then [CounterLabel(v)] else g.children[v]
    ensures v in heads ==>
              CounterLabel(v) !in g.children && CounterLabel(v) in g'.children
              && g'.children[CounterLabel(v)] == g.children[v]
  {
  }

  lemma {:induction false} FirstSame(g: Cfg, heads: set<Label>, g': Cfg)
    requires Setting(g, heads, g')
    ensures Same(heads, [0], Initial(g), Initial(g'))
  {
    var s, s' := Initial(g), Initial(g');
    var t := VisitArgs(PushSuccessors, g.entry, TopLevel, TopLevel);
    assert Doubled(heads, [t]) == [t] by {
      DoubledSnoc(heads, [], t);
      assert [] + [t] == [t];
    }
    SettingKeys(g, heads, g');
    hide Setting;
    FirstAlike(heads, OpenHeads(s.tasks), s.data, s'.data);
    assert SameParts(heads, s.partitions, s'.partitions);
  }

  lemma {:induction false} SettingKeys(g: Cfg, heads: set<Label>, g': Cfg)
    requires Setting(g, heads, g')
    ensures g'.entry == g.entry && g.children.Keys <= g'.children.Keys && Apart(Initial(g).data, heads)
    ensures forall h :: h in heads ==> CounterLabel(h) in g'.children
  {
    hide Cfg.WellFormed;
    forall l | l in g.children ensures l in g'.children {
      SettingAt(g, heads, g', l);
    }
  }

  lemma {:induction false} FirstAlike(
    heads: set<Label>, open: set<Label>, data: map<Label, VertexData>, data': map<Label, VertexData>)
    requires data.Keys <= data'.Keys && Apart(data, heads) && forall h :: h in heads ==> CounterLabel(h) in data'
    requires (forall l :: l in data ==> data[l] == Unvisited) && forall l :: l in data' ==> data'[l] == Unvisited
    ensures Alike(heads, open, [0], data, 0, data', 0)
  {
    forall l | l in data ensures LabelAlike([0], data, 0, data', l) {
    }
    forall h | h in heads ensures CounterAlike([0], data, 0, data', 0, open, h) {
    }
  }

}
