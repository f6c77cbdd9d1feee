/** Whole runs of the order builder: termination, the range of the depth-first numbers, and what
    holds when no task is left. */
module WtoRun {
  import opened ControlFlow
  import opened WtoTree
  import opened WtoSteps
  import opened WtoInvariant
  import opened WtoFrames
  import opened WtoPush
  import opened WtoStart
  import opened WtoSingle
  import opened WtoLoop
  import opened WtoContinue
  import opened WtoPlace
  import opened WtoProof
  import opened WtoNest

  // ----- the measure -----

  /** Labels that are not finished for good, and among them those not visited. */
  ghost function Unfinished(s: State): set<Label> {
    set l | l in s.data && s.data[l].dfn != Infinity
  }

  ghost function Zeros(s: State): set<Label> {
    set l | l in s.data && s.data[l].dfn == Finite(0)
  }

  ghost predicate Smaller(s': State, s: State) {
    || Unfinished(s') < Unfinished(s)
    || (Unfinished(s') == Unfinished(s) && Zeros(s') < Zeros(s))
    || (Unfinished(s') == Unfinished(s) && Zeros(s') == Zeros(s) && |s'.tasks| < |s.tasks|)
  }

  lemma {:induction false} PushProgress(g: Cfg, s: State, t: VisitArgs)
    requires t.kind == PushSuccessors && Runnable(g, s, t)
    ensures var s' := PushSuccessorsStep(g, s, t);
            if IsZero(s, t.vertex)
            then Unfinished(s') == Unfinished(s) && Zeros(s') == Zeros(s) - {t.vertex} && s'.num == s.num + 1
            else s' == s
  {
    hide Pending, PushTasks;
  }

  /** A visit either leaves all marks alone or finishes its vertex. */
  lemma {:induction false} StartProgress(g: Cfg, s: State, t: VisitArgs)
    requires t.kind == StartVisit && Runnable(g, s, t)
    requires forall q :: 0 <= q < |s.stack| ==> !IsInf(s, s.stack[q])
    ensures var s' := StartVisitStep(g, s, t);
            && s'.num == s.num
            && (|| (Unfinished(s') == Unfinished(s) && Zeros(s') == Zeros(s) && s'.tasks == s.tasks)
                || (Unfinished(s') == Unfinished(s) - {t.vertex} && t.vertex in Unfinished(s)
                    && Zeros(s') <= s.data.Keys))
  {
    hide HeadScan, Pending, PushTasks, LoopResult;
    var v := t.vertex;
    var (head, loop) := HeadScan(g.children[v], s.data, s.data[v].dfn.n, false);
    if head == s.data[v].dfn.n && loop {
      LoopProgress(g, s, t, head, TopIndex(s.stack, v));
    } else {
      UpdateProgress(s, v, s.data[v].(headDfn := head));
      UpdateProgress(s, v, VertexData(Infinity, head));
    }
  }

  lemma {:induction false} UpdateProgress(s: State, v: Label, d: VertexData)
    requires v in s.data && s.data[v].dfn.Finite? && (d.dfn == s.data[v].dfn || d.dfn == Infinity)
    ensures forall s': State :: s'.data == s.data[v := d] ==>
                                  if d.dfn == Infinity
                                  then Unfinished(s') == Unfinished(s) - {v} && v in Unfinished(s)
                                       && Zeros(s') <= s.data.Keys
                                  else Unfinished(s') == Unfinished(s) && Zeros(s') == Zeros(s)
  {
  }

  lemma {:induction false} LoopProgress(g: Cfg, s: State, t: VisitArgs, head: nat, p: nat)
    requires g.WellFormed() && s.data.Keys == g.children.Keys && t.vertex in s.data && s.data[t.vertex].dfn.Finite?
             && p < |s.stack|
    requires forall q :: 0 <= q < |s.stack| ==> !IsInf(s, s.stack[q])
    ensures var s' := LoopResult(g, s, t, head, p);
            && s'.num == s.num && Unfinished(s') == Unfinished(s) - {t.vertex} && t.vertex in Unfinished(s)
            && Zeros(s') <= s.data.Keys
  {
    hide Pending, PushTasks, Reset;
    ResetData(s.data, s.stack[p + 1..], t.vertex, VertexData(Infinity, head));
    var s' := LoopResult(g, s, t, head, p);
    forall l | l in s.data && l != t.vertex ensures l in Unfinished(s') <==> l in Unfinished(s) {
      if l in s.stack[p + 1..] {
        assert !IsInf(s, l);
      }
    }
  }

  /** Every task makes progress, although a cycle's members go back to being unvisited. */
  lemma {:induction false} TaskProgress(g: Cfg, s: State)
    requires s.tasks != [] && Runnable(g, Popped(s), Top(s))
    requires forall q :: 0 <= q < |s.stack| ==> !IsInf(s, s.stack[q])
    ensures Smaller(TaskStep(g, Popped(s), Top(s)), s)
  {
    hide PushSuccessorsStep, StartVisitStep, Runnable;
    var t, s0 := Top(s), Popped(s);
    assert Unfinished(s0) == Unfinished(s) && Zeros(s0) == Zeros(s);
    match t.kind
    case PushSuccessors =>
      PushProgress(g, s0, t);
      assert IsZero(s0, t.vertex) ==> t.vertex in Zeros(s);
    case StartVisit =>
      assert forall l :: IsInf(s0, l) <==> IsInf(s, l);
      StartProgress(g, s0, t);
    case ContinueVisit =>
      var s' := ContinueVisitStep(g, s0, t);
      assert s'.data == s.data;
      assert Unfinished(s') == Unfinished(s) && Zeros(s') == Zeros(s);
  }

  // ----- the range of depth-first numbers -----

  /** Each label can be numbered once more each time another label is finished. */
  ghost predicate Budget(s: State) {
    s.num + |Zeros(s)| <= |s.data.Keys| * (1 + |s.data.Keys| - |Unfinished(s)|)
  }

  lemma {:induction false} SubsetSize<T>(a: set<T>, b: set<T>)
    requires a <= b
    ensures |a| <= |b|
  {
    assert b == a + (b - a);
  }

  lemma {:induction false} BudgetArithmetic(num: nat, z: nat, z': nat, n: nat, u: nat)
    requires num + z <= n * (1 + n - u) && z' <= n && 0 < u <= n
    ensures num + z' <= n * (1 + n - (u - 1))
  {
    assert n * (1 + n - (u - 1)) == n * (1 + n - u) + n;
  }

  lemma {:induction false} BudgetSame(s: State, s': State)
    requires Budget(s) && s'.data.Keys == s.data.Keys && Unfinished(s') == Unfinished(s)
    requires s'.num + |Zeros(s')| == s.num + |Zeros(s)|
    ensures Budget(s')
  {
  }

  lemma {:induction false} BudgetFinish(s: State, s': State, v: Label)
    requires Budget(s) && s'.data.Keys == s.data.Keys && s'.num == s.num
    requires v in Unfinished(s) && Unfinished(s') == Unfinished(s) - {v}
    ensures Budget(s')
  {
    SubsetSize(Zeros(s'), s.data.Keys);
    SubsetSize(Unfinished(s), s.data.Keys);
    BudgetArithmetic(s.num, |Zeros(s)|, |Zeros(s')|, |s.data.Keys|, |Unfinished(s)|);
  }

  lemma {:induction false} TaskBudget(g: Cfg, s: State)
    requires s.tasks != [] && Runnable(g, Popped(s), Top(s))
    requires forall q :: 0 <= q < |s.stack| ==> !IsInf(s, s.stack[q])
    requires Budget(s)
    ensures Budget(TaskStep(g, Popped(s), Top(s)))
  {
    hide PushSuccessorsStep, StartVisitStep, Budget, Runnable;
    var t, s0 := Top(s), Popped(s);
    var s' := TaskStep(g, s0, t);
    StepKeys(g, s0, t);
    assert Unfinished(s0) == Unfinished(s) && Zeros(s0) == Zeros(s);
    match t.kind
    case PushSuccessors =>
      PushProgress(g, s0, t);
      assert IsZero(s0, t.vertex) ==> t.vertex in Zeros(s);
      assert Unfinished(s') == Unfinished(s);
      BudgetSame(s, s');
    case StartVisit =>
      assert forall l :: IsInf(s0, l) <==> IsInf(s, l);
      StartProgress(g, s0, t);
      if Unfinished(s') == Unfinished(s) {
        BudgetSame(s, s');
      } else {
        BudgetFinish(s, s', t.vertex);
      }
    case ContinueVisit =>
      assert s'.data == s.data && s'.num == s.num;
      assert Unfinished(s') == Unfinished(s) && Zeros(s') == Zeros(s);
      BudgetSame(s, s');
  }

  lemma {:induction false} StepKeys(g: Cfg, s: State, t: VisitArgs)
    requires Runnable(g, s, t)
    ensures TaskStep(g, s, t).data.Keys == s.data.Keys
  {
    hide HeadScan, Pending, PushTasks, Cfg.WellFormed;
  }

  // ----- the entry is read first -----

  ghost predicate StartsWith(cs: seq<Component>, l: Label) {
    Order(cs) != [] && Order(cs)[0] == l
  }

  /** Until the entry's own visit ends nothing is placed at the top level after it. */
  ghost predicate EntryLast(g: Cfg, s: State, fs: seq<Frame>) {
    && |fs| >= 1 && TopLevel in s.partitions
    && (|fs| >= 2 ==> fs[0].pending == [] && fs[1].vertex == g.entry)
    && (|fs| == 1 ==> (fs[0].pending == [g.entry] && IsZero(s, g.entry))
                      || (fs[0].pending == [] && StartsWith(s.partitions[TopLevel], g.entry)))
  }

  lemma {:induction false} PlacedFirst(cs: seq<Component>, c: Component, l: Label)
    requires OrderOf(c) != [] && OrderOf(c)[0] == l
    ensures StartsWith(cs + [c], l)
  {
    OrderSnoc(cs, c);
  }

  lemma {:induction false} ClosedFirst(s: State, fs: seq<Frame>)
    requires fs != [] && CycleOf(fs[|fs| - 1].vertex) in s.partitions
    ensures OrderOf(Cycle(Closed(s, fs))) != [] && OrderOf(Cycle(Closed(s, fs)))[0] == fs[|fs| - 1].vertex
  {
    OrderSnoc(s.partitions[CycleOf(fs[|fs| - 1].vertex)], Vertex(fs[|fs| - 1].vertex));
  }

  // ----- one task -----

  lemma {:induction false} PushNext(g: Cfg, s: State, fs: seq<Frame>) returns (fs': seq<Frame>)
    requires fs != [] && fs[|fs| - 1].pending != []
    requires EntryLast(g, s, fs) && NestInv(s, fs) && Inv(g, s, fs)
    ensures s.tasks != [] && Runnable(g, Popped(s), Top(s))
    ensures Inv(g, TaskStep(g, Popped(s), Top(s)), fs') && EntryLast(g, TaskStep(g, Popped(s), Top(s)), fs')
    ensures NestInv(TaskStep(g, Popped(s), Top(s)), fs')
  {
    hide Core, Covered, TasksOf, Runnable, Pending, PushTasks, NestInv;
    fs' := PushKeeps(g, s, fs);
    var s' := PushSuccessorsStep(g, Popped(s), Top(s));
    PushParts(g, Popped(s), Top(s));
    PushNest(g, s, fs, s', fs');
    if |fs| == 1 {
      FirstVertex(g, s', fs');
    } else {
      assert fs'[0] == fs[0] && fs'[1].vertex == fs[1].vertex by {
        if |fs'| > |fs| {
          assert fs'[0] == fs'[..|fs|][0] && fs'[1] == fs'[..|fs|][1];
        }
      }
    }
  }

  lemma {:induction false} PushParts(g: Cfg, s: State, t: VisitArgs)
    requires t.kind == PushSuccessors && Runnable(g, s, t)
    ensures var s' := PushSuccessorsStep(g, s, t);
            && s'.partitions == s.partitions && s'.containing == s.containing && s'.enclosing == s.enclosing
            && (forall l :: IsInf(s, l) ==> IsInf(s', l))
  {
  }

  lemma {:induction false} FirstVertex(g: Cfg, s: State, fs: seq<Frame>)
    requires |fs| >= 2
    requires Inv(g, s, fs)
    ensures fs[1].vertex == g.entry
  {
    hide Shape, Numbers, Vertices, Heads, AllFinished, Levels, Partitions, OnlyReachable, Covered, TasksOf;
    assert Linked(g, fs, 1);
  }

  lemma {:induction false} StartNext(g: Cfg, s: State, fs: seq<Frame>) returns (fs': seq<Frame>)
    requires |fs| >= 2 && !fs[|fs| - 1].open && fs[|fs| - 1].pending == []
    requires EntryLast(g, s, fs) && NestInv(s, fs) && Inv(g, s, fs)
    ensures s.tasks != [] && Runnable(g, Popped(s), Top(s))
    ensures Inv(g, TaskStep(g, Popped(s), Top(s)), fs') && EntryLast(g, TaskStep(g, Popped(s), Top(s)), fs')
    ensures NestInv(TaskStep(g, Popped(s), Top(s)), fs')
  {
    hide Inv, Runnable, StartVisitStep, NestInv;
    fs' := StartKeeps(g, s, fs);
    var s' := StartVisitStep(g, Popped(s), Top(s));
    StartParts(g, Popped(s), Top(s));
    StartNest(g, s, fs, s', fs');
    if |fs'| >= 2 {
      FirstVertex(g, s', fs');
      assert fs'[0] == fs[0];
    } else {
      var v := fs[1].vertex;
      assert PidAt(fs, 1) == TopLevel;
      assert OrderOf(Vertex(v)) == [v];
      PlacedFirst(s.partitions[TopLevel], Vertex(v), v);
    }
  }

  lemma {:induction false} StartNest(g: Cfg, s: State, fs: seq<Frame>, s': State, fs': seq<Frame>)
    requires |fs| >= 2 && !fs[|fs| - 1].open && fs[|fs| - 1].pending == []
    requires StartOutcome(g, s, fs, s', fs') && NestInv(s, fs) && Inv(g, s, fs)
    ensures NestInv(s', fs')
  {
    hide NestInv, Inv, SingleStep, LoopStep;
    var n := |fs| - 1;
    var v := fs[n].vertex;
    LastNotDone(g, s, fs);
    if SingleStep(s, fs, Dn(s, v), s', fs') && s'.enclosing == s.enclosing
       && s'.containing == Emplace(s.containing, v, PidAt(fs, n)) {
      SingleDropped(s, fs, Dn(s, v), s', fs');
      SingleNest(s, fs, Dn(s, v), s', fs');
    } else if LoopStep(g, s, fs, s', fs') {
      LoopMarks(g, s, fs, s', fs');
      LoopNest(g, s, fs, s', fs');
    } else {
      LowNest(s, fs, s', fs');
    }
  }

  lemma {:induction false} LoopMarks(g: Cfg, s: State, fs: seq<Frame>, s': State, fs': seq<Frame>)
    requires LoopStep(g, s, fs, s', fs') && Inv(g, s, fs)
    ensures forall l :: IsInf(s', l) <==> IsInf(s, l) || l == fs[|fs| - 1].vertex
  {
    hide Shape, Vertices, Heads, AllFinished, Levels, Partitions, Links, OnlyReachable, Covered, TasksOf, Numbers,
      LoopStep;
    LoopData(g, s, fs, s', fs');
  }

  lemma {:induction false} LastNotDone(g: Cfg, s: State, fs: seq<Frame>)
    requires |fs| >= 2 && !fs[|fs| - 1].open
    requires Inv(g, s, fs)
    ensures !IsInf(s, fs[|fs| - 1].vertex)
    ensures forall k: nat :: k < |fs| ==> PidAt(fs, k) != CycleOf(fs[|fs| - 1].vertex)
  {
    hide Shape, Vertices, Heads, AllFinished, Levels, Partitions, Links, OnlyReachable, Covered, TasksOf, Numbers;
    VertexNumber(g, s, fs);
    forall k: nat | k < |fs| ensures PidAt(fs, k) != CycleOf(fs[|fs| - 1].vertex) {
      FreshPid(g, s, fs, k);
    }
  }

  lemma {:induction false} StartParts(g: Cfg, s: State, t: VisitArgs)
    requires t.kind == StartVisit && Runnable(g, s, t)
    ensures s.partitions.Keys <= StartVisitStep(g, s, t).partitions.Keys
  {
    hide HeadScan, Pending, PushTasks, Reset;
  }

  lemma {:induction false} ClosingPids(g: Cfg, s: State, fs: seq<Frame>)
    requires |fs| >= 2 && fs[|fs| - 1].open && fs[|fs| - 1].pending == []
    requires Inv(g, s, fs)
    ensures IsInf(s, fs[|fs| - 1].vertex)
    ensures forall k: nat :: k < |fs| - 1 ==> PidAt(fs, k) != CycleOf(fs[|fs| - 1].vertex)
    ensures s.tasks != [] && Top(s).containingCycle == CycleOf(fs[|fs| - 1].vertex)
            && Top(s).vertex == fs[|fs| - 1].vertex
  {
    hide Shape, Vertices, Heads, AllFinished, Partitions, Links, OnlyReachable, Covered, TasksOf, Numbers, Levels,
      Stacked,
      Partition, OpenPartition, CompTree, Cfg.WellFormed;
    ContinueRunnable(g, s, fs);
    ClosingFacts(g, s, fs);
    WholeStacked(g, s, fs);
    forall k: nat | k < |fs| - 1 ensures PidAt(fs, k) != CycleOf(fs[|fs| - 1].vertex) {
      PidsDiffer(g, s, fs, k, |fs| - 1, |fs| - 1);
    }
  }

  lemma {:induction false} ContinueNext(g: Cfg, s: State, fs: seq<Frame>) returns (fs': seq<Frame>)
    requires |fs| >= 2 && fs[|fs| - 1].open && fs[|fs| - 1].pending == []
    requires EntryLast(g, s, fs) && NestInv(s, fs) && Inv(g, s, fs)
    ensures s.tasks != [] && Runnable(g, Popped(s), Top(s))
    ensures Inv(g, TaskStep(g, Popped(s), Top(s)), fs') && EntryLast(g, TaskStep(g, Popped(s), Top(s)), fs')
    ensures NestInv(TaskStep(g, Popped(s), Top(s)), fs')
  {
    hide Inv, Runnable, NestInv;
    fs' := ContinueKeeps(g, s, fs);
    var s' := ContinueVisitStep(g, Popped(s), Top(s));
    ClosingPids(g, s, fs);
    CloseNest(s, fs, s', fs');
    if |fs'| >= 2 {
      FirstVertex(g, s', fs');
    } else {
      ClosedFirst(s, fs);
      PlacedFirst(s.partitions[TopLevel], Cycle(Closed(s, fs)), fs[1].vertex);
    }
  }

  /** Whatever task is on top, it can run and keeps the invariant. */
  lemma {:induction false} Next(g: Cfg, s: State, fs: seq<Frame>) returns (fs': seq<Frame>)
    requires s.tasks != [] && EntryLast(g, s, fs) && NestInv(s, fs) && Inv(g, s, fs)
    ensures Runnable(g, Popped(s), Top(s))
    ensures Inv(g, TaskStep(g, Popped(s), Top(s)), fs') && EntryLast(g, TaskStep(g, Popped(s), Top(s)), fs')
    ensures NestInv(TaskStep(g, Popped(s), Top(s)), fs')
  {
    hide Core, Covered, TasksOf, Runnable, TaskStep, EntryLast, NestInv;
    AtLeastOne(g, s, fs);
    if fs[|fs| - 1].pending != [] {
      fs' := PushNext(g, s, fs);
    } else if |fs| == 1 {
      IdleHasNoTask(s, fs);
      assert false;
    } else if fs[|fs| - 1].open {
      fs' := ContinueNext(g, s, fs);
    } else {
      fs' := StartNext(g, s, fs);
    }
  }

  lemma {:induction false} AtLeastOne(g: Cfg, s: State, fs: seq<Frame>)
    requires EntryLast(g, s, fs)
    ensures |fs| >= 1
  {
  }

  lemma {:induction false} IdleHasNoTask(s: State, fs: seq<Frame>)
    requires |fs| == 1 && fs[0].pending == [] && s.tasks == TasksOf(fs, |fs|)
    ensures s.tasks == []
  {
    assert TasksOf(fs, 1) == TasksOf(fs, 0) + FrameTasks(fs, 0);
  }

  // ----- the first and the last state -----

  ghost function InitialFrames(g: Cfg): seq<Frame> {
    [Frame(true, g.entry, 0, [], [g.entry])]
  }

  lemma {:induction false} InitialPartitions(g: Cfg)
    ensures Partitions(g, Initial(g), InitialFrames(g))
  {
    var s, fs := Initial(g), InitialFrames(g);
    assert Partition(g, s, fs, 0);
    assert Done(fs, s.partitions, 0) == {};
  }

  lemma {:induction false} InitialRest(g: Cfg)
    requires g.WellFormed()
    ensures var s, fs := Initial(g), InitialFrames(g);
            && Shape(s, fs) && Vertices(g, s, fs) && Numbers(g, s) && Heads(s, fs)
            && AllFinished(g, s, fs) && Levels(g, s, fs) && OnlyReachable(g, s)
  {
    var s, fs := Initial(g), InitialFrames(g);
    assert Fits(s, fs, 0);
  }

  lemma {:induction false} InitialLinks(g: Cfg)
    requires g.WellFormed()
    ensures var s, fs := Initial(g), InitialFrames(g);
            && Links(g, fs) && Covered(g, s, fs) && EntryLast(g, s, fs) && s.tasks == TasksOf(fs, |fs|)
            && NestInv(s, fs)
  {
    assert FrameNested(Initial(g), InitialFrames(g), 0);
    var s, fs := Initial(g), InitialFrames(g);
    assert TasksOf(fs, 1) == TasksOf(fs, 0) + FrameTasks(fs, 0);
  }

  lemma {:induction false} InitialInv(g: Cfg) returns (fs: seq<Frame>)
    requires g.WellFormed()
    ensures Inv(g, Initial(g), fs) && EntryLast(g, Initial(g), fs) && NestInv(Initial(g), fs) && Budget(Initial(g))
  {
    hide NestInv, Shape, Vertices, Numbers, Heads, AllFinished, Levels, OnlyReachable, Links, Covered, EntryLast,
      Partitions, TasksOf;
    var s := Initial(g);
    fs := InitialFrames(g);
    InitialPartitions(g);
    InitialRest(g);
    InitialLinks(g);
    assert Zeros(s) == s.data.Keys && Unfinished(s) == s.data.Keys;
  }

  /** When no task is left the top level is ordered, complete and begins with the entry. */
  lemma {:induction false} FinalOrder(g: Cfg, s: State, fs: seq<Frame>)
    requires s.tasks == [] && EntryLast(g, s, fs) && NestInv(s, fs) && Inv(g, s, fs)
    ensures TopLevel in s.partitions
    ensures Nested(s.partitions[TopLevel], TopLevel, s.containing, s.enclosing)
    ensures s.containing.Keys <= Members(s.partitions[TopLevel])
    ensures Ordered(g, s.partitions[TopLevel], {}) && NoDup(Order(s.partitions[TopLevel]))
    ensures RealCycles(g, s.partitions[TopLevel]) && StartsWith(s.partitions[TopLevel], g.entry)
    ensures forall l :: l in Members(s.partitions[TopLevel]) <==> Reachable(g, l)
  {
    hide Shape, Vertices, Heads, AllFinished, Levels, Links, Covered, TasksOf, Numbers, OnlyReachable, Reachable;
    NoTask(s, fs);
    PartitionAt(g, s, fs, 0);
    var cs := s.partitions[TopLevel];
    assert PidAt(fs, 0) == TopLevel && Context(fs, s.partitions, 0) == {};
    assert Done(fs, s.partitions, 0) == Members(cs);
    assert FrameNested(s, fs, 0);
    assert g.entry in Members(cs) by {
      assert Order(cs)[0] == g.entry;
    }
    forall l | Reachable(g, l) ensures l in Members(cs) {
      forall u, v | u in Members(cs) && g.Edge(u, v) ensures v in Members(cs) {
        assert IsInf(s, v);
      }
      ReachableInClosed(g, Members(cs), l);
    }
    forall l | l in Members(cs) ensures Reachable(g, l) {
      assert IsInf(s, l);
      FinishedReachable(g, s, l);
    }
  }

  lemma {:induction false} FinishedReachable(g: Cfg, s: State, l: Label)
    requires OnlyReachable(g, s) && IsInf(s, l)
    ensures Reachable(g, l)
  {
  }
}
