/** Every task keeps the builder's invariant, and the invariant of the final state says that the
    order is what the paper asks for. */
module WtoProof {
  import opened ControlFlow
  import opened WtoSteps
  import opened WtoInvariant
  import opened WtoFrames
  import opened WtoScan
  import opened WtoPlace
  import opened WtoDrop
  import opened WtoStart
  import opened WtoSingle
  import opened WtoLoop
  import opened WtoContinue

  // ----- start_visit -----

  lemma {:induction false} StartRunnable(g: Cfg, s: State, fs: seq<Frame>)
    requires |fs| >= 2 && !fs[|fs| - 1].open && fs[|fs| - 1].pending == []
    requires Inv(g, s, fs)
    ensures s.tasks != []
    ensures Top(s) == VisitArgs(StartVisit, fs[|fs| - 1].vertex, PidAt(fs, |fs| - 1), PidAt(fs, |fs| - 1))
    ensures Popped(s).tasks == TasksOf(fs[..|fs| - 1], |fs| - 1)
    ensures Runnable(g, Popped(s), Top(s))
    ensures g.WellFormed() && s.data.Keys == g.children.Keys
    ensures fs[|fs| - 1].base < |s.stack| && s.stack[fs[|fs| - 1].base] == fs[|fs| - 1].vertex
  {
    hide Shape, Numbers, Vertices, Heads, AllFinished, Levels, Partitions, Links, OnlyReachable, Covered, Partition;
    TopVisit(s, fs);
    VertexNumber(g, s, fs);
    PartitionAt(g, s, fs, |fs| - 1);
    PidPresent(g, s, fs, |fs| - 1);
  }

  /** The base of the last frame is the only position of its vertex. */
  lemma {:induction false} TopIndexIsBase(g: Cfg, s: State, fs: seq<Frame>)
    requires |fs| >= 2 && fs[|fs| - 1].base < |s.stack| && s.stack[fs[|fs| - 1].base] == fs[|fs| - 1].vertex
    requires Numbers(g, s)
    ensures TopIndex(s.stack, fs[|fs| - 1].vertex) == fs[|fs| - 1].base
  {
    StackDistinct(g, s);
  }

  ghost function LoopFrame(g: Cfg, f: Frame, stack: seq<Label>, pending: seq<Label>): Frame
    requires f.base <= |stack|
  {
    Frame(true, f.vertex, f.base, stack[f.base..], pending)
  }

  lemma {:induction false} PendingAre(g: Cfg, s: State, v: Label)
    requires g.WellFormed() && s.data.Keys == g.children.Keys && v in s.data
    ensures forall x :: x in Pending(g.children[v], s.data) <==> g.Edge(v, x) && IsZero(s, x)
  {
  }

  lemma {:induction false} ResetData(data: map<Label, VertexData>, elements: seq<Label>, v: Label, d: VertexData)
    requires v in data
    ensures var data' := Reset(data, elements)[v := d];
            && data'.Keys == data.Keys && data'[v] == d
            && (forall l :: l in data && l != v ==> data'[l] == if l in elements then Unvisited else data[l])
  {
  }

  lemma {:induction false} LoopResultData(g: Cfg, s: State, t: VisitArgs, head: nat, p: nat, s': State)
    requires g.WellFormed() && s.data.Keys == g.children.Keys && t.vertex in s.data && p < |s.stack|
    requires s' == LoopResult(g, s, t, head, p)
    ensures s'.data.Keys == s.data.Keys && IsInf(s', t.vertex)
    ensures forall l :: l in s.data && l != t.vertex ==>
                          s'.data[l] == if l in s.stack[p + 1..] then Unvisited else s.data[l]
    ensures forall x :: x in Pending(g.children[t.vertex], s'.data) <==> g.Edge(t.vertex, x) && IsZero(s', x)
  {
    hide Reset, Pending, PushTasks, Cfg.Edge;
    ResetData(s.data, s.stack[p + 1..], t.vertex, VertexData(Infinity, head));
    PendingAre(g, s', t.vertex);
  }

  lemma {:induction false} ResultIsLoop(
    g: Cfg, s: State, fs: seq<Frame>, n: nat, s0: State, t: VisitArgs, head: nat, s': State, fs': seq<Frame>)
    requires |fs| == n + 1 && n >= 1 && !fs[n].open && fs[n].base < |s.stack| && s.stack[fs[n].base] == t.vertex
    requires s0 == s.(tasks := s0.tasks) && t.vertex == fs[n].vertex && t.vertex in s.data
    requires g.WellFormed() && s.data.Keys == g.children.Keys
    requires s' == LoopResult(g, s0, t, head, fs[n].base)
    requires fs' == fs[n := LoopFrame(g, fs[n], s.stack, Pending(g.children[t.vertex], s'.data))]
    ensures LoopStep(g, s, fs, s', fs')
    ensures s'.tasks == s0.tasks + [VisitArgs(ContinueVisit, t.vertex, t.partition, CycleOf(t.vertex))]
                        + PushTasks(Pending(g.children[t.vertex], s'.data), CycleOf(t.vertex))
    ensures s'.containing == s.containing && s'.enclosing == s.enclosing[t.vertex := t.containingCycle]
  {
    hide Reset, IsInf, IsZero, Pending, PushTasks;
    LoopResultData(g, s0, t, head, fs[n].base, s');
  }

  lemma {:induction false} LoopTasks(fs: seq<Frame>, f: Frame, fs': seq<Frame>)
    requires |fs| >= 2 && !fs[|fs| - 1].open && f.open && f.vertex == fs[|fs| - 1].vertex && fs' == fs[|fs| - 1 := f]
    ensures TasksOf(fs', |fs'|)
         == TasksOf(fs[..|fs| - 1], |fs| - 1)
            + [VisitArgs(ContinueVisit, f.vertex, PidAt(fs, |fs| - 1), CycleOf(f.vertex))]
            + PushTasks(f.pending, CycleOf(f.vertex))
  {
    var n := |fs| - 1;
    TasksPrefix(fs', fs[..n], n);
    AgreeAt(fs, fs', n, n - 1);
  }

  /** The three ways in which a visit can end. */
  ghost predicate StartOutcome(g: Cfg, s: State, fs: seq<Frame>, s': State, fs': seq<Frame>)
    requires |fs| >= 2
  {
    var n := |fs| - 1;
    var v := fs[n].vertex;
    || (&& fs' == fs[..n] && n >= 2
        && (forall l :: IsInf(s', l) <==> IsInf(s, l))
        && s'.partitions == s.partitions && s'.containing == s.containing && s'.enclosing == s.enclosing)
    || (&& SingleStep(s, fs, Dn(s, v), s', fs')
        && s'.containing == Emplace(s.containing, v, PidAt(fs, n)) && s'.enclosing == s.enclosing)
    || (&& LoopStep(g, s, fs, s', fs')
        && s'.containing == s.containing && s'.enclosing == s.enclosing[v := PidAt(fs, n)])
  }

  /** A start_visit task keeps the invariant. */
  lemma {:induction false} StartKeeps(g: Cfg, s: State, fs: seq<Frame>) returns (fs': seq<Frame>)
    requires |fs| >= 2 && !fs[|fs| - 1].open && fs[|fs| - 1].pending == []
    requires Inv(g, s, fs)
    ensures s.tasks != [] && Top(s).kind == StartVisit && Runnable(g, Popped(s), Top(s))
    ensures Inv(g, StartVisitStep(g, Popped(s), Top(s)), fs')
    ensures StartOutcome(g, s, fs, StartVisitStep(g, Popped(s), Top(s)), fs')
  {
    hide Inv, TasksOf, HeadScan, StartVisitStep, StartOutcome, Scanned, Visiting;
    StartRunnable(g, s, fs);
    var v := Top(s).vertex;
    var d := s.data[v].dfn.n;
    var (head, loop) := HeadScan(g.children[v], s.data, d, false);
    InvIsVisiting(g, s, fs);
    ScanMeans(g, s, fs, head, loop);
    if head != d {
      fs' := LowKeeps(g, s, fs, head, loop);
    } else if !loop {
      fs' := SingleKeeps(g, s, fs, head);
    } else {
      fs' := LoopKeeps(g, s, fs, head);
    }
  }

  /** What the scan of the visited vertex has found. */
  ghost predicate ScanFound(g: Cfg, s: State, fs: seq<Frame>, head: nat, loop: bool) {
    && |fs| >= 2 && !fs[|fs| - 1].open && fs[|fs| - 1].pending == []
    && s.tasks != [] && Top(s) == VisitArgs(StartVisit, fs[|fs| - 1].vertex, PidAt(fs, |fs| - 1), PidAt(fs, |fs| - 1))
    && Popped(s).tasks == TasksOf(fs[..|fs| - 1], |fs| - 1)
    && Runnable(g, Popped(s), Top(s))
    && HeadScan(g.children[Top(s).vertex], s.data, s.data[Top(s).vertex].dfn.n, false) == (head, loop)
    && Visiting(g, s, fs) && Scanned(g, s, fs, head, loop)
  }
  /** The visited vertex belongs to a cycle that is still to be found. */
  lemma {:induction false} LowKeeps(g: Cfg, s: State, fs: seq<Frame>, head: nat, loop: bool) returns (fs': seq<Frame>)
    requires ScanFound(g, s, fs, head, loop) && loop && 0 < head < Dn(s, fs[|fs| - 1].vertex)
    ensures Inv(g, StartVisitStep(g, Popped(s), Top(s)), fs')
    ensures StartOutcome(g, s, fs, StartVisitStep(g, Popped(s), Top(s)), fs')
  {
    hide Core, Covered, TasksOf, HeadScan, LoopStep, SingleStep, LowStep, Scanned, Visiting, Dropped, IsInf;
    var s' := StartVisitStep(g, Popped(s), Top(s));
    fs' := fs[..|fs| - 1];
    StartIsLow(g, s, fs, Popped(s), Top(s), head, s', fs');
    LowIsNested(g, s, fs, head);
    LowDropped(s, fs, head, s', fs');
    LowCore(g, s, fs, head, s', fs');
  }

  /** The visited vertex stands alone. */
  lemma {:induction false} SingleKeeps(g: Cfg, s: State, fs: seq<Frame>, head: nat) returns (fs': seq<Frame>)
    requires ScanFound(g, s, fs, head, false) && head == Dn(s, fs[|fs| - 1].vertex)
    ensures Inv(g, StartVisitStep(g, Popped(s), Top(s)), fs')
    ensures StartOutcome(g, s, fs, StartVisitStep(g, Popped(s), Top(s)), fs')
  {
    hide Core, Covered, TasksOf, HeadScan, LoopStep, SingleStep, LowStep, Scanned, Visiting, Dropped, IsInf;
    var s' := StartVisitStep(g, Popped(s), Top(s));
    fs' := fs[..|fs| - 1];
    StartIsSingle(g, s, fs, Popped(s), Top(s), head, s', fs');
    SingleCore(g, s, fs, head, s', fs');
  }

  /** The visited vertex heads a cycle. */
  lemma {:induction false} LoopKeeps(g: Cfg, s: State, fs: seq<Frame>, head: nat) returns (fs': seq<Frame>)
    requires ScanFound(g, s, fs, head, true) && head == Dn(s, fs[|fs| - 1].vertex)
    ensures Inv(g, StartVisitStep(g, Popped(s), Top(s)), fs')
    ensures StartOutcome(g, s, fs, StartVisitStep(g, Popped(s), Top(s)), fs')
  {
    fs' := OpensLoop(g, s, fs, head);
    hide Core, Covered, TasksOf, HeadScan, LoopStep, SingleStep, Scanned, Visiting, StartVisitStep, Runnable;
    LoopCore(g, s, fs, head, StartVisitStep(g, Popped(s), Top(s)), fs');
  }

  lemma {:induction false} StartIsLoop(g: Cfg, s: State, t: VisitArgs)
    requires t.kind == StartVisit && Runnable(g, s, t)
    requires HeadScan(g.children[t.vertex], s.data, s.data[t.vertex].dfn.n, false) == (s.data[t.vertex].dfn.n, true)
    ensures StartVisitStep(g, s, t) == LoopResult(g, s, t, s.data[t.vertex].dfn.n, TopIndex(s.stack, t.vertex))
    ensures g.WellFormed() && s.data.Keys == g.children.Keys
    ensures forall x :: x in g.children[t.vertex] ==> x in StartVisitStep(g, s, t).data
  {
    hide HeadScan, Pending, PushTasks;
    assert forall x :: x in g.children[t.vertex] ==> x in s.data;
  }

  lemma {:induction false} OpensLoop(g: Cfg, s: State, fs: seq<Frame>, head: nat) returns (fs': seq<Frame>)
    requires ScanFound(g, s, fs, head, true) && head == Dn(s, fs[|fs| - 1].vertex)
    ensures var s' := StartVisitStep(g, Popped(s), Top(s));
            LoopStep(g, s, fs, s', fs') && s'.tasks == TasksOf(fs', |fs'|)
            && s'.containing == s.containing && s'.enclosing == s.enclosing[fs[|fs| - 1].vertex := PidAt(fs, |fs| - 1)]
  {
    hide Core, Covered, TasksOf, HeadScan, LoopStep, Scanned, Visiting, PidAt, StartVisitStep, LoopResult, Pending,
      PushTasks, Reset;
    var n := |fs| - 1;
    var t, s0 := Top(s), Popped(s);
    var s' := StartVisitStep(g, s0, t);
    StartIsLoop(g, s0, t);
    VisitingFrame(g, s, fs);
    fs' := fs[n := LoopFrame(g, fs[n], s.stack, Pending(g.children[t.vertex], s'.data))];
    TopIndexIsBase(g, s, fs);
    ResultIsLoop(g, s, fs, n, s0, t, head, s', fs');
    LoopTasks(fs, fs'[n], fs');
  }

  lemma {:induction false} LowIsNested(g: Cfg, s: State, fs: seq<Frame>, head: nat)
    requires Visiting(g, s, fs) && Scanned(g, s, fs, head, true) && head < Dn(s, fs[|fs| - 1].vertex)
    ensures |fs| > 2
  {
    hide AllFinished, Levels, Partitions, Links, OnlyReachable, Covered, LeadsTo, Numbers;
    var j: nat :| LeadsTo(g, s, fs, head, j);
    BelowIsClosed(g, s, fs, head, j);
  }

  lemma {:induction false} VisitingFrame(g: Cfg, s: State, fs: seq<Frame>)
    requires Visiting(g, s, fs)
    ensures Numbers(g, s) && AllFinished(g, s, fs)
    ensures fs[|fs| - 1].base < |s.stack| && s.stack[fs[|fs| - 1].base] == fs[|fs| - 1].vertex
  {
    hide Numbers, AllFinished, Levels, Partitions, Links, OnlyReachable, Heads, Shape, Covered;
  }

  lemma {:induction false} InvIsVisiting(g: Cfg, s: State, fs: seq<Frame>)
    requires |fs| >= 2 && !fs[|fs| - 1].open && fs[|fs| - 1].pending == []
    requires Inv(g, s, fs)
    ensures Visiting(g, s, fs)
  {
    hide Core, Covered;
  }

  lemma {:induction false} StartIsLow(
    g: Cfg, s: State, fs: seq<Frame>, s0: State, t: VisitArgs, head: nat, s': State, fs': seq<Frame>)
    requires |fs| >= 2 && !fs[|fs| - 1].open && fs' == fs[..|fs| - 1]
    requires s0 == s.(tasks := s0.tasks) && t.kind == StartVisit && t.vertex == fs[|fs| - 1].vertex
             && Runnable(g, s0, t)
    requires HeadScan(g.children[t.vertex], s.data, s.data[t.vertex].dfn.n, false).0 == head != s.data[t.vertex].dfn.n
    requires s' == StartVisitStep(g, s0, t)
    ensures LowStep(s, fs, head, s', fs') && s'.tasks == s0.tasks
    ensures s'.partitions == s.partitions && s'.containing == s.containing && s'.enclosing == s.enclosing
  {
    hide HeadScan;
  }

  lemma {:induction false} StartIsSingle(
    g: Cfg, s: State, fs: seq<Frame>, s0: State, t: VisitArgs, head: nat, s': State, fs': seq<Frame>)
    requires |fs| >= 2 && !fs[|fs| - 1].open && fs' == fs[..|fs| - 1]
    requires s0 == s.(tasks := s0.tasks) && t.kind == StartVisit && t.vertex == fs[|fs| - 1].vertex
             && Runnable(g, s0, t)
    requires t.partition == PidAt(fs, |fs| - 1)
    requires HeadScan(g.children[t.vertex], s.data, s.data[t.vertex].dfn.n, false) == (head, false)
             && head == s.data[t.vertex].dfn.n
    requires s' == StartVisitStep(g, s0, t)
    ensures SingleStep(s, fs, head, s', fs') && s'.tasks == s0.tasks
    ensures s'.containing == Emplace(s.containing, t.vertex, t.containingCycle) && s'.enclosing == s.enclosing
  {
    hide HeadScan;
  }

  /** If the scan finds no way back, the depth-first stack yields the visited label. */
  ghost predicate PopsVertex(g: Cfg, s: State) {
    && s.tasks != [] && Top(s).kind == StartVisit && Runnable(g, Popped(s), Top(s))
    && var v := Top(s).vertex;
    HeadScan(g.children[v], s.data, s.data[v].dfn.n, false) == (s.data[v].dfn.n, false)
    ==> s.stack != [] && s.stack[|s.stack| - 1] == v
  }

  /** When a label is placed by itself, it is the one that is popped. */
  lemma {:induction false} PoppedIsVertex(g: Cfg, s: State, fs: seq<Frame>)
    requires |fs| >= 2 && !fs[|fs| - 1].open && fs[|fs| - 1].pending == []
    requires Inv(g, s, fs)
    ensures PopsVertex(g, s)
  {
    hide Core, Covered, TasksOf, HeadScan, Scanned, IsInf, AllFinished, Levels, Partitions, Links, OnlyReachable,
      Heads, Shape, Numbers;
    StartRunnable(g, s, fs);
    var v := Top(s).vertex;
    var d := s.data[v].dfn.n;
    InvIsVisiting(g, s, fs);
    if HeadScan(g.children[v], s.data, d, false) == (d, false) {
      ScanMeans(g, s, fs, d, false);
      VisitingFrame(g, s, fs);
      NothingAbove(g, s, fs, d);
    }
  }

  // ----- continue_visit -----

  lemma {:induction false} ContinueRunnable(g: Cfg, s: State, fs: seq<Frame>)
    requires |fs| >= 2 && fs[|fs| - 1].open && fs[|fs| - 1].pending == []
    requires Inv(g, s, fs)
    ensures s.tasks != []
    ensures Top(s) == VisitArgs(ContinueVisit, fs[|fs| - 1].vertex, PidAt(fs, |fs| - 2), CycleOf(fs[|fs| - 1].vertex))
    ensures Popped(s).tasks == TasksOf(fs[..|fs| - 1], |fs| - 1)
    ensures Runnable(g, Popped(s), Top(s))
  {
    hide Shape, Numbers, Vertices, Heads, AllFinished, Levels, Partitions, Links, OnlyReachable, Covered,
      Partition, Stacked;
    var n := |fs| - 1;
    TopVisit(s, fs);
    ContinueVertex(g, s, fs);
    PartitionAt(g, s, fs, n);
    PidPresent(g, s, fs, n);
    PartitionAt(g, s, fs, n - 1);
    PidPresent(g, s, fs, n - 1);
    WholeStacked(g, s, fs);
    PidsDiffer(g, s, fs, n - 1, n, n);
  }

  lemma {:induction false} ContinueVertex(g: Cfg, s: State, fs: seq<Frame>)
    requires |fs| >= 2 && Vertices(g, s, fs) && Numbers(g, s)
    ensures fs[|fs| - 1].vertex in s.data && s.data.Keys == g.children.Keys
  {
  }

  lemma {:induction false} ContinueIsClose(
    g: Cfg, s: State, fs: seq<Frame>, s0: State, t: VisitArgs, s': State, fs': seq<Frame>)
    requires |fs| >= 2 && fs' == fs[..|fs| - 1] && s0 == s.(tasks := s0.tasks)
    requires t == VisitArgs(ContinueVisit, fs[|fs| - 1].vertex, PidAt(fs, |fs| - 2), CycleOf(fs[|fs| - 1].vertex))
    requires Runnable(g, s0, t) && s' == ContinueVisitStep(g, s0, t)
    ensures CloseStep(s, fs, s', fs') && s'.tasks == s0.tasks
  {
  }

  /** A continue_visit task keeps the invariant. */
  lemma {:induction false} ContinueKeeps(g: Cfg, s: State, fs: seq<Frame>) returns (fs': seq<Frame>)
    requires |fs| >= 2 && fs[|fs| - 1].open && fs[|fs| - 1].pending == []
    requires Inv(g, s, fs)
    ensures s.tasks != [] && Top(s).kind == ContinueVisit && Runnable(g, Popped(s), Top(s))
    ensures Inv(g, ContinueVisitStep(g, Popped(s), Top(s)), fs')
    ensures fs' == fs[..|fs| - 1] && CloseStep(s, fs, ContinueVisitStep(g, Popped(s), Top(s)), fs')
  {
    hide Core, Covered, TasksOf;
    ContinueRunnable(g, s, fs);
    var t, s0 := Top(s), Popped(s);
    var s' := ContinueVisitStep(g, s0, t);
    fs' := fs[..|fs| - 1];
    ContinueIsClose(g, s, fs, s0, t, s', fs');
    CloseCore(g, s, fs, s', fs');
  }
}
