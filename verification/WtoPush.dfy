/** push_successors keeps the invariant (src/cfg/wto.cpp:102-119). */
module WtoPush {
  import opened ControlFlow
  import opened WtoTree
  import opened WtoSteps
  import opened WtoInvariant
  import opened WtoFrames

  // ----- dropping pending labels and tasks -----

  ghost predicate OnlyPendingDiffers(s: State, fs: seq<Frame>, s': State, fs': seq<Frame>) {
    && s' == s.(tasks := s'.tasks)
    && |fs| == |fs'| && Agree(fs, fs', |fs|)
    && forall k, x :: 0 <= k < |fs| && x in fs'[k].pending ==> x in fs[k].pending
  }

  lemma {:induction false} PendingPartitions(g: Cfg, s: State, fs: seq<Frame>, s': State, fs': seq<Frame>)
    requires OnlyPendingDiffers(s, fs, s', fs') && Partitions(g, s, fs)
    ensures Partitions(g, s', fs')
  {
    forall k: nat | k < |fs'| ensures Partition(g, s', fs', k) {
      assert Partition(g, s, fs, k);
      AgreeAt(fs, fs', |fs|, k);
      AgreeContext(fs, fs', |fs|, s.partitions, k);
    }
    forall k: nat | 1 <= k < |fs'| && fs'[k].open ensures OpenPartition(s', fs', k) {
      assert OpenPartition(s, fs, k);
      AgreeContext(fs, fs', |fs|, s.partitions, k - 1);
    }
    AgreeContext(fs, fs', |fs|, s.partitions, |fs| - 1);
    assert forall l :: IsInf(s', l) <==> IsInf(s, l);
  }

  lemma {:induction false} PendingFinished(g: Cfg, s: State, fs: seq<Frame>, s': State, fs': seq<Frame>)
    requires OnlyPendingDiffers(s, fs, s', fs') && Shape(s, fs) && Numbers(g, s) && AllFinished(g, s, fs)
    ensures Numbers(g, s') && AllFinished(g, s', fs')
  {
    hide Finished;
    forall k: nat, i: nat | InSegment(s', fs', k, i) ensures Finished(g, s', fs', k, i) {
      assert InSegment(s, fs, k, i);
      assert Finished(g, s, fs, k, i);
      FinishedKept(g, s, fs, s', fs', k, i);
    }
  }

  lemma {:induction false} PendingCore(g: Cfg, s: State, fs: seq<Frame>, s': State, fs': seq<Frame>)
    requires OnlyPendingDiffers(s, fs, s', fs') && Core(g, s, fs)
    ensures Core(g, s', fs')
  {
    hide AllFinished, Levels, Partitions, Links;
    PendingPartitions(g, s, fs, s', fs');
    PendingFinished(g, s, fs, s', fs');
    PendingShape(s, fs, s', fs');
    PendingLevels(g, s, fs, s', fs');
    PendingLinks(g, s, fs, s', fs');
  }

  lemma {:induction false} PendingShape(s: State, fs: seq<Frame>, s': State, fs': seq<Frame>)
    requires OnlyPendingDiffers(s, fs, s', fs') && Shape(s, fs)
    ensures Shape(s', fs')
  {
    forall k: nat | k < |fs'| ensures Fits(s', fs', k) {
      assert Fits(s, fs, k);
    }
  }

  lemma {:induction false} PendingLevels(g: Cfg, s: State, fs: seq<Frame>, s': State, fs': seq<Frame>)
    requires OnlyPendingDiffers(s, fs, s', fs') && Levels(g, s, fs)
    ensures Levels(g, s', fs')
  {
    forall k: nat | 1 <= k < |fs'| && fs'[k].open ensures Level(g, s', fs', k) {
      assert Level(g, s, fs, k);
      assert forall l :: IsInf(s', l) <==> IsInf(s, l);
    }
  }

  lemma {:induction false} PendingLinks(g: Cfg, s: State, fs: seq<Frame>, s': State, fs': seq<Frame>)
    requires OnlyPendingDiffers(s, fs, s', fs') && Links(g, fs)
    ensures Links(g, fs')
  {
    forall k: nat | 1 <= k < |fs'| ensures Linked(g, fs', k) {
      assert Linked(g, fs, k);
    }
    forall k: nat, x | k < |fs'| && x in fs'[k].pending ensures Target(g, fs', k, x) {
      assert Target(g, fs, k, x);
    }
  }

  // ----- a label seen for the first time -----

  ghost predicate NewLabel(g: Cfg, s: State, fs: seq<Frame>, x: Label, s': State, fs': seq<Frame>) {
    && |fs| >= 1 && Target(g, fs, |fs| - 1, x) && IsZero(s, x)
    && s' == s.(data := s.data[x := s.data[x].(dfn := Finite(s.num + 1))], num := s.num + 1,
             stack := s.stack + [x], tasks := s'.tasks)
    && (forall c :: g.Edge(x, c) ==> c in s.data)
    && x in g.children
    && fs' == fs + [Frame(false, x, |s.stack|, [], Pending(g.children[x], s'.data))]
  }

  lemma {:induction false} NewShape(g: Cfg, s: State, fs: seq<Frame>, x: Label, s': State, fs': seq<Frame>)
    requires NewLabel(g, s, fs, x, s', fs') && Shape(s, fs)
    ensures Shape(s', fs')
    ensures forall k: nat :: k < |fs| ==> Hi(s', fs', k) == Hi(s, fs, k)
  {
    forall k: nat | k < |fs'| ensures Fits(s', fs', k) {
      if k < |fs| {
        assert Fits(s, fs, k);
      }
    }
  }

  lemma {:induction false} NewNumbers(g: Cfg, s: State, fs: seq<Frame>, x: Label, s': State, fs': seq<Frame>)
    requires NewLabel(g, s, fs, x, s', fs') && Numbers(g, s)
    ensures Numbers(g, s') && x !in s.stack
  {
    assert x !in s.stack;
  }

  lemma {:induction false} NewVertices(g: Cfg, s: State, fs: seq<Frame>, x: Label, s': State, fs': seq<Frame>)
    requires NewLabel(g, s, fs, x, s', fs') && Vertices(g, s, fs) && Heads(s, fs)
    ensures Vertices(g, s', fs') && Heads(s', fs')
  {
  }

  lemma {:induction false} NewFinished(g: Cfg, s: State, fs: seq<Frame>, x: Label, s': State, fs': seq<Frame>)
    requires NewLabel(g, s, fs, x, s', fs') && Shape(s, fs) && Numbers(g, s) && AllFinished(g, s, fs) && Numbers(g, s')
    requires forall k: nat :: k < |fs| ==> Hi(s', fs', k) == Hi(s, fs, k)
    requires x !in s.stack
    ensures AllFinished(g, s', fs')
  {
    hide Finished, KeepsBelow;
    NewKeepsBelow(g, s, fs, x, s', fs');
    assert forall k: nat :: k < |fs| ==> fs'[k] == fs[k];
    assert |fs'| == |fs| + 1 && fs'[|fs|].base + 1 == |s'.stack|;
    hide Numbers, Shape, NewLabel;
    forall k: nat, i: nat | InSegment(s', fs', k, i) ensures Finished(g, s', fs', k, i) {
      if k < |fs| {
        assert InSegment(s, fs, k, i);
        assert Finished(g, s, fs, k, i);
        FinishedKept(g, s, fs, s', fs', k, i);
      }
    }
  }

  lemma {:induction false} NewKeepsBelow(g: Cfg, s: State, fs: seq<Frame>, x: Label, s': State, fs': seq<Frame>)
    requires NewLabel(g, s, fs, x, s', fs') && Shape(s, fs) && Numbers(g, s) && x !in s.stack
    ensures forall k: nat :: k < |fs| ==> Hi(s, fs, k) <= |s.stack| && KeepsBelow(s, s', Hi(s, fs, k))
  {
    forall k: nat | k < |fs| ensures Hi(s, fs, k) <= |s.stack| && KeepsBelow(s, s', Hi(s, fs, k)) {
      HiBound(s, fs, k);
      NewKeepsAt(g, s, fs, x, s', fs', Hi(s, fs, k));
    }
  }

  lemma {:induction false} NewKeepsAt(g: Cfg, s: State, fs: seq<Frame>, x: Label, s': State, fs': seq<Frame>, h: nat)
    requires NewLabel(g, s, fs, x, s', fs') && x !in s.stack && h <= |s.stack|
    ensures KeepsBelow(s, s', h)
  {
    hide Target, Pending;
  }

  lemma {:induction false} TargetInComp(g: Cfg, s: State, fs: seq<Frame>, x: Label, k: nat)
    requires Shape(s, fs) && Vertices(g, s, fs) && Levels(g, s, fs)
    requires 1 <= k < |fs| && fs[k].open && Target(g, fs, |fs| - 1, x) && !IsInf(s, x)
    ensures x in fs[k].comp
  {
    var n := |fs| - 1;
    var v := fs[n].vertex;
    assert Level(g, s, fs, k);
    if !fs[n].open {
      BasesGrow(s, fs, k, n);
      assert s.stack[fs[n].base] == v;
    } else {
      assert Level(g, s, fs, n);
      assert v in Range(fs[n].comp);
    }
    assert v in fs[k].comp;
  }

  lemma {:induction false} NewLevels(g: Cfg, s: State, fs: seq<Frame>, x: Label, s': State, fs': seq<Frame>)
    requires NewLabel(g, s, fs, x, s', fs') && Shape(s, fs) && Vertices(g, s, fs) && Levels(g, s, fs)
    requires x !in s.stack
    ensures Levels(g, s', fs')
  {
    hide CompTree;
    forall k: nat | 1 <= k < |fs'| && fs'[k].open ensures Level(g, s', fs', k) {
      assert Level(g, s, fs, k);
      TargetInComp(g, s, fs, x, k);
      BaseBound(s, fs, k);
      assert forall l :: IsInf(s', l) <==> IsInf(s, l);
    }
  }

  lemma {:induction false} NewPartitions(g: Cfg, s: State, fs: seq<Frame>, x: Label, s': State, fs': seq<Frame>)
    requires NewLabel(g, s, fs, x, s', fs') && Partitions(g, s, fs)
    ensures Partitions(g, s', fs')
  {
    var n := |fs|;
    assert forall l :: IsInf(s', l) <==> IsInf(s, l);
    AgreeAt(fs, fs', n, n - 1);
    AgreeContext(fs, fs', n, s.partitions, n - 1);
    forall k: nat | 1 <= k < |fs'| && fs'[k].open ensures OpenPartition(s', fs', k) {
      assert OpenPartition(s, fs, k);
      AgreeContext(fs, fs', n, s.partitions, k - 1);
    }
    forall k: nat | k < |fs'| ensures Partition(g, s', fs', k) {
      NewPartition(g, s, fs, x, s', fs', k);
    }
  }

  lemma {:induction false} NewPartition(g: Cfg, s: State, fs: seq<Frame>, x: Label, s': State, fs': seq<Frame>, k: nat)
    requires NewLabel(g, s, fs, x, s', fs') && Partitions(g, s, fs) && k < |fs'|
    ensures Partition(g, s', fs', k)
  {
    hide OpenPartition, Target, Pending;
    var n := |fs|;
    var j := if k < n then k else n - 1;
    assert forall l :: IsInf(s', l) <==> IsInf(s, l);
    assert Partition(g, s, fs, j);
    AgreeAt(fs, fs', n, j);
    AgreeContext(fs, fs', n, s.partitions, j);
    AgreeAt(fs, fs', n, n - 1);
    AgreeContext(fs, fs', n, s.partitions, n - 1);
  }

  lemma {:induction false} NewReachable(g: Cfg, s: State, fs: seq<Frame>, x: Label, s': State, fs': seq<Frame>)
    requires NewLabel(g, s, fs, x, s', fs') && g.WellFormed() && Vertices(g, s, fs) && Numbers(g, s) && Levels(g, s, fs)
    requires OnlyReachable(g, s)
    ensures OnlyReachable(g, s')
  {
    var n := |fs| - 1;
    hide Reachable;
    assert Reachable(g, x) by {
      if n > 0 {
        if fs[n].open {
          assert Level(g, s, fs, n);
        }
        assert Reachable(g, fs[n].vertex);
        ReachableStep(g, fs[n].vertex, x);
      } else {
        EntryReachable(g);
      }
    }
    hide Numbers, Levels, Vertices, Cfg.WellFormed;
  }

  lemma {:induction false} EntryReachable(g: Cfg)
    ensures Reachable(g, g.entry)
  {
  }

  lemma {:induction false} NewLinks(g: Cfg, s: State, fs: seq<Frame>, x: Label, s': State, fs': seq<Frame>)
    requires NewLabel(g, s, fs, x, s', fs') && Links(g, fs)
    ensures Links(g, fs')
  {
    forall k: nat | 1 <= k < |fs'| ensures Linked(g, fs', k) {
      if k < |fs| {
        assert Linked(g, fs, k);
      } else {
        assert Target(g, fs', k - 1, x) == Target(g, fs, k - 1, x);
      }
    }
    forall k: nat, y | k < |fs'| && y in fs'[k].pending ensures Target(g, fs', k, y) {
      if k < |fs| {
        assert Target(g, fs, k, y);
      }
    }
  }

  lemma {:induction false} NewCore(g: Cfg, s: State, fs: seq<Frame>, x: Label, s': State, fs': seq<Frame>)
    requires NewLabel(g, s, fs, x, s', fs') && Core(g, s, fs)
    ensures Core(g, s', fs')
  {
    hide Shape, Numbers, Vertices, Heads, AllFinished, Levels, Partitions, Links, OnlyReachable, NewLabel;
    NewShape(g, s, fs, x, s', fs');
    NewNumbers(g, s, fs, x, s', fs');
    NewVertices(g, s, fs, x, s', fs');
    NewFinished(g, s, fs, x, s', fs');
    NewLevels(g, s, fs, x, s', fs');
    NewPartitions(g, s, fs, x, s', fs');
    NewReachable(g, s, fs, x, s', fs');
    NewLinks(g, s, fs, x, s', fs');
  }

  lemma {:induction false} NewTasks(g: Cfg, s: State, fs: seq<Frame>, x: Label, fs': seq<Frame>, pending: seq<Label>)
    requires |fs| >= 1 && fs' == fs + [Frame(false, x, |s.stack|, [], pending)]
    ensures TasksOf(fs', |fs'|)
         == TasksOf(fs, |fs|) + [VisitArgs(StartVisit, x, PidAt(fs, |fs| - 1), PidAt(fs, |fs| - 1))]
            + PushTasks(pending, PidAt(fs, |fs| - 1))
  {
    var n := |fs|;
    TasksPrefix(fs, fs', n);
    AgreeAt(fs, fs', n, n - 1);
  }

  // ----- push_successors as a whole -----

  ghost function Shrunk(fs: seq<Frame>): seq<Frame>
    requires fs != [] && fs[|fs| - 1].pending != []
  {
    var f := fs[|fs| - 1];
    fs[|fs| - 1 := f.(pending := f.pending[..|f.pending| - 1])]
  }

  /** What the last frame's next label satisfies. */
  lemma {:induction false} NextPending(g: Cfg, s: State, fs: seq<Frame>)
    requires g.WellFormed() && fs != [] && fs[|fs| - 1].pending != [] && Links(g, fs) && Partitions(g, s, fs)
    ensures var x := fs[|fs| - 1].pending[|fs[|fs| - 1].pending| - 1];
            && Target(g, fs, |fs| - 1, x) && x in g.children
            && PidAt(fs, |fs| - 1) in s.partitions
  {
    assert Partition(g, s, fs, |fs| - 1);
    assert Target(g, fs, |fs| - 1, fs[|fs| - 1].pending[|fs[|fs| - 1].pending| - 1]);
  }

  lemma {:induction false} PushRunnable(g: Cfg, s: State, fs: seq<Frame>)
    requires Inv(g, s, fs) && fs != [] && fs[|fs| - 1].pending != []
    ensures s.tasks != []
    ensures var x := fs[|fs| - 1].pending[|fs[|fs| - 1].pending| - 1];
            && Top(s) == VisitArgs(PushSuccessors, x, PidAt(fs, |fs| - 1), PidAt(fs, |fs| - 1))
            && Target(g, fs, |fs| - 1, x)
    ensures Runnable(g, Popped(s), Top(s))
  {
    hide Shape, Numbers, Vertices, Heads, AllFinished, Levels, Partitions, Links, OnlyReachable, Covered;
    TopPush(s, fs);
    NextPending(g, s, fs);
    DataKeys(g, s);
  }

  /** Task `t`, taken from the last frame of `fs`, starts the visit of a new label. */
  ghost predicate NewVisit(
    g: Cfg, s: State, fs: seq<Frame>, s0: State, f0: seq<Frame>, t: VisitArgs, s': State, fs': seq<Frame>) {
    && fs != [] && fs[|fs| - 1].pending != [] && f0 == Shrunk(fs) && s0 == s.(tasks := s0.tasks)
    && s0.tasks == TasksOf(f0, |f0|)
    && t == VisitArgs(PushSuccessors, fs[|fs| - 1].pending[|fs[|fs| - 1].pending| - 1], PidAt(fs, |fs| - 1),
                      PidAt(fs, |fs| - 1))
    && Runnable(g, s0, t) && Target(g, f0, |f0| - 1, t.vertex) && IsZero(s0, t.vertex)
    && s' == PushSuccessorsStep(g, s0, t)
    && (forall x :: x in g.children[t.vertex] ==> x in s'.data)
    && fs' == f0 + [Frame(false, t.vertex, |s0.stack|, [], Pending(g.children[t.vertex], s'.data))]
  }

  lemma {:induction false} NewKeeps(
    g: Cfg, s: State, fs: seq<Frame>, s0: State, f0: seq<Frame>, t: VisitArgs, s': State, fs': seq<Frame>)
    requires NewVisit(g, s, fs, s0, f0, t, s', fs') && g.WellFormed() && Covered(g, s, fs) && Core(g, s0, f0)
    ensures Inv(g, s', fs')
  {
    hide Core, Covered, TasksOf, Target, Inv, Cfg.WellFormed, Pending;
    StepIsNew(g, s0, f0, t, s', fs');
    NewCore(g, s0, f0, t.vertex, s', fs');
    NewTasks(g, s0, f0, t.vertex, fs', Pending(g.children[t.vertex], s'.data));
    AgreeAt(fs, f0, |fs|, |fs| - 1);
    NewCovered(g, s, fs, f0, t.vertex, s', fs');
    NewInv(g, s', fs');
  }

  lemma {:induction false} NewInv(g: Cfg, s: State, fs: seq<Frame>)
    requires s.tasks == TasksOf(fs, |fs|) && Covered(g, s, fs) && Core(g, s, fs)
    ensures Inv(g, s, fs)
  {
    hide Core, Covered, TasksOf;
  }

  lemma {:induction false} StepIsNew(g: Cfg, s0: State, f0: seq<Frame>, t: VisitArgs, s': State, fs': seq<Frame>)
    requires |f0| >= 1 && t.kind == PushSuccessors && t.partition == t.containingCycle
    requires Runnable(g, s0, t) && Target(g, f0, |f0| - 1, t.vertex) && IsZero(s0, t.vertex)
    requires s' == PushSuccessorsStep(g, s0, t)
    requires fs' == f0 + [Frame(false, t.vertex, |s0.stack|, [], Pending(g.children[t.vertex], s'.data))]
    ensures NewLabel(g, s0, f0, t.vertex, s', fs')
    ensures s'.tasks == s0.tasks + [VisitArgs(StartVisit, t.vertex, t.partition, t.partition)]
                        + PushTasks(Pending(g.children[t.vertex], s'.data), t.partition)
  {
  }

  /** A push_successors task keeps the invariant. */
  lemma {:induction false} PushKeeps(g: Cfg, s: State, fs: seq<Frame>) returns (fs': seq<Frame>)
    requires Inv(g, s, fs) && fs != [] && fs[|fs| - 1].pending != []
    ensures s.tasks != [] && Top(s).kind == PushSuccessors && Runnable(g, Popped(s), Top(s))
    ensures Inv(g, PushSuccessorsStep(g, Popped(s), Top(s)), fs')
    ensures Top(s).vertex == fs[|fs| - 1].pending[|fs[|fs| - 1].pending| - 1]
    ensures if IsZero(s, Top(s).vertex) then |fs'| == |fs| + 1 && fs'[..|fs|] == Shrunk(fs)
                                             && !fs'[|fs|].open else fs' == Shrunk(fs)
  {
    hide Shape, Numbers, Vertices, Heads, AllFinished, Levels, Partitions, Links, OnlyReachable, Covered, TasksOf;
    PushRunnable(g, s, fs);
    TopPush(s, fs);
    var s0, f0 := Popped(s), Shrunk(fs);
    var x := Top(s).vertex;
    ShrunkAgrees(s, fs, s0);
    PendingCore(g, s, fs, s0, f0);
    if s.data[x].dfn != Finite(0) {
      fs' := f0;
      ShrunkCovered(g, s, fs, s0, f0);
    } else {
      var s' := PushSuccessorsStep(g, s0, Top(s));
      fs' := f0 + [Frame(false, x, |s0.stack|, [], Pending(g.children[x], s'.data))];
      NewKeeps(g, s, fs, s0, f0, Top(s), s', fs');
    }
  }

  lemma {:induction false} ShrunkAgrees(s: State, fs: seq<Frame>, s0: State)
    requires fs != [] && fs[|fs| - 1].pending != [] && s0 == s.(tasks := s0.tasks)
    ensures OnlyPendingDiffers(s, fs, s0, Shrunk(fs))
  {
  }

  lemma {:induction false} ShrunkCovered(g: Cfg, s: State, fs: seq<Frame>, s0: State, f0: seq<Frame>)
    requires fs != [] && fs[|fs| - 1].pending != [] && f0 == Shrunk(fs) && s0 == s.(tasks := s0.tasks)
    requires Covered(g, s, fs) && !IsZero(s, fs[|fs| - 1].pending[|fs[|fs| - 1].pending| - 1])
    ensures Covered(g, s0, f0)
  {
    forall k: nat, y | k < |f0| && Target(g, f0, k, y) && IsZero(s0, y)
      ensures y in f0[k].pending || InOpenAbove(f0, k, y)
    {
      CoveredShrunk(g, s, fs, f0, k, y);
    }
  }

  lemma {:induction false} CoveredShrunk(g: Cfg, s: State, fs: seq<Frame>, f0: seq<Frame>, k: nat, y: Label)
    requires fs != [] && fs[|fs| - 1].pending != [] && f0 == Shrunk(fs) && Covered(g, s, fs)
    requires k < |fs| && Target(g, f0, k, y) && IsZero(s, y)
    requires y != fs[|fs| - 1].pending[|fs[|fs| - 1].pending| - 1]
    ensures y in f0[k].pending || InOpenAbove(f0, k, y)
  {
    assert Target(g, fs, k, y);
    if y in fs[k].pending {
      if k == |fs| - 1 {
        var p := fs[k].pending;
        assert p == p[..|p| - 1] + [p[|p| - 1]];
      }
    } else {
      var m :| k < m < |fs| && fs[m].open && y in fs[m].comp;
      assert f0[m].open && f0[m].comp == fs[m].comp;
    }
  }

  lemma {:induction false} NewCovered(
    g: Cfg, s: State, fs: seq<Frame>, f0: seq<Frame>, x: Label, s': State, fs': seq<Frame>)
    requires g.WellFormed() && fs != [] && fs[|fs| - 1].pending != [] && f0 == Shrunk(fs) && Covered(g, s, fs)
    requires x == fs[|fs| - 1].pending[|fs[|fs| - 1].pending| - 1] && x in s.data && x in g.children
    requires s'.data == s.data[x := s.data[x].(dfn := Finite(s.num + 1))] && s.data.Keys == g.children.Keys
    requires fs' == f0 + [Frame(false, x, |s.stack|, [], Pending(g.children[x], s'.data))]
    ensures Covered(g, s', fs')
  {
    forall k: nat, y | k < |fs'| && Target(g, fs', k, y) && IsZero(s', y)
      ensures y in fs'[k].pending || InOpenAbove(fs', k, y)
    {
      if k < |fs| {
        assert Target(g, f0, k, y);
        CoveredShrunk(g, s, fs, f0, k, y);
        if y !in f0[k].pending {
          var m :| k < m < |f0| && f0[m].open && y in f0[m].comp;
          assert fs'[m] == f0[m];
        }
      }
    }
  }
}
