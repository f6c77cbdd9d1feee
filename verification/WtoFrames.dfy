/** Facts about frames that every step of the builder needs. */
module WtoFrames {
  import opened ControlFlow
  import opened WtoTree
  import opened WtoSteps
  import opened WtoInvariant

  /** The first `n` frames are the same up to the labels they still have to push. */
  ghost predicate Agree(fs: seq<Frame>, ft: seq<Frame>, n: nat) {
    && n <= |fs| && n <= |ft|
    && forall i :: 0 <= i < n ==>
                     fs[i].open == ft[i].open && fs[i].vertex == ft[i].vertex && fs[i].base == ft[i].base
                     && fs[i].comp == ft[i].comp
  }

  lemma {:induction false} AgreeAt(fs: seq<Frame>, ft: seq<Frame>, n: nat, k: nat)
    requires Agree(fs, ft, n) && k < n
    ensures PidAt(fs, k) == PidAt(ft, k) && LevelBase(fs, k) == LevelBase(ft, k)
  {
    if k > 0 && !fs[k].open {
      AgreeAt(fs, ft, n, k - 1);
    }
  }

  lemma {:induction false} AgreeContext(
    fs: seq<Frame>, ft: seq<Frame>, n: nat, parts: map<PartitionId, seq<Component>>, k: nat)
    requires Agree(fs, ft, n) && k < n
    ensures Context(fs, parts, k) == Context(ft, parts, k)
    ensures Done(fs, parts, k) == Done(ft, parts, k)
  {
    AgreeAt(fs, ft, n, k);
    if k > 0 {
      AgreeContext(fs, ft, n, parts, k - 1);
    }
  }

  lemma {:induction false} FrameTasksSame(fs: seq<Frame>, ft: seq<Frame>, k: nat)
    requires k < |fs| && k < |ft| && fs[k] == ft[k] && PidAt(fs, k) == PidAt(ft, k)
    requires k > 0 ==> PidAt(fs, k - 1) == PidAt(ft, k - 1)
    ensures FrameTasks(fs, k) == FrameTasks(ft, k)
  {
  }

  lemma {:induction false} TasksPrefix(fs: seq<Frame>, ft: seq<Frame>, n: nat)
    requires n <= |fs| && n <= |ft| && forall i :: 0 <= i < n ==> fs[i] == ft[i]
    ensures TasksOf(fs, n) == TasksOf(ft, n)
  {
    if n > 0 {
      TasksPrefix(fs, ft, n - 1);
      AgreeAt(fs, ft, n, n - 1);
      if n > 1 {
        AgreeAt(fs, ft, n, n - 2);
      }
      FrameTasksSame(fs, ft, n - 1);
    }
  }

  lemma {:induction false} PushTasksInit(p: seq<Label>, id: PartitionId)
    requires p != []
    ensures PushTasks(p, id) == PushTasks(p[..|p| - 1], id) + [VisitArgs(PushSuccessors, p[|p| - 1], id, id)]
  {
  }

  /** The worklist entry on top when the last frame has labels left to push. */
  lemma {:induction false} TopPush(s: State, fs: seq<Frame>)
    requires fs != [] && s.tasks == TasksOf(fs, |fs|) && fs[|fs| - 1].pending != []
    ensures var n := |fs| - 1;
            var f := fs[n];
            && s.tasks != []
            && Top(s) == VisitArgs(PushSuccessors, f.pending[|f.pending| - 1], PidAt(fs, n), PidAt(fs, n))
            && Popped(s).tasks == TasksOf(fs[n := f.(pending := f.pending[..|f.pending| - 1])], n + 1)
  {
    var n := |fs| - 1;
    var f := fs[n];
    PushTasksInit(f.pending, PidAt(fs, n));
    var ft := fs[n := f.(pending := f.pending[..|f.pending| - 1])];
    TasksPrefix(fs, ft, n);
    assert Agree(fs, ft, n + 1);
    AgreeAt(fs, ft, n + 1, n);
    if n > 0 {
      AgreeAt(fs, ft, n + 1, n - 1);
    }
    assert FrameTasks(fs, n) ==
           FrameTasks(ft, n) + [VisitArgs(PushSuccessors, f.pending[|f.pending| - 1], PidAt(fs, n), PidAt(fs, n))];
    assert s.tasks
        == TasksOf(ft, n + 1)
           + [VisitArgs(PushSuccessors, f.pending[|f.pending| - 1], PidAt(fs, n), PidAt(fs, n))];
  }

  /** The worklist entry on top when the last frame has none. */
  lemma {:induction false} TopVisit(s: State, fs: seq<Frame>)
    requires |fs| > 1 && s.tasks == TasksOf(fs, |fs|) && fs[|fs| - 1].pending == []
    ensures var n := |fs| - 1;
            var f := fs[n];
            && s.tasks != [] && Popped(s).tasks == TasksOf(fs[..n], n)
            && Top(s) == if f.open then VisitArgs(ContinueVisit, f.vertex, PidAt(fs, n - 1), CycleOf(f.vertex))
                         else VisitArgs(StartVisit, f.vertex, PidAt(fs, n), PidAt(fs, n))
  {
    var n := |fs| - 1;
    assert PushTasks(fs[n].pending, PidAt(fs, n)) == [];
    TasksPrefix(fs, fs[..n], n);
    assert s.tasks == TasksOf(fs, n) + FrameTasks(fs, n);
  }

  lemma {:induction false} NoTask(s: State, fs: seq<Frame>)
    requires fs != [] && s.tasks == TasksOf(fs, |fs|) == []
    ensures |fs| == 1 && fs[0].pending == []
  {
    if fs[|fs| - 1].pending != [] {
      TopPush(s, fs);
      assert false;
    } else if |fs| > 1 {
      TopVisit(s, fs);
      assert false;
    }
  }

  lemma {:induction false} BaseBound(s: State, fs: seq<Frame>, j: nat)
    requires Shape(s, fs) && j < |fs|
    ensures fs[j].base <= Lo(fs[j]) <= |s.stack|
    decreases |fs| - j
  {
    assert Fits(s, fs, j);
    if j + 1 < |fs| {
      BaseBound(s, fs, j + 1);
    }
  }

  lemma {:induction false} BasesGrow(s: State, fs: seq<Frame>, i: nat, j: nat)
    requires Shape(s, fs) && i < j < |fs|
    ensures Lo(fs[i]) <= fs[j].base
  {
    assert Fits(s, fs, j - 1);
    if i < j - 1 {
      BasesGrow(s, fs, i, j - 1);
    }
  }

  lemma {:induction false} HiBound(s: State, fs: seq<Frame>, k: nat)
    requires Shape(s, fs) && k < |fs|
    ensures fs[k].base <= Lo(fs[k]) <= Hi(s, fs, k) <= |s.stack|
  {
    assert Fits(s, fs, k);
    if k + 1 < |fs| {
      BaseBound(s, fs, k + 1);
    }
  }

  lemma {:induction false} LevelBaseBound(s: State, fs: seq<Frame>, k: nat)
    requires Shape(s, fs) && k < |fs|
    ensures LevelBase(fs, k) <= fs[k].base
  {
    if k > 0 && !fs[k].open {
      LevelBaseBound(s, fs, k - 1);
      BasesGrow(s, fs, k - 1, k);
    }
  }

  lemma {:induction false} DataKeys(g: Cfg, s: State)
    requires Numbers(g, s)
    ensures s.data.Keys == g.children.Keys
  {
  }

  lemma {:induction false} StackDistinct(g: Cfg, s: State)
    requires Numbers(g, s)
    ensures forall i, j :: 0 <= i < |s.stack| && 0 <= j < |s.stack| && s.stack[i] == s.stack[j] ==> i == j
  {
  }

  /** `s'` keeps the lowest `h` stack positions of `s` with their data, and all finished labels. */
  ghost predicate KeepsBelow(s: State, s': State, h: nat) {
    && h <= |s.stack| && h <= |s'.stack|
    && (forall j :: 0 <= j < h ==> s'.stack[j] == s.stack[j])
    && (forall j :: 0 <= j < h ==> Dn(s', s.stack[j]) == Dn(s, s.stack[j]) && Hd(s', s.stack[j]) == Hd(s, s.stack[j]))
    && (forall l :: IsInf(s, l) ==> IsInf(s', l))
  }

  lemma {:induction false} RangeGrows(a: seq<Label>, b: seq<Label>, j: nat, h: nat, h': nat)
    requires j <= h <= h' && h <= |a| && h' <= |b|
    requires forall i :: 0 <= i < h ==> a[i] == b[i]
    ensures Range(a[j..h]) <= Range(b[j..h'])
  {
    forall l | l in a[j..h] ensures l in b[j..h'] {
      var q :| 0 <= q < h - j && a[j..h][q] == l;
      assert b[j..h'][q] == l;
    }
  }

  lemma {:induction false} LowLinkKept(
    g: Cfg, s: State, fs: seq<Frame>, s': State, fs': seq<Frame>, k: nat, i: nat, j: nat)
    requires Agree(fs, fs', k + 1)
    requires InSegment(s, fs, k, i) && LowLink(g, s, fs, k, i, j)
    requires InSegment(s', fs', k, i)
    requires Hi(s, fs, k) <= Hi(s', fs', k) && KeepsBelow(s, s', Hi(s, fs, k))
    ensures LowLink(g, s', fs', k, i, j)
  {
    var h, h' := Hi(s, fs, k), Hi(s', fs', k);
    AgreeAt(fs, fs', k + 1, k);
    RangeGrows(s.stack, s'.stack, j, h, h');
    ConnectedMono(g, Range(s.stack[j..h]), Range(s'.stack[j..h']), s.stack[i], s.stack[j]);
  }

  lemma {:induction false} SeenKept(s: State, s': State, x: Label, h: nat, h': nat, low: nat)
    requires KeepsBelow(s, s', h) && h <= h' <= |s'.stack| && SeenAbove(s, x, h, low)
    ensures SeenAbove(s', x, h', low)
  {
    var q :| 0 <= q < h && s.stack[q] == x;
    assert s'.stack[q] == x;
  }

  /** A finished vertex stays finished while its segment's part of the stack is untouched. */
  lemma {:induction false} FinishedKept(g: Cfg, s: State, fs: seq<Frame>, s': State, fs': seq<Frame>, k: nat, i: nat)
    requires Agree(fs, fs', k + 1)
    requires InSegment(s, fs, k, i) && Finished(g, s, fs, k, i)
    requires Hi(s, fs, k) <= Hi(s', fs', k) <= |s'.stack| && KeepsBelow(s, s', Hi(s, fs, k))
    ensures InSegment(s', fs', k, i) && Finished(g, s', fs', k, i)
  {
    hide LowLink, SeenAbove;
    var h, h' := Hi(s, fs, k), Hi(s', fs', k);
    var w := s.stack[i];
    var j: nat :| LowLink(g, s, fs, k, i, j);
    LowLinkKept(g, s, fs, s', fs', k, i, j);
    var t: nat :| TreeEdge(g, s, fs, k, i, t);
    assert TreeEdge(g, s', fs', k, i, t);
    forall x | g.Edge(w, x) ensures IsInf(s', x) || SeenAbove(s', x, h', Hd(s', w)) {
      if !IsInf(s, x) {
        SeenKept(s, s', x, h, h', Hd(s, w));
      }
    }
  }
}
