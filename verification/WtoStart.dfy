/** start_visit when the vertex is not the head of its own component, and when it forms a
    component alone (src/cfg/wto.cpp:121-175). */
module WtoStart {
  import opened ControlFlow
  import opened WtoSteps
  import opened WtoInvariant
  import opened WtoFrames
  import opened WtoScan
  import opened WtoDrop

  /** What the scan of the successors of the last frame's vertex establishes. */
  ghost predicate Scanned(g: Cfg, s: State, fs: seq<Frame>, head: nat, loop: bool)
    requires |fs| >= 1
  {
    var v := fs[|fs| - 1].vertex;
    && (forall x {:trigger ScannedChild(s, head, loop, v, x)} :: g.Edge(v, x) ==> ScannedChild(s, head, loop, v, x))
    && (loop ==> exists j: nat :: LeadsTo(g, s, fs, head, j))
  }

  ghost predicate ScannedChild(s: State, head: nat, loop: bool, v: Label, x: Label) {
    IsInf(s, x) ||
    (x in s.stack && head <= Mn(s, x) <= Dn(s, x) && (!loop ==> Dn(s, v) < Mn(s, x)))
  }

  lemma {:induction false} ScanChild(g: Cfg, s: State, fs: seq<Frame>, x: Label)
    requires Visiting(g, s, fs)
    requires g.Edge(fs[|fs| - 1].vertex, x)
    ensures x in s.data
    ensures if IsInf(s, x) then MinDfn(s.data[x]) == Infinity
            else x in s.stack && MinDfn(s.data[x]) == Finite(Mn(s, x)) && 0 < Mn(s, x) <= Dn(s, x)
    ensures !IsInf(s, x) && Mn(s, x) <= Dn(s, fs[|fs| - 1].vertex) ==> exists j: nat :: LeadsTo(g, s, fs, Mn(s, x), j)
  {
    hide Shape, Vertices, Heads, AllFinished, Levels, Partitions, Links, OnlyReachable, Covered, Numbers, LeadsTo;
    VertexNumber(g, s, fs);
    ChildSeen(g, s, fs, x);
    if !IsInf(s, x) {
      var q :| 0 <= q < |s.stack| && s.stack[q] == x;
      StackNumber(g, s, fs, q);
      if Mn(s, x) <= Dn(s, fs[|fs| - 1].vertex) {
        ChildLeads(g, s, fs, x, q);
      }
    }
  }

  lemma {:induction false} VertexNumber(g: Cfg, s: State, fs: seq<Frame>)
    requires |fs| >= 2 && !fs[|fs| - 1].open && Vertices(g, s, fs) && Numbers(g, s)
    ensures var f := fs[|fs| - 1];
            f.base < |s.stack| && s.stack[f.base] == f.vertex && f.vertex in g.children && f.vertex in s.data
            && s.data[f.vertex].dfn.Finite? && s.data[f.vertex].dfn.n > 0
    ensures s.data.Keys == g.children.Keys
  {
  }

  lemma {:induction false} ScanMeans(g: Cfg, s: State, fs: seq<Frame>, head: nat, loop: bool)
    requires |fs| >= 2 && g.WellFormed() && s.data.Keys == g.children.Keys
    requires fs[|fs| - 1].vertex in s.data && s.data[fs[|fs| - 1].vertex].dfn.Finite?
    requires (head, loop) == HeadScan(g.children[fs[|fs| - 1].vertex], s.data, s.data[fs[|fs| - 1].vertex].dfn.n, false)
    requires Visiting(g, s, fs)
    ensures head <= Dn(s, fs[|fs| - 1].vertex) && (head < Dn(s, fs[|fs| - 1].vertex) ==> loop) && (loop ==> 0 < head)
    ensures Scanned(g, s, fs, head, loop)
  {
    hide Visiting, Core, LeadsTo, IsInf, MinDfn, HeadScan, Mn;
    var v := fs[|fs| - 1].vertex;
    var d := s.data[v].dfn.n;
    HeadScanLow(g.children[v], s.data, d);
    forall x | g.Edge(v, x) ensures ScannedChild(s, head, loop, v, x) {
      ScanChild(g, s, fs, x);
      if !IsInf(s, x) {
        HeadScanBound(g.children[v], s.data, d, x);
      }
    }
    if loop {
      var y := HeadScanWitness(g.children[v], s.data, d);
      ScanChild(g, s, fs, y);
    }
  }

  /** Everything above the vertex on the stack carries a number no smaller than the scan's. */
  lemma {:induction false} SegmentLow(g: Cfg, s: State, fs: seq<Frame>, head: nat, loop: bool, i: nat)
    requires |fs| >= 2 && !fs[|fs| - 1].open && InSegment(s, fs, |fs| - 1, i)
    requires fs[|fs| - 1].base < |s.stack| && s.stack[fs[|fs| - 1].base] == fs[|fs| - 1].vertex
    requires forall q :: 0 <= q < |s.stack| ==> !IsInf(s, s.stack[q])
    requires AllFinished(g, s, fs) && Scanned(g, s, fs, head, loop)
    ensures head <= Hd(s, s.stack[i])
    decreases i
  {
    var n := |fs| - 1;
    assert Finished(g, s, fs, n, i);
    var j: nat :| TreeEdge(g, s, fs, n, i, j);
    if j == fs[n].base {
      assert ScannedChild(s, head, loop, fs[n].vertex, s.stack[i]);
    } else {
      SegmentLow(g, s, fs, head, loop, j);
    }
  }

  // ----- the vertex belongs to a component entered lower on the stack -----

  ghost predicate LowStep(s: State, fs: seq<Frame>, head: nat, s': State, fs': seq<Frame>) {
    && |fs| >= 2 && !fs[|fs| - 1].open && fs[|fs| - 1].vertex in s.data
    && s' == s.(data := s.data[fs[|fs| - 1].vertex := s.data[fs[|fs| - 1].vertex].(headDfn := head)], tasks := s'.tasks)
    && fs' == fs[..|fs| - 1]
  }

  lemma {:induction false} LowNumbers(g: Cfg, s: State, fs: seq<Frame>, head: nat, s': State, fs': seq<Frame>)
    requires LowStep(s, fs, head, s', fs') && Numbers(g, s)
    ensures Numbers(g, s')
  {
  }

  /** The frame below is a visit, since the level's first vertex always heads its component. */
  lemma {:induction false} BelowIsClosed(g: Cfg, s: State, fs: seq<Frame>, head: nat, j: nat)
    requires |fs| >= 2 && Shape(s, fs) && !fs[|fs| - 1].open
    requires LeadsTo(g, s, fs, head, j) && head < Dn(s, s.stack[fs[|fs| - 1].base])
    ensures |fs| >= 3 && !fs[|fs| - 2].open
  {
    hide Connected;
    var n := |fs| - 1;
    ShapeAt(s, fs, n - 1);
    assert LevelBase(fs, n) == LevelBase(fs, n - 1);
  }

  lemma {:induction false} LowShape(s: State, fs: seq<Frame>, head: nat, s': State, fs': seq<Frame>)
    requires LowStep(s, fs, head, s', fs') && Shape(s, fs) && !fs[|fs| - 2].open
    ensures Shape(s', fs') && Agree(fs, fs', |fs'|)
    ensures forall k: nat :: k < |fs| - 2 ==> Hi(s', fs', k) == Hi(s, fs, k)
    ensures Hi(s', fs', |fs| - 2) == |s.stack|
  {
    BaseBound(s, fs, |fs| - 2);
    forall k: nat | k < |fs'| ensures Fits(s', fs', k) {
      assert Fits(s, fs, k);
    }
  }

  lemma {:induction false} LowVertices(g: Cfg, s: State, fs: seq<Frame>, head: nat, s': State, fs': seq<Frame>)
    requires LowStep(s, fs, head, s', fs') && Vertices(g, s, fs) && Shape(s, fs) && Heads(s, fs) && Numbers(g, s)
    requires s.data[fs[|fs| - 1].vertex].dfn != Finite(0)
    ensures Vertices(g, s', fs') && Heads(s', fs')
  {
    var n := |fs| - 1;
    StackDistinct(g, s);
    forall k | 1 <= k < n && !fs[k].open ensures fs[k].vertex != fs[n].vertex {
      BasesGrow(s, fs, k, n);
    }
  }

  lemma {:induction false} LowKeepsBelow(
    g: Cfg, s: State, fs: seq<Frame>, head: nat, s': State, fs': seq<Frame>, h: nat)
    requires LowStep(s, fs, head, s', fs') && Numbers(g, s) && h <= fs[|fs| - 1].base < |s.stack|
    requires s.stack[fs[|fs| - 1].base] == fs[|fs| - 1].vertex
    ensures KeepsBelow(s, s', h)
  {
    StackDistinct(g, s);
  }

  /** The situation of the vertex once its frame is gone: it lies in the segment of frame `n - 1`. */
  ghost predicate Merged(g: Cfg, s: State, fs: seq<Frame>, n: nat, head: nat, s': State, fs': seq<Frame>) {
    && |fs| == n + 1 && n >= 2 && !fs[n - 1].open
    && LowStep(s, fs, head, s', fs')
    && InSegment(s', fs', n - 1, fs[n].base) && Hi(s', fs', n - 1) == |s.stack|
    && s.stack[fs[n].base] == fs[n].vertex
    && 0 < head < Dn(s, fs[n].vertex)
    && s.stack[fs[n - 1].base] == fs[n - 1].vertex && g.Edge(fs[n - 1].vertex, fs[n].vertex)
  }

  /** The vertex itself becomes a finished position of the frame below. */
  lemma {:induction false} LowVertexFinished(
    g: Cfg, s: State, fs: seq<Frame>, n: nat, head: nat, s': State, fs': seq<Frame>)
    requires Merged(g, s, fs, n, head, s', fs')
    requires Scanned(g, s, fs, head, true)
    ensures Finished(g, s', fs', n - 1, fs[n].base)
  {
    hide LeadsTo, LowLink;
    var p := fs[n].base;
    var v := fs[n].vertex;
    var j: nat :| LeadsTo(g, s, fs, head, j);
    LowLinkNew(g, s, fs, n, head, s', fs', j);
    assert TreeEdge(g, s', fs', n - 1, p, fs[n - 1].base);
    forall x | g.Edge(v, x) ensures IsInf(s', x) || SeenAbove(s', x, |s.stack|, head) {
      assert ScannedChild(s, head, true, v, x);
      if !IsInf(s, x) {
        var q :| 0 <= q < |s.stack| && s.stack[q] == x;
        assert s'.stack[q] == x;
      }
    }
  }

  lemma {:induction false} LowLinkNew(
    g: Cfg, s: State, fs: seq<Frame>, n: nat, head: nat, s': State, fs': seq<Frame>, j: nat)
    requires Merged(g, s, fs, n, head, s', fs')
    requires LeadsTo(g, s, fs, head, j)
    ensures LowLink(g, s', fs', n - 1, fs[n].base, j)
  {
    hide Connected;
    assert Agree(fs, fs', n);
    AgreeAt(fs, fs', n, n - 1);
    assert s.stack[j..] == s'.stack[j..Hi(s', fs', n - 1)];
    assert j != fs[n].base;
  }

  /** A position above the vertex moves from its segment to that of the frame below. */
  lemma {:induction false} LowAboveFinished(
    g: Cfg, s: State, fs: seq<Frame>, n: nat, head: nat, s': State, fs': seq<Frame>, i: nat)
    requires Merged(g, s, fs, n, head, s', fs') && fs[n].base < i < |s.stack| && fs[n - 1].base < fs[n].base
    requires Finished(g, s, fs, n, i) && s.stack[i] != fs[n].vertex && head <= Hd(s, s.stack[i])
    ensures InSegment(s', fs', n - 1, i) && Finished(g, s', fs', n - 1, i)
  {
    hide Connected;
    assert Agree(fs, fs', n);
    AgreeAt(fs, fs', n, n - 1);
    assert Hi(s, fs, n) == |s.stack|;
    var j: nat :| LowLink(g, s, fs, n, i, j);
    assert LowLink(g, s', fs', n - 1, i, j);
    var t: nat :| TreeEdge(g, s, fs, n, i, t);
    assert TreeEdge(g, s', fs', n - 1, i, t);
    forall x | g.Edge(s.stack[i], x) ensures IsInf(s', x) || SeenAbove(s', x, |s.stack|, Hd(s, s.stack[i])) {
      if !IsInf(s, x) {
        assert SeenAbove(s, x, |s.stack|, Hd(s, s.stack[i]));
        var q :| 0 <= q < |s.stack| && s.stack[q] == x;
        assert s'.stack[q] == x;
      }
    }
  }

  lemma {:induction false} LowFinished(g: Cfg, s: State, fs: seq<Frame>, head: nat, s': State, fs': seq<Frame>)
    requires LowStep(s, fs, head, s', fs') && |fs| >= 3 && !fs[|fs| - 2].open
    requires 0 < head < Dn(s, fs[|fs| - 1].vertex)
    requires Agree(fs, fs', |fs'|)
    requires forall k: nat :: k < |fs| - 2 ==> Hi(s', fs', k) == Hi(s, fs, k)
    requires Hi(s', fs', |fs| - 2) == |s.stack|
    requires Shape(s, fs) && Vertices(g, s, fs) && Links(g, fs)
    requires Numbers(g, s) && AllFinished(g, s, fs) && Scanned(g, s, fs, head, true)
    ensures AllFinished(g, s', fs')
  {
    hide Numbers, Finished, Scanned, AllFinished, Shape, Links;
    var n := |fs| - 1;
    var p := fs[n].base;
    ShapeAt(s, fs, n - 1);
    LinkedAt(g, fs, n);
    forall k: nat, i: nat | InSegment(s', fs', k, i) ensures Finished(g, s', fs', k, i) {
      if k < n - 1 {
        HiBound(s, fs, k);
        BasesBelow(s, fs, k + 1, n);
        LowKeepsBelow(g, s, fs, head, s', fs', Hi(s, fs, k));
        FinishedAt(g, s, fs, k, i);
        FinishedKept(g, s, fs, s', fs', k, i);
      } else if i < p {
        LowKeepsBelow(g, s, fs, head, s', fs', p);
        FinishedAt(g, s, fs, k, i);
        FinishedKept(g, s, fs, s', fs', k, i);
      } else if i == p {
        LowVertexFinished(g, s, fs, n, head, s', fs');
      } else {
        assert InSegment(s, fs, n, i);
        NotInfOnStack(g, s);
        SegmentLow(g, s, fs, head, true, i);
        PositionsOrdered(g, s, p, i);
        FinishedAt(g, s, fs, n, i);
        assert InSegment(s', fs', n - 1, p);
        LowAboveFinished(g, s, fs, n, head, s', fs', i);
      }
    }
    AllFinishedIntro(g, s', fs');
  }

  lemma {:induction false} NotInfOnStack(g: Cfg, s: State)
    requires Numbers(g, s)
    ensures forall q :: 0 <= q < |s.stack| ==> !IsInf(s, s.stack[q])
  {
  }

  lemma {:induction false} ShapeAt(s: State, fs: seq<Frame>, k: nat)
    requires Shape(s, fs) && k < |fs|
    ensures Fits(s, fs, k)
  {
  }

  lemma {:induction false} LinkedAt(g: Cfg, fs: seq<Frame>, k: nat)
    requires Links(g, fs) && 1 <= k < |fs|
    ensures Linked(g, fs, k)
  {
  }

  lemma {:induction false} BasesBelow(s: State, fs: seq<Frame>, i: nat, j: nat)
    requires Shape(s, fs) && i <= j < |fs|
    ensures fs[i].base <= fs[j].base
  {
    if i < j {
      BasesGrow(s, fs, i, j);
    }
  }

  lemma {:induction false} FinishedAt(g: Cfg, s: State, fs: seq<Frame>, k: nat, i: nat)
    requires AllFinished(g, s, fs) && InSegment(s, fs, k, i)
    ensures Finished(g, s, fs, k, i)
  {
    hide Finished;
  }

  lemma {:induction false} AllFinishedIntro(g: Cfg, s: State, fs: seq<Frame>)
    requires forall k: nat, i: nat {:trigger Finished(g, s, fs, k, i)} ::
               InSegment(s, fs, k, i) ==> Finished(g, s, fs, k, i)
    ensures AllFinished(g, s, fs)
  {
    hide Finished;
  }

  lemma {:induction false} LowDropped(s: State, fs: seq<Frame>, head: nat, s': State, fs': seq<Frame>)
    requires LowStep(s, fs, head, s', fs')
    ensures Dropped(s, fs, s', fs')
    ensures forall l :: IsInf(s', l) <==> IsInf(s, l)
    ensures forall l :: IsZero(s', l) <==> IsZero(s, l)
  {
  }

  lemma {:induction false} LowPartitions(g: Cfg, s: State, fs: seq<Frame>, head: nat, s': State, fs': seq<Frame>)
    requires LowStep(s, fs, head, s', fs') && Partitions(g, s, fs) && Levels(g, s, fs)
    ensures Partitions(g, s', fs')
  {
    hide Partition, OpenPartition;
    DropStacked(g, s, fs, fs');
    ClosedDone(fs, s.partitions);
    LowDropped(s, fs, head, s', fs');
    forall k: nat | k < |fs'| ensures Partition(g, s', fs', k) {
      assert Partition(g, s, fs', k);
      SamePartition(g, s, s', fs', k);
    }
    forall k: nat | 1 <= k < |fs'| && fs'[k].open ensures OpenPartition(s', fs', k) {
      assert OpenPartition(s, fs', k);
      SamePartition(g, s, s', fs', k);
    }
  }

  lemma {:induction false} SamePartition(g: Cfg, s: State, s': State, fs: seq<Frame>, k: nat)
    requires s'.partitions == s.partitions && k < |fs| && forall l :: IsInf(s, l) ==> IsInf(s', l)
    ensures Partition(g, s, fs, k) ==> Partition(g, s', fs, k)
    ensures k >= 1 && OpenPartition(s, fs, k) ==> OpenPartition(s', fs, k)
  {
  }

  lemma {:induction false} LowCore(g: Cfg, s: State, fs: seq<Frame>, head: nat, s': State, fs': seq<Frame>)
    requires LowStep(s, fs, head, s', fs') && 0 < head < Dn(s, fs[|fs| - 1].vertex)
    requires Visiting(g, s, fs) && Scanned(g, s, fs, head, true)
    ensures Core(g, s', fs') && Covered(g, s', fs')
  {
    hide Shape, Numbers, Vertices, Heads, AllFinished, Levels, Partitions, Links, OnlyReachable, Covered, LeadsTo,
      LowStep;
    VertexNumber(g, s, fs);
    var j: nat :| LeadsTo(g, s, fs, head, j);
    BelowIsClosed(g, s, fs, head, j);
    LowNumbers(g, s, fs, head, s', fs');
    LowShape(s, fs, head, s', fs');
    LowVertices(g, s, fs, head, s', fs');
    LowFinished(g, s, fs, head, s', fs');
    LowDropped(s, fs, head, s', fs');
    DropLevels(g, s, fs, s', fs');
    DropLinks(g, s, fs, s', fs');
    DropCovered(g, s, fs, s', fs');
    LowPartitions(g, s, fs, head, s', fs');
    LowReachable(g, s, fs, head, s', fs');
  }

  lemma {:induction false} LowReachable(g: Cfg, s: State, fs: seq<Frame>, head: nat, s': State, fs': seq<Frame>)
    requires LowStep(s, fs, head, s', fs') && OnlyReachable(g, s)
    ensures OnlyReachable(g, s')
  {
  }
}
