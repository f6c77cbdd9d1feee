/** start_visit when the vertex forms a component alone (src/cfg/wto.cpp:138-143, 168-175). */
module WtoSingle {
  import opened ControlFlow
  import opened WtoTree
  import opened WtoSteps
  import opened WtoInvariant
  import opened WtoFrames
  import opened WtoScan
  import opened WtoPlace
  import opened WtoDrop
  import opened WtoStart

  /** Without a loop nothing lies above the vertex, so the popped label is the vertex itself. */
  lemma {:induction false} NothingAbove(g: Cfg, s: State, fs: seq<Frame>, head: nat)
    requires |fs| >= 2 && !fs[|fs| - 1].open
    requires fs[|fs| - 1].base < |s.stack| && s.stack[fs[|fs| - 1].base] == fs[|fs| - 1].vertex
    requires AllFinished(g, s, fs) && Scanned(g, s, fs, head, false) && Numbers(g, s)
    ensures |s.stack| == fs[|fs| - 1].base + 1
  {
    hide Numbers;
    var n := |fs| - 1;
    var p := fs[n].base;
    if p + 1 < |s.stack| {
      var i := p + 1;
      assert InSegment(s, fs, n, i);
      assert Finished(g, s, fs, n, i);
      var t: nat :| TreeEdge(g, s, fs, n, i, t);
      var j: nat :| LowLink(g, s, fs, n, i, j);
      assert ScannedChild(s, head, false, fs[n].vertex, s.stack[i]);
      NumbersAt(g, s, i);
      PositionsOrdered(g, s, p, j);
    }
  }

  lemma {:induction false} ChildrenDone(g: Cfg, s: State, fs: seq<Frame>, head: nat, x: Label)
    requires |fs| >= 2 && |s.stack| == fs[|fs| - 1].base + 1 && s.stack[fs[|fs| - 1].base] == fs[|fs| - 1].vertex
    requires Scanned(g, s, fs, head, false) && Numbers(g, s) && g.Edge(fs[|fs| - 1].vertex, x)
    ensures IsInf(s, x)
  {
    hide Numbers;
    var v := fs[|fs| - 1].vertex;
    assert ScannedChild(s, head, false, v, x);
    if !IsInf(s, x) {
      var q :| 0 <= q < |s.stack| && s.stack[q] == x;
      PositionsOrdered(g, s, fs[|fs| - 1].base, q);
    }
  }

  ghost predicate SingleStep(s: State, fs: seq<Frame>, head: nat, s': State, fs': seq<Frame>) {
    && |fs| >= 2 && fs' == fs[..|fs| - 1] && s.stack != []
    && PidAt(fs, |fs| - 1) in s.partitions
    && var v := fs[|fs| - 1].vertex;
    var id := PidAt(fs, |fs| - 1);
    && v in s.data
    && s'.data == s.data[v := VertexData(Infinity, head)]
    && s'.num == s.num
    && s'.stack == s.stack[..|s.stack| - 1]
    && s'.partitions == s.partitions[id := s.partitions[id] + [Vertex(v)]]
  }

  lemma {:induction false} SingleDropped(s: State, fs: seq<Frame>, head: nat, s': State, fs': seq<Frame>)
    requires SingleStep(s, fs, head, s', fs')
    ensures Dropped(s, fs, s', fs')
    ensures forall l :: IsInf(s', l) <==> IsInf(s, l) || l == fs[|fs| - 1].vertex
    ensures forall l :: IsZero(s', l) ==> IsZero(s, l)
  {
  }

  lemma {:induction false} SingleNumbers(g: Cfg, s: State, fs: seq<Frame>, head: nat, s': State, fs': seq<Frame>)
    requires SingleStep(s, fs, head, s', fs') && Numbers(g, s)
    requires |s.stack| == fs[|fs| - 1].base + 1 && s.stack[fs[|fs| - 1].base] == fs[|fs| - 1].vertex
    ensures Numbers(g, s')
    ensures forall j :: 0 <= j < |s'.stack| ==> s.stack[j] in s.data && s'.data[s.stack[j]] == s.data[s.stack[j]]
  {
    hide Numbers;
    StackDistinct(g, s);
    forall j | 0 <= j < |s'.stack| ensures s.stack[j] in s.data && s'.data[s.stack[j]] == s.data[s.stack[j]] {
      NumbersAt(g, s, j);
    }
    SingleTruncated(g, s, fs, head, s', fs');
    TruncatedNumbers(g, s, s', |s.stack| - 1);
  }

  lemma {:induction false} SingleTruncated(g: Cfg, s: State, fs: seq<Frame>, head: nat, s': State, fs': seq<Frame>)
    requires SingleStep(s, fs, head, s', fs')
    requires |s.stack| == fs[|fs| - 1].base + 1 && s.stack[fs[|fs| - 1].base] == fs[|fs| - 1].vertex
    requires forall i, j :: 0 <= i < |s.stack| && 0 <= j < |s.stack| && s.stack[i] == s.stack[j] ==> i == j
    ensures Truncated(s, s', |s.stack| - 1)
  {
  }

  lemma {:induction false} SingleVertices(g: Cfg, s: State, fs: seq<Frame>, head: nat, s': State, fs': seq<Frame>)
    requires SingleStep(s, fs, head, s', fs') && Shape(s, fs) && Vertices(g, s, fs) && Heads(s, fs)
    requires |s.stack| == fs[|fs| - 1].base + 1
    requires forall j :: 0 <= j < |s'.stack| ==> s.stack[j] in s.data && s'.data[s.stack[j]] == s.data[s.stack[j]]
    ensures Vertices(g, s', fs') && Heads(s', fs')
  {
    var n := |fs| - 1;
    forall k | 1 <= k < n && !fs[k].open ensures fs[k].base < fs[n].base {
      BasesGrow(s, fs, k, n);
    }
  }

  lemma {:induction false} SinglePlaceable(g: Cfg, v: Label, done: set<Label>)
    requires v in g.children && v !in done && forall x :: g.Edge(v, x) ==> x in done
    ensures Placeable(g, done, Vertex(v)) && MembersOf(Vertex(v)) == {v}
  {
    assert OrderOf(Vertex(v)) == [v];
    assert forall x :: x in g.children[v] ==> g.Edge(v, x);
  }

  lemma {:induction false} SinglePartitions(g: Cfg, s: State, fs: seq<Frame>, head: nat, s': State, fs': seq<Frame>)
    requires SingleStep(s, fs, head, s', fs') && !fs[|fs| - 1].open
    requires fs[|fs| - 1].vertex in g.children && !IsInf(s, fs[|fs| - 1].vertex)
    requires forall x :: g.Edge(fs[|fs| - 1].vertex, x) ==> IsInf(s, x)
    requires Shape(s, fs) && Vertices(g, s, fs) && Levels(g, s, fs) && Partitions(g, s, fs)
    ensures Partitions(g, s', fs')
  {
    hide Shape, Vertices, Levels, Partition, OpenPartition, Stacked, Placeable, OrderedComponent, OrderOf;
    var v := fs[|fs| - 1].vertex;
    DropStacked(g, s, fs, fs');
    ClosedDone(fs, s.partitions);
    SingleDropped(s, fs, head, s', fs');
    var done := Done(fs', s.partitions, |fs'| - 1);
    forall x | g.Edge(v, x) ensures x in done {
      assert IsInf(s, x);
    }
    SinglePlaceable(g, v, done);
    forall k | 1 <= k < |fs'| && fs'[k].open ensures MembersOf(Vertex(v)) <= Range(fs'[k].comp) {
      LastInComps(g, s, fs, k);
    }
    AppendedSingle(g, s, fs, head, s', fs');
    Place(g, s, fs', Vertex(v), s');
  }

  lemma {:induction false} AppendedSingle(g: Cfg, s: State, fs: seq<Frame>, head: nat, s': State, fs': seq<Frame>)
    requires SingleStep(s, fs, head, s', fs') && !fs[|fs| - 1].open && Stacked(g, s, fs')
    ensures Appended(s, fs', Vertex(fs[|fs| - 1].vertex), s')
  {
    AgreeAt(fs, fs', |fs'|, |fs'| - 1);
    forall k: nat | k < |fs'| ensures PidAt(fs', k) in s.partitions {
      assert Partition(g, s, fs', k);
    }
  }

  lemma {:induction false} SingleReachable(g: Cfg, s: State, fs: seq<Frame>, head: nat, s': State, fs': seq<Frame>)
    requires SingleStep(s, fs, head, s', fs') && OnlyReachable(g, s) && !IsZero(s, fs[|fs| - 1].vertex)
    ensures OnlyReachable(g, s')
  {
  }

  lemma {:induction false} SingleCore(g: Cfg, s: State, fs: seq<Frame>, head: nat, s': State, fs': seq<Frame>)
    requires SingleStep(s, fs, head, s', fs')
    requires Visiting(g, s, fs) && Scanned(g, s, fs, head, false)
    ensures Core(g, s', fs') && Covered(g, s', fs')
  {
    hide Shape, Numbers, Vertices, Heads, AllFinished, Levels, Partitions, Links, OnlyReachable, Covered, Scanned,
      SingleStep;
    VertexNumber(g, s, fs);
    NothingAbove(g, s, fs, head);
    SingleDropped(s, fs, head, s', fs');
    SingleStack(s, fs, head, s', fs');
    SingleNumbers(g, s, fs, head, s', fs');
    SingleVertices(g, s, fs, head, s', fs');
    DropShape(s, fs, s', fs');
    DropFinished(g, s, fs, s', fs');
    DropLevels(g, s, fs, s', fs');
    DropLinks(g, s, fs, s', fs');
    DropCovered(g, s, fs, s', fs');
    forall x | g.Edge(fs[|fs| - 1].vertex, x) ensures IsInf(s, x) {
      ChildrenDone(g, s, fs, head, x);
    }
    SinglePartitions(g, s, fs, head, s', fs');
    SingleReachable(g, s, fs, head, s', fs');
  }

  lemma {:induction false} SingleStack(s: State, fs: seq<Frame>, head: nat, s': State, fs': seq<Frame>)
    requires SingleStep(s, fs, head, s', fs')
    ensures |s'.stack| == |s.stack| - 1
  {
  }
}
