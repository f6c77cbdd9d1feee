/** start_visit when the vertex heads a cycle: the cycle's other members are forgotten so that
    they can be visited again inside it (src/cfg/wto.cpp:144-167). */
module WtoLoop {
  import opened ControlFlow
  import opened WtoTree
  import opened WtoSteps
  import opened WtoInvariant
  import opened WtoFrames
  import opened WtoScan
  import opened WtoPlace
  import opened WtoDrop
  import opened WtoStart

  ghost predicate LoopStep(g: Cfg, s: State, fs: seq<Frame>, s': State, fs': seq<Frame>) {
    && |fs| >= 2
    && var n := |fs| - 1;
    var v := fs[n].vertex;
    var p := fs[n].base;
    && !fs[n].open && p < |s.stack| && s.stack[p] == v && v in s.data
    && s'.data.Keys == s.data.Keys
    && IsInf(s', v)
    && (forall l :: l in s.data && l != v ==> s'.data[l] == if l in s.stack[p + 1..] then Unvisited else s.data[l])
    && s'.num == s.num
    && s'.stack == s.stack[..p]
    && s'.partitions == s.partitions[CycleOf(v) := []]
    && |fs'| == |fs| && (forall k :: 0 <= k < n ==> fs'[k] == fs[k])
    && fs'[n].open && fs'[n].vertex == v && fs'[n].base == p && fs'[n].comp == s.stack[p..]
    && (forall x :: x in fs'[n].pending <==> g.Edge(v, x) && IsZero(s', x))
  }

  /** The scan of a cycle's head, at the number of the head itself. */
  ghost predicate HeadsCycle(g: Cfg, s: State, fs: seq<Frame>, head: nat) {
    && |fs| >= 2
    && var f := fs[|fs| - 1];
    && !f.open && f.base < |s.stack| && s.stack[f.base] == f.vertex
    && head == Dn(s, f.vertex)
    && Scanned(g, s, fs, head, true) && AllFinished(g, s, fs) && Numbers(g, s)
  }

  ghost predicate LowAt(g: Cfg, s: State, fs: seq<Frame>, head: nat, i: nat) {
    |fs| >= 2 && InSegment(s, fs, |fs| - 1, i) && Finished(g, s, fs, |fs| - 1, i) && head <= Hd(s, s.stack[i])
  }

  lemma {:induction false} HeadsCycleLow(g: Cfg, s: State, fs: seq<Frame>, head: nat, i: nat)
    requires |fs| >= 2 && InSegment(s, fs, |fs| - 1, i)
    requires HeadsCycle(g, s, fs, head)
    ensures LowAt(g, s, fs, head, i)
  {
    hide Finished, Numbers, Scanned;
    NotInfOnStack(g, s);
    SegmentLow(g, s, fs, head, true, i);
    FinishedAt(g, s, fs, |fs| - 1, i);
  }

  lemma {:induction false} InSuffix(stack: seq<Label>, p: nat, i: nat)
    requires p <= i < |stack|
    ensures stack[i] in Range(stack[p..])
  {
    assert stack[p..][i - p] == stack[i];
  }

  lemma {:induction false} SuffixMono(stack: seq<Label>, p: nat, j: nat, h: nat)
    requires p <= j <= h <= |stack|
    ensures Range(stack[j..h]) <= Range(stack[p..])
  {
    forall l | l in stack[j..h] ensures l in stack[p..] {
      var q :| 0 <= q < h - j && stack[j..h][q] == l;
      assert stack[p..][j - p + q] == l;
    }
  }

  lemma {:induction false} HeadCloses(g: Cfg, s: State, fs: seq<Frame>, head: nat)
    requires HeadsCycle(g, s, fs, head)
    ensures var p := fs[|fs| - 1].base; Connected(g, Range(s.stack[p..]), s.stack[p], s.stack[p])
  {
    hide Numbers, Connected, AllFinished;
    var j: nat :| LeadsTo(g, s, fs, head, j);
    PositionsOrdered(g, s, j, fs[|fs| - 1].base);
  }

  /** Every member reaches the head inside the cycle. */
  lemma {:induction false} ReachesHead(g: Cfg, s: State, fs: seq<Frame>, head: nat, i: nat)
    requires HeadsCycle(g, s, fs, head) && fs[|fs| - 1].base <= i < |s.stack|
    ensures var p := fs[|fs| - 1].base; Connected(g, Range(s.stack[p..]), s.stack[i], s.stack[p])
    decreases i
  {
    var n := |fs| - 1;
    var p := fs[n].base;
    if i == p {
      HeadCloses(g, s, fs, head);
    } else {
      hide Connected, Numbers, HeadsCycle;
      HeadsCycleLow(g, s, fs, head, i);
      var j: nat :| LowLink(g, s, fs, n, i, j);
      HeadsCycleOrder(g, s, fs, head, j);
      SuffixMono(s.stack, p, j, Hi(s, fs, n));
      ConnectedMono(g, Range(s.stack[j..Hi(s, fs, n)]), Range(s.stack[p..]), s.stack[i], s.stack[j]);
      if j != p {
        ReachesHead(g, s, fs, head, j);
        ConnectedTrans(g, Range(s.stack[p..]), s.stack[i], s.stack[j], s.stack[p]);
      }
    }
  }

  lemma {:induction false} HeadsCycleOrder(g: Cfg, s: State, fs: seq<Frame>, head: nat, j: nat)
    requires HeadsCycle(g, s, fs, head) && j < |s.stack|
    ensures head <= Dn(s, s.stack[j]) <==> fs[|fs| - 1].base <= j
  {
    hide Numbers, AllFinished, Scanned;
    PositionsOrdered(g, s, j, fs[|fs| - 1].base);
  }

  /** The head reaches every member inside the cycle. */
  lemma {:induction false} ReachedFromHead(g: Cfg, s: State, fs: seq<Frame>, head: nat, i: nat)
    requires HeadsCycle(g, s, fs, head) && fs[|fs| - 1].base <= i < |s.stack|
    ensures var p := fs[|fs| - 1].base; Connected(g, Range(s.stack[p..]), s.stack[p], s.stack[i])
    decreases i
  {
    var n := |fs| - 1;
    var p := fs[n].base;
    if i == p {
      HeadCloses(g, s, fs, head);
    } else {
      hide Connected, Numbers, HeadsCycle, LowLink;
      HeadsCycleLow(g, s, fs, head, i);
      var t: nat :| TreeEdge(g, s, fs, n, i, t);
      EdgeInStack(g, s.stack, t, i, p);
      if t != p {
        ReachedFromHead(g, s, fs, head, t);
        ConnectedTrans(g, Range(s.stack[p..]), s.stack[p], s.stack[t], s.stack[i]);
      }
    }
  }

  lemma {:induction false} MemberEdge(g: Cfg, s: State, fs: seq<Frame>, head: nat, i: nat) returns (t: nat)
    requires |fs| >= 2 && InSegment(s, fs, |fs| - 1, i)
    requires HeadsCycle(g, s, fs, head)
    ensures fs[|fs| - 1].base <= t < i && g.Edge(s.stack[t], s.stack[i])
  {
    hide HeadsCycle, LowLink, SeenAbove;
    HeadsCycleLow(g, s, fs, head, i);
    t :| TreeEdge(g, s, fs, |fs| - 1, i, t);
  }

  lemma {:induction false} CycleTree(g: Cfg, s: State, fs: seq<Frame>, head: nat)
    requires |fs| >= 2 && !fs[|fs| - 1].open && fs[|fs| - 1].base < |s.stack|
    requires HeadsCycle(g, s, fs, head)
    ensures CompTree(g, s.stack[fs[|fs| - 1].base..])
  {
    hide HeadsCycle, Connected;
    var p := fs[|fs| - 1].base;
    var comp := s.stack[p..];
    forall i | 0 <= i < |comp|
      ensures Connected(g, Range(comp), comp[i], comp[0]) && Connected(g, Range(comp), comp[0], comp[i])
    {
      ReachesHead(g, s, fs, head, p + i);
      ReachedFromHead(g, s, fs, head, p + i);
    }
    forall i: nat | 1 <= i < |comp| ensures FollowsEarlier(g, comp, i) {
      var t := MemberEdge(g, s, fs, head, p + i);
      assert g.Edge(comp[t - p], comp[i]);
    }
  }

  /** Edges leaving a member stay in the cycle or reach labels finished for good. */
  lemma {:induction false} CycleClosed(g: Cfg, s: State, fs: seq<Frame>, head: nat, i: nat, x: Label)
    requires HeadsCycle(g, s, fs, head) && fs[|fs| - 1].base <= i < |s.stack| && g.Edge(s.stack[i], x)
    ensures x in s.stack[fs[|fs| - 1].base..] || IsInf(s, x)
  {
    var n := |fs| - 1;
    var p := fs[n].base;
    if !IsInf(s, x) {
      if i == p {
        assert ScannedChild(s, head, true, fs[n].vertex, x);
      } else {
        HeadsCycleLow(g, s, fs, head, i);
        assert SeenAbove(s, x, Hi(s, fs, n), Hd(s, s.stack[i]));
      }
      var q :| 0 <= q < |s.stack| && s.stack[q] == x;
      HeadsCycleOrder(g, s, fs, head, q);
      InSuffix(s.stack, p, q);
    }
  }

  // ----- the state after the step -----

  lemma {:induction false} LoopData(g: Cfg, s: State, fs: seq<Frame>, s': State, fs': seq<Frame>)
    requires LoopStep(g, s, fs, s', fs') && Numbers(g, s)
    ensures Truncated(s, s', fs[|fs| - 1].base)
    ensures forall l :: IsInf(s', l) <==> IsInf(s, l) || l == fs[|fs| - 1].vertex
    ensures forall l :: IsZero(s', l) ==> IsZero(s, l) || l in fs'[|fs| - 1].comp
  {
    hide Numbers;
    var p := fs[|fs| - 1].base;
    StackDistinct(g, s);
    NumbersAt(g, s, p);
    SuffixElements(g, s, p);
    assert forall l :: l in s.stack[p + 1..] ==> l in s.stack[p..];
  }

  lemma {:induction false} SuffixElements(g: Cfg, s: State, p: nat)
    requires Numbers(g, s) && p < |s.stack|
    ensures forall j :: 0 <= j <= p ==> s.stack[j] !in s.stack[p + 1..]
    ensures forall j :: p < j < |s.stack| ==> s.stack[j] in s.stack[p + 1..]
    ensures forall l :: l in s.stack[p + 1..] ==> !IsInf(s, l)
  {
    hide Numbers;
    StackDistinct(g, s);
    NotInfOnStack(g, s);
    forall j | p < j < |s.stack| ensures s.stack[j] in s.stack[p + 1..] {
      assert s.stack[p + 1..][j - p - 1] == s.stack[j];
    }
  }

  lemma {:induction false} LoopShape(g: Cfg, s: State, fs: seq<Frame>, s': State, fs': seq<Frame>)
    requires LoopStep(g, s, fs, s', fs') && Shape(s, fs)
    ensures Shape(s', fs') && Agree(fs, fs', |fs| - 1)
    ensures forall k: nat :: k < |fs| - 1 ==> Hi(s', fs', k) == Hi(s, fs, k) <= |s'.stack|
  {
    var n := |fs| - 1;
    forall k: nat | k < n ensures Hi(s', fs', k) == Hi(s, fs, k) <= |s'.stack| {
      BasesBelow(s, fs, k + 1, n);
    }
    forall k: nat | k < |fs'| ensures Fits(s', fs', k) {
      assert Fits(s, fs, k);
    }
  }

  lemma {:induction false} LoopVertices(g: Cfg, s: State, fs: seq<Frame>, s': State, fs': seq<Frame>)
    requires LoopStep(g, s, fs, s', fs') && Shape(s, fs) && Vertices(g, s, fs) && Heads(s, fs)
    requires Truncated(s, s', fs[|fs| - 1].base)
    ensures Vertices(g, s', fs') && Heads(s', fs')
  {
    var n := |fs| - 1;
    forall k | 1 <= k < n && !fs[k].open ensures fs[k].base < fs[n].base {
      BasesGrow(s, fs, k, n);
    }
    forall k | 1 <= k < |fs'| && !fs'[k].open
      ensures fs'[k].base < |s'.stack| && s'.stack[fs'[k].base] == fs'[k].vertex
              && fs'[k].vertex in s'.data && s'.data[fs'[k].vertex].headDfn == 0
    {
      assert s'.data[s.stack[fs[k].base]] == s.data[s.stack[fs[k].base]];
    }
  }

  lemma {:induction false} LoopFinished(g: Cfg, s: State, fs: seq<Frame>, s': State, fs': seq<Frame>)
    requires LoopStep(g, s, fs, s', fs') && Shape(s, fs) && AllFinished(g, s, fs)
    requires Truncated(s, s', fs[|fs| - 1].base) && Agree(fs, fs', |fs| - 1)
    requires forall k: nat :: k < |fs| - 1 ==> Hi(s', fs', k) == Hi(s, fs, k) <= |s'.stack|
    requires forall l :: IsInf(s, l) ==> IsInf(s', l)
    requires forall j :: 0 <= j < |s.stack| ==> s.stack[j] in s.data
    ensures AllFinished(g, s', fs')
  {
    hide Finished, Shape;
    forall k: nat, i: nat | InSegment(s', fs', k, i) ensures Finished(g, s', fs', k, i) {
      HiBound(s, fs, k);
      assert InSegment(s, fs, k, i);
      assert Finished(g, s, fs, k, i);
      assert KeepsBelow(s, s', Hi(s, fs, k));
      FinishedKept(g, s, fs, s', fs', k, i);
    }
  }

  lemma {:induction false} LoopNewLevel(g: Cfg, s: State, fs: seq<Frame>, s': State, fs': seq<Frame>, head: nat)
    requires LoopStep(g, s, fs, s', fs') && HeadsCycle(g, s, fs, head)
    requires forall l :: IsInf(s, l) ==> IsInf(s', l)
    ensures Level(g, s', fs', |fs| - 1)
  {
    hide CompTree, Scanned, AllFinished;
    var n := |fs| - 1;
    var p := fs[n].base;
    CycleTree(g, s, fs, head);
    LoopStackLeft(g, s, fs, s', fs', head);
    hide Numbers;
    forall u, x | u in fs'[n].comp && g.Edge(u, x) ensures x in fs'[n].comp || IsInf(s', x) {
      var i :| 0 <= i < |fs'[n].comp| && fs'[n].comp[i] == u;
      CycleClosed(g, s, fs, head, p + i, x);
    }
  }

  /** The members of the new cycle are no longer on the stack. */
  lemma {:induction false} LoopStackLeft(g: Cfg, s: State, fs: seq<Frame>, s': State, fs': seq<Frame>, head: nat)
    requires LoopStep(g, s, fs, s', fs') && HeadsCycle(g, s, fs, head)
    ensures forall l :: l in fs'[|fs| - 1].comp ==> l in s'.data
    ensures forall i :: 0 <= i < |s'.stack| ==> s'.stack[i] !in fs'[|fs| - 1].comp
  {
    hide CompTree, Scanned, AllFinished;
    var n := |fs| - 1;
    var p := fs[n].base;
    StackDistinct(g, s);
    forall l | l in fs'[n].comp ensures l in s'.data {
      var i :| 0 <= i < |fs'[n].comp| && fs'[n].comp[i] == l;
      NumbersAt(g, s, p + i);
    }
  }

  lemma {:induction false} LoopLevels(g: Cfg, s: State, fs: seq<Frame>, s': State, fs': seq<Frame>, head: nat)
    requires LoopStep(g, s, fs, s', fs') && HeadsCycle(g, s, fs, head)
    requires forall l :: IsInf(s, l) ==> IsInf(s', l)
    requires Shape(s, fs) && Levels(g, s, fs)
    ensures Levels(g, s', fs')
  {
    hide CompTree, HeadsCycle;
    var n := |fs| - 1;
    LoopNewLevel(g, s, fs, s', fs', head);
    forall k: nat | 1 <= k < |fs'| && fs'[k].open ensures Level(g, s', fs', k) {
      if k < n {
        assert Level(g, s, fs, k);
        BasesGrow(s, fs, k, n);
        forall m | k < m < |fs'| && fs'[m].open ensures Range(fs'[m].comp) <= Range(fs'[k].comp) {
        }
      }
    }
  }

  lemma {:induction false} LoopLinks(g: Cfg, s: State, fs: seq<Frame>, s': State, fs': seq<Frame>)
    requires LoopStep(g, s, fs, s', fs') && Links(g, fs)
    ensures Links(g, fs')
  {
    var n := |fs| - 1;
    forall k: nat | 1 <= k < |fs'| ensures Linked(g, fs', k) {
      assert Linked(g, fs, k);
    }
    forall k: nat, y | k < |fs'| && y in fs'[k].pending ensures Target(g, fs', k, y) {
      assert k < n ==> Target(g, fs, k, y);
    }
  }

  lemma {:induction false} LoopCovered(g: Cfg, s: State, fs: seq<Frame>, s': State, fs': seq<Frame>)
    requires LoopStep(g, s, fs, s', fs') && Covered(g, s, fs)
    requires forall l :: IsZero(s', l) ==> IsZero(s, l) || l in fs'[|fs| - 1].comp
    ensures Covered(g, s', fs')
  {
    var n := |fs| - 1;
    forall k: nat, y | k < |fs'| && Target(g, fs', k, y) && IsZero(s', y)
      ensures y in fs'[k].pending || InOpenAbove(fs', k, y)
    {
      if k < n && y !in fs'[n].comp {
        assert Target(g, fs, k, y);
        if y !in fs[k].pending {
          var m :| k < m < |fs| && fs[m].open && y in fs[m].comp;
          assert fs'[m] == fs[m];
        }
      }
    }
  }

  lemma {:induction false} LoopReachable(g: Cfg, s: State, fs: seq<Frame>, s': State, fs': seq<Frame>)
    requires LoopStep(g, s, fs, s', fs') && OnlyReachable(g, s) && !IsZero(s, fs[|fs| - 1].vertex)
    ensures OnlyReachable(g, s')
  {
  }

  /** The new cycle's partition is not the partition of any frame below it. */
  lemma {:induction false} FreshPid(g: Cfg, s: State, fs: seq<Frame>, k: nat)
    requires |fs| >= 2 && !IsInf(s, fs[|fs| - 1].vertex) && k < |fs| && Partitions(g, s, fs)
    ensures PidAt(fs, k) != CycleOf(fs[|fs| - 1].vertex)
  {
    hide Partition, OpenPartition;
    if PidAt(fs, k).CycleOf? {
      PidInContext(fs, s.partitions, k);
      ContextMono(fs, s.partitions, k, |fs| - 1);
    }
  }

  lemma {:induction false} LoopContext(g: Cfg, s: State, fs: seq<Frame>, s': State, fs': seq<Frame>, k: nat)
    requires LoopStep(g, s, fs, s', fs') && !IsInf(s, fs[|fs| - 1].vertex) && Partitions(g, s, fs) && k < |fs| - 1
    ensures Context(fs', s'.partitions, k) == Context(fs, s.partitions, k)
    ensures Done(fs', s'.partitions, k) == Done(fs, s.partitions, k)
    ensures PidAt(fs', k) == PidAt(fs, k) != CycleOf(fs[|fs| - 1].vertex)
    ensures PidAt(fs, k) in s.partitions && s'.partitions[PidAt(fs, k)] == s.partitions[PidAt(fs, k)]
  {
    hide Partitions, OpenPartition;
    var n := |fs| - 1;
    assert Agree(fs, fs', n);
    AgreeAt(fs, fs', n, k);
    AgreeContext(fs, fs', n, s.partitions, k);
    FreshPid(g, s, fs, k);
    PartitionAt(g, s, fs, k);
    forall m | 1 <= m <= k && fs'[m].open
      ensures PartMembers(s.partitions, PidAt(fs', m - 1)) == PartMembers(s'.partitions, PidAt(fs', m - 1))
    {
      FreshPid(g, s, fs, m - 1);
      AgreeAt(fs, fs', n, m - 1);
    }
    ContextFrame(fs', s.partitions, s'.partitions, k);
  }

  lemma {:induction false} PartitionAt(g: Cfg, s: State, fs: seq<Frame>, k: nat)
    requires Partitions(g, s, fs) && k < |fs|
    ensures Partition(g, s, fs, k)
    ensures k >= 1 && fs[k].open ==> OpenPartition(s, fs, k)
    ensures forall l :: IsInf(s, l) <==> l in Done(fs, s.partitions, |fs| - 1)
  {
    hide Partition, OpenPartition;
    if k >= 1 && fs[k].open {
      assert OpenPartition(s, fs, k);
    }
    assert Partition(g, s, fs, k);
  }

  lemma {:induction false} LoopPartition(g: Cfg, s: State, fs: seq<Frame>, s': State, fs': seq<Frame>, k: nat)
    requires LoopStep(g, s, fs, s', fs') && !IsInf(s, fs[|fs| - 1].vertex) && Partitions(g, s, fs) && k < |fs|
    requires forall l :: IsInf(s, l) ==> IsInf(s', l)
    ensures Partition(g, s', fs', k)
  {
    hide Partitions, OpenPartition;
    if k < |fs| - 1 {
      LoopContext(g, s, fs, s', fs', k);
      PartitionAt(g, s, fs, k);
    }
  }

  lemma {:induction false} LoopOpen(g: Cfg, s: State, fs: seq<Frame>, s': State, fs': seq<Frame>, k: nat)
    requires LoopStep(g, s, fs, s', fs') && !IsInf(s, fs[|fs| - 1].vertex) && Partitions(g, s, fs)
    requires 1 <= k < |fs| && fs'[k].open
    requires forall j :: 0 <= j < |s.stack| ==> !IsInf(s, s.stack[j])
    ensures OpenPartition(s', fs', k)
  {
    hide Partitions, Partition;
    var n := |fs| - 1;
    LoopContext(g, s, fs, s', fs', k - 1);
    PartitionAt(g, s, fs, k);
    if k < n {
      LoopContext(g, s, fs, s', fs', k);
      assert PidAt(fs, k) == CycleOf(fs[k].vertex);
    } else {
      ClosedDone(fs, s.partitions);
      forall l | l in fs'[n].comp ensures !IsInf(s, l) {
        var i :| 0 <= i < |fs'[n].comp| && fs'[n].comp[i] == l;
        assert s.stack[fs[n].base + i] == l;
      }
    }
  }

  lemma {:induction false} LoopPartitions(g: Cfg, s: State, fs: seq<Frame>, s': State, fs': seq<Frame>)
    requires LoopStep(g, s, fs, s', fs') && Partitions(g, s, fs)
    requires forall j :: 0 <= j < |s.stack| ==> !IsInf(s, s.stack[j])
    requires forall l :: IsInf(s', l) <==> IsInf(s, l) || l == fs[|fs| - 1].vertex
    ensures Partitions(g, s', fs')
  {
    hide Partition, OpenPartition;
    var n := |fs| - 1;
    assert !IsInf(s, s.stack[fs[n].base]);
    forall k: nat | k < |fs'| ensures Partition(g, s', fs', k) {
      LoopPartition(g, s, fs, s', fs', k);
    }
    forall k: nat | 1 <= k < |fs'| && fs'[k].open ensures OpenPartition(s', fs', k) {
      LoopOpen(g, s, fs, s', fs', k);
    }
    LoopContext(g, s, fs, s', fs', n - 1);
    ClosedDone(fs, s.partitions);
    assert Members([]) == {};
    assert Done(fs', s'.partitions, n) == Done(fs, s.partitions, n) + {fs[n].vertex};
  }

  lemma {:induction false} LoopCore(g: Cfg, s: State, fs: seq<Frame>, head: nat, s': State, fs': seq<Frame>)
    requires LoopStep(g, s, fs, s', fs') && head == Dn(s, fs[|fs| - 1].vertex)
    requires Visiting(g, s, fs) && Scanned(g, s, fs, head, true)
    ensures Core(g, s', fs') && Covered(g, s', fs')
  {
    hide Shape, Numbers, Vertices, Heads, AllFinished, Levels, Partitions, Links, OnlyReachable, Covered, Scanned,
      LoopStep, Truncated;
    VertexNumber(g, s, fs);
    assert HeadsCycle(g, s, fs, head);
    LoopData(g, s, fs, s', fs');
    TruncatedNumbers(g, s, s', fs[|fs| - 1].base);
    LoopShape(g, s, fs, s', fs');
    LoopVertices(g, s, fs, s', fs');
    NotInfOnStack(g, s);
    StackInData(g, s);
    LoopFinished(g, s, fs, s', fs');
    LoopLevels(g, s, fs, s', fs', head);
    LoopLinks(g, s, fs, s', fs');
    LoopCovered(g, s, fs, s', fs');
    LoopReachable(g, s, fs, s', fs');
    LoopPartitions(g, s, fs, s', fs');
  }

  lemma {:induction false} StackInData(g: Cfg, s: State)
    requires Numbers(g, s)
    ensures forall j :: 0 <= j < |s.stack| ==> s.stack[j] in s.data
  {
  }
}
