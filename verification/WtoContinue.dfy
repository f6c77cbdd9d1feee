/** continue_visit closes a cycle and places it in the surrounding partition
    (src/cfg/wto.cpp:177-191). */
module WtoContinue {
  import opened ControlFlow
  import opened WtoTree
  import opened WtoSteps
  import opened WtoInvariant
  import opened WtoFrames
  import opened WtoScan
  import opened WtoPlace
  import opened WtoDrop
  import opened WtoLoop

  /** The last frame is an open cycle with nothing left to push. */
  ghost predicate Closing(g: Cfg, s: State, fs: seq<Frame>) {
    && |fs| >= 2
    && fs[|fs| - 1].open
    && fs[|fs| - 1].pending == []
    && Core(g, s, fs) && Covered(g, s, fs)
  }

  lemma {:induction false} ClosingFacts(g: Cfg, s: State, fs: seq<Frame>)
    requires Closing(g, s, fs)
    ensures Level(g, s, fs, |fs| - 1) && |s.stack| == fs[|fs| - 1].base
    ensures Partition(g, s, fs, |fs| - 1) && OpenPartition(s, fs, |fs| - 1)
    ensures forall l :: IsInf(s, l) <==> l in Done(fs, s.partitions, |fs| - 1)
    ensures fs[|fs| - 1].vertex in g.children && g.WellFormed() && s.data.Keys == g.children.Keys
    ensures fs[|fs| - 1].open
  {
    hide Level, Partition, OpenPartition, AllFinished, Links, OnlyReachable, Covered;
    var n := |fs| - 1;
    assert Fits(s, fs, n);
    assert Level(g, s, fs, n);
    assert Partition(g, s, fs, n);
    assert OpenPartition(s, fs, n);
  }

  /** A successor of the head has been visited, and since the stack is back at the cycle's base it
      is finished for good. */
  lemma {:induction false} HeadTargetDone(g: Cfg, s: State, fs: seq<Frame>, x: Label)
    requires |fs| >= 2 && x in fs[|fs| - 1].comp && g.Edge(fs[|fs| - 1].vertex, x)
    requires Closing(g, s, fs)
    ensures IsInf(s, x)
  {
    var n := |fs| - 1;
    ClosingFacts(g, s, fs);
    ChildSeen(g, s, fs, x);
    hide CompTree, Core, Partition, OpenPartition;
    assert forall q :: 0 <= q < |s.stack| ==> s.stack[q] !in fs[n].comp;
  }

  lemma {:induction false} PlacedTargetDone(g: Cfg, s: State, fs: seq<Frame>, u: Label, x: Label)
    requires |fs| >= 2 && u in fs[|fs| - 1].comp && u != fs[|fs| - 1].vertex && g.Edge(u, x) && IsInf(s, u)
    requires Closing(g, s, fs)
    ensures IsInf(s, x) && u in PartMembers(s.partitions, CycleOf(fs[|fs| - 1].vertex))
  {
    hide Level, Core, Covered;
    var n := |fs| - 1;
    ClosingFacts(g, s, fs);
    assert u in Range(fs[n].comp);
    assert PidAt(fs, n) == CycleOf(fs[n].vertex);
    assert u in Done(fs, s.partitions, n);
  }

  /** All members of the closing cycle are finished. */
  lemma {:induction false} MembersDone(g: Cfg, s: State, fs: seq<Frame>, i: nat)
    requires |fs| >= 2 && i < |fs[|fs| - 1].comp|
    requires Closing(g, s, fs)
    ensures IsInf(s, fs[|fs| - 1].comp[i])
    decreases i
  {
    hide Core, Covered, Partition, OpenPartition, Closing, Connected;
    var comp := fs[|fs| - 1].comp;
    ClosingFacts(g, s, fs);
    if i > 0 {
      assert FollowsEarlier(g, comp, i);
      var j :| 0 <= j < i && g.Edge(comp[j], comp[i]);
      MembersDone(g, s, fs, j);
      if comp[j] == fs[|fs| - 1].vertex {
        HeadTargetDone(g, s, fs, comp[i]);
      } else {
        PlacedTargetDone(g, s, fs, comp[j], comp[i]);
      }
    }
  }

  /** The cycle that is about to be placed. */
  ghost function Closed(s: State, fs: seq<Frame>): seq<Component>
    requires fs != [] && CycleOf(fs[|fs| - 1].vertex) in s.partitions
  {
    s.partitions[CycleOf(fs[|fs| - 1].vertex)] + [Vertex(fs[|fs| - 1].vertex)]
  }

  lemma {:induction false} ClosedMembers(g: Cfg, s: State, fs: seq<Frame>)
    requires |fs| >= 2
    requires Closing(g, s, fs)
    ensures CycleOf(fs[|fs| - 1].vertex) in s.partitions
    ensures Members(Closed(s, fs)) == Range(fs[|fs| - 1].comp)
    ensures Order(Closed(s, fs)) == [fs[|fs| - 1].vertex] + Order(s.partitions[CycleOf(fs[|fs| - 1].vertex)])
    ensures forall l :: l in fs[|fs| - 1].comp ==> IsInf(s, l)
  {
    hide Core, Covered, CompTree, Closing;
    var n := |fs| - 1;
    var h := fs[n].vertex;
    ClosingFacts(g, s, fs);
    assert PidAt(fs, n) == CycleOf(h);
    OrderSnoc(s.partitions[CycleOf(h)], Vertex(h));
    assert OrderOf(Vertex(h)) == [h];
    forall l | l in fs[n].comp ensures IsInf(s, l) && l in Members(Closed(s, fs)) {
      var i :| 0 <= i < |fs[n].comp| && fs[n].comp[i] == l;
      MembersDone(g, s, fs, i);
      assert l in Range(fs[n].comp);
      assert l in Done(fs, s.partitions, n);
    }
    HeadInComp(g, s, fs);
  }

  lemma {:induction false} HeadInComp(g: Cfg, s: State, fs: seq<Frame>)
    requires |fs| >= 1 && Level(g, s, fs, |fs| - 1)
    ensures fs[|fs| - 1].vertex in fs[|fs| - 1].comp
  {
  }

  lemma {:induction false} ClosedReal(g: Cfg, s: State, fs: seq<Frame>)
    requires |fs| >= 2 && CycleOf(fs[|fs| - 1].vertex) in s.partitions
    requires CompTree(g, fs[|fs| - 1].comp) && Members(Closed(s, fs)) == Range(fs[|fs| - 1].comp)
    requires RealCycles(g, s.partitions[CycleOf(fs[|fs| - 1].vertex)])
    ensures RealComponent(g, Cycle(Closed(s, fs)))
  {
    hide Connected, Members;
    var comp := fs[|fs| - 1].comp;
    var cs := Closed(s, fs);
    forall x, y | x in Members(cs) && y in Members(cs) ensures Connected(g, Members(cs), x, y) {
      var i :| 0 <= i < |comp| && comp[i] == x;
      var j :| 0 <= j < |comp| && comp[j] == y;
      ConnectedTrans(g, Range(comp), comp[i], comp[0], comp[j]);
    }
    assert RealCycles(g, cs);
  }

  lemma {:induction false} ClosedOrdered(g: Cfg, s: State, fs: seq<Frame>)
    requires |fs| >= 2 && CycleOf(fs[|fs| - 1].vertex) in s.partitions
    requires Closing(g, s, fs) && Members(Closed(s, fs)) == Range(fs[|fs| - 1].comp)
    ensures OrderedComponent(g, Cycle(Closed(s, fs)), Done(fs, s.partitions, |fs| - 2))
  {
    hide Core, Covered, CompTree, Closing;
    var n := |fs| - 1;
    var h := fs[n].vertex;
    ClosingFacts(g, s, fs);
    HeadInComp(g, s, fs);
    assert PidAt(fs, n) == CycleOf(h);
    var cs := Closed(s, fs);
    assert cs[..|cs| - 1] == s.partitions[CycleOf(h)];
    OrderSnoc(s.partitions[CycleOf(h)], Vertex(h));
    assert Context(fs, s.partitions, n) == Done(fs, s.partitions, n - 1) + {h};
    forall x | x in g.children[h] ensures x in Done(fs, s.partitions, n - 1) + Members(cs) {
      assert g.Edge(h, x);
      if x !in fs[n].comp {
        assert IsInf(s, x);
        assert x in Done(fs, s.partitions, n);
      } else {
        assert x in Range(fs[n].comp);
      }
    }
  }

  lemma {:induction false} ClosedPlaceable(g: Cfg, s: State, fs: seq<Frame>)
    requires |fs| >= 2 && CycleOf(fs[|fs| - 1].vertex) in s.partitions
    requires Closing(g, s, fs)
    ensures Placeable(g, Done(fs, s.partitions, |fs| - 2), Cycle(Closed(s, fs)))
  {
    hide Core, Covered, Closing, OrderedComponent, RealComponent, CompTree;
    var n := |fs| - 1;
    var h := fs[n].vertex;
    ClosingFacts(g, s, fs);
    ClosedMembers(g, s, fs);
    ClosedOrdered(g, s, fs);
    ClosedReal(g, s, fs);
    assert PidAt(fs, n) == CycleOf(h);
    var cs := Closed(s, fs);
    assert OrderOf(Cycle(cs)) == Order(cs);
    assert h in Context(fs, s.partitions, n);
    assert h !in Members(s.partitions[CycleOf(h)]);
    NoDupConcat([h], Order(s.partitions[CycleOf(h)]));
  }

  // ----- the state after the step -----

  ghost predicate CloseStep(s: State, fs: seq<Frame>, s': State, fs': seq<Frame>) {
    && |fs| >= 2 && fs' == fs[..|fs| - 1]
    && var id, pid := CycleOf(fs[|fs| - 1].vertex), PidAt(fs, |fs| - 2);
    && id in s.partitions && pid in s.partitions && id != pid
    && s'.data == s.data && s'.num == s.num && s'.stack == s.stack
    && s'.partitions == s.partitions[id := Closed(s, fs)][pid := s.partitions[pid] + [Cycle(Closed(s, fs))]]
  }

  lemma {:induction false} CloseAppended(g: Cfg, s: State, fs: seq<Frame>, s': State, fs': seq<Frame>)
    requires CloseStep(s, fs, s', fs') && fs[|fs| - 1].open && Partitions(g, s, fs) && Levels(g, s, fs)
    ensures Appended(s, fs', Cycle(Closed(s, fs)), s')
  {
    hide Partition, OpenPartition, Levels, Level;
    var n := |fs| - 1;
    WholeStacked(g, s, fs);
    AgreeAt(fs, fs', n, n - 1);
    forall k: nat | k < n ensures PidAt(fs', k) in s.partitions && PidAt(fs', k) != CycleOf(fs[n].vertex) {
      AgreeAt(fs, fs', n, k);
      PidsDiffer(g, s, fs, k, n, n);
      PartitionAt(g, s, fs, k);
      PidPresent(g, s, fs, k);
    }
  }

  lemma {:induction false} PidPresent(g: Cfg, s: State, fs: seq<Frame>, k: nat)
    requires k < |fs| && Partition(g, s, fs, k)
    ensures PidAt(fs, k) in s.partitions
  {
  }

  lemma {:induction false} WholeStacked(g: Cfg, s: State, fs: seq<Frame>)
    requires Partitions(g, s, fs) && Levels(g, s, fs)
    ensures Stacked(g, s, fs)
  {
    hide Partition, OpenPartition;
    forall k: nat | 1 <= k < |fs| && fs[k].open ensures fs[k].vertex in fs[k].comp {
      assert Level(g, s, fs, k);
    }
  }

  lemma {:induction false} ClosePartitions(g: Cfg, s: State, fs: seq<Frame>, s': State, fs': seq<Frame>)
    requires CloseStep(s, fs, s', fs')
    requires Closing(g, s, fs)
    ensures Partitions(g, s', fs')
  {
    hide Shape, Numbers, Vertices, Heads, AllFinished, Links, OnlyReachable, Covered, Partitions, Levels,
      Stacked, Appended, Placeable, RealComponent, CompTree, Partition, OpenPartition;
    var n := |fs| - 1;
    ClosingFacts(g, s, fs);
    ClosedMembers(g, s, fs);
    ClosedPlaceable(g, s, fs);
    DropStacked(g, s, fs, fs');
    CloseAppended(g, s, fs, s', fs');
    var c := Cycle(Closed(s, fs));
    assert MembersOf(c) == Range(fs[n].comp);
    assert forall l :: IsInf(s', l) <==> IsInf(s, l);
    forall u, x | u in MembersOf(c) && g.Edge(u, x) ensures IsInf(s', x) {
      assert u in fs[n].comp;
    }
    forall k | 1 <= k < |fs'| && fs'[k].open ensures MembersOf(c) <= Range(fs'[k].comp) {
      NestedComps(g, s, fs, k);
    }
    CloseDone(g, s, fs);
    Place(g, s, fs', c, s');
  }

  lemma {:induction false} NestedComps(g: Cfg, s: State, fs: seq<Frame>, k: nat)
    requires 1 <= k < |fs| - 1 && fs[k].open && fs[|fs| - 1].open && Levels(g, s, fs)
    ensures Range(fs[|fs| - 1].comp) <= Range(fs[k].comp)
  {
    assert Level(g, s, fs, k);
  }

  lemma {:induction false} CloseDone(g: Cfg, s: State, fs: seq<Frame>)
    requires |fs| >= 2
    requires Closing(g, s, fs)
    ensures forall l :: IsInf(s, l) <==> l in Done(fs, s.partitions, |fs| - 2) || l in Range(fs[|fs| - 1].comp)
  {
    hide Core, Covered, Closing, CompTree, Partition;
    var n := |fs| - 1;
    ClosingFacts(g, s, fs);
    HeadInComp(g, s, fs);
    ClosedMembers(g, s, fs);
    assert PidAt(fs, n) == CycleOf(fs[n].vertex);
    var h := fs[n].vertex;
    OrderSnoc(s.partitions[CycleOf(h)], Vertex(h));
    assert OrderOf(Vertex(h)) == [h];
    assert Range(fs[n].comp) == {h} + Members(s.partitions[CycleOf(h)]);
    assert Done(fs, s.partitions, n) == Done(fs, s.partitions, n - 1) + {h} + Members(s.partitions[CycleOf(h)]);
  }

  lemma {:induction false} CloseCore(g: Cfg, s: State, fs: seq<Frame>, s': State, fs': seq<Frame>)
    requires CloseStep(s, fs, s', fs')
    requires Closing(g, s, fs)
    ensures Core(g, s', fs') && Covered(g, s', fs')
  {
    hide Shape, Numbers, Vertices, Heads, AllFinished, Levels, Partitions, Links, OnlyReachable, Covered,
      Level, Partition, OpenPartition, CloseStep;
    var n := |fs| - 1;
    ClosingFacts(g, s, fs);
    CloseFacts(g, s, fs, s', fs');
    ClosedMembers(g, s, fs);
    DropShape(s, fs, s', fs');
    StackInData(g, s);
    DropFinished(g, s, fs, s', fs');
    DropLevels(g, s, fs, s', fs');
    DropLinks(g, s, fs, s', fs');
    forall x | IsZero(s', x) ensures IsZero(s, x) && x !in fs[n].comp {
      assert !IsInf(s, x);
    }
    DropCovered(g, s, fs, s', fs');
    ClosePartitions(g, s, fs, s', fs');
  }

  lemma {:induction false} CloseFacts(g: Cfg, s: State, fs: seq<Frame>, s': State, fs': seq<Frame>)
    requires CloseStep(s, fs, s', fs') && Vertices(g, s, fs) && Heads(s, fs) && Numbers(g, s) && OnlyReachable(g, s)
    ensures Dropped(s, fs, s', fs') && s'.stack == s.stack && s'.data == s.data
    ensures Vertices(g, s', fs') && Heads(s', fs') && Numbers(g, s') && OnlyReachable(g, s')
  {
    CloseDropped(g, s, fs, s', fs');
    CloseVertices(g, s, fs, s', fs');
    hide Heads, Vertices, Dropped;
  }

  lemma {:induction false} CloseDropped(g: Cfg, s: State, fs: seq<Frame>, s': State, fs': seq<Frame>)
    requires CloseStep(s, fs, s', fs')
    ensures Dropped(s, fs, s', fs') && s'.stack == s.stack && s'.data == s.data && s'.num == s.num
  {
    hide Closed, PidAt;
    assert s'.stack == s.stack[..|s'.stack|];
  }

  lemma {:induction false} CloseVertices(g: Cfg, s: State, fs: seq<Frame>, s': State, fs': seq<Frame>)
    requires CloseStep(s, fs, s', fs') && Vertices(g, s, fs) && Heads(s, fs)
    ensures Vertices(g, s', fs') && Heads(s', fs')
  {
    hide Closed, PidAt;
  }
}
