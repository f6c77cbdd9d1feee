/** The tables from which the nesting of a label is computed: the cycle that contains a label, and
    the cycle or order in which a cycle was created (src/cfg/wto.cpp:139-143, 174, 190). */
module WtoNest {
  import opened ControlFlow
  import opened WtoTree
  import opened WtoSteps
  import opened WtoInvariant
  import opened WtoFrames
  import opened WtoPush
  import opened WtoSingle
  import opened WtoLoop
  import opened WtoContinue

  type Table = map<Label, PartitionId>

  /** The tables describe partition `id` with components `cs`, at every depth. */
  ghost predicate Nested(cs: seq<Component>, id: PartitionId, containing: Table, enclosing: Table) {
    forall c :: c in cs ==> NestedComponent(c, id, containing, enclosing)
  }

  ghost predicate NestedComponent(c: Component, id: PartitionId, containing: Table, enclosing: Table) {
    match c
    case Vertex(v) => v in containing && containing[v] == id
    case Cycle(cs) =>
      && Headed(cs)
      && var h := Head(cs);
      && h in containing && containing[h] == CycleOf(h)
      && h in enclosing && enclosing[h] == id
      && Nested(cs[..|cs| - 1], CycleOf(h), containing, enclosing)
  }

  ghost predicate Extends(m: Table, m': Table) {
    forall l :: l in m ==> l in m' && m'[l] == m[l]
  }

  lemma {:induction false} NestedMono(cs: seq<Component>, id: PartitionId, c: Table, e: Table, c': Table, e': Table)
    requires Nested(cs, id, c, e) && Extends(c, c') && Extends(e, e')
    ensures Nested(cs, id, c', e')
    decreases cs, 1
  {
    forall x | x in cs ensures NestedComponent(x, id, c', e') {
      ComponentMono(x, id, c, e, c', e');
    }
  }

  lemma {:induction false} ComponentMono(x: Component, id: PartitionId, c: Table, e: Table, c': Table, e': Table)
    requires NestedComponent(x, id, c, e) && Extends(c, c') && Extends(e, e')
    ensures NestedComponent(x, id, c', e')
    decreases x, 0
  {
    match x
    case Vertex(_) =>
    case Cycle(cs) =>
      NestedMono(cs[..|cs| - 1], CycleOf(Head(cs)), c, e, c', e');
  }

  // ----- the invariant -----

  ghost predicate FrameNested(s: State, fs: seq<Frame>, k: nat)
    requires k < |fs|
  {
    && PidAt(fs, k) in s.partitions
    && Nested(s.partitions[PidAt(fs, k)], PidAt(fs, k), s.containing, s.enclosing)
    && (k >= 1 && fs[k].open ==>
          fs[k].vertex in s.enclosing && s.enclosing[fs[k].vertex] == PidAt(fs, k - 1) && fs[k].vertex !in s.containing)
  }

  ghost predicate NestInv(s: State, fs: seq<Frame>) {
    && (forall k: nat {:trigger FrameNested(s, fs, k)} :: k < |fs| ==> FrameNested(s, fs, k))
    && (forall l :: l in s.containing || l in s.enclosing ==> IsInf(s, l))
  }

  /** Frames below `n` keep their tables when the tables grow by entries foreign to them. */
  lemma {:induction false} FrameKept(s: State, fs: seq<Frame>, s': State, fs': seq<Frame>, n: nat, k: nat)
    requires Agree(fs, fs', n) && k < n && FrameNested(s, fs, k)
    requires PidAt(fs, k) in s'.partitions && s'.partitions[PidAt(fs, k)] == s.partitions[PidAt(fs, k)]
    requires Extends(s.containing, s'.containing) && Extends(s.enclosing, s'.enclosing)
    requires k >= 1 && fs[k].open ==> fs[k].vertex !in s'.containing
    ensures FrameNested(s', fs', k)
  {
    AgreeAt(fs, fs', n, k);
    if k >= 1 {
      AgreeAt(fs, fs', n, k - 1);
    }
    NestedMono(s.partitions[PidAt(fs, k)], PidAt(fs, k), s.containing, s.enclosing, s'.containing, s'.enclosing);
  }

  lemma {:induction false} PushNest(g: Cfg, s: State, fs: seq<Frame>, s': State, fs': seq<Frame>)
    requires fs != [] && fs[|fs| - 1].pending != [] && NestInv(s, fs)
    requires s'.partitions == s.partitions && s'.containing == s.containing && s'.enclosing == s.enclosing
    requires forall l :: IsInf(s, l) ==> IsInf(s', l)
    requires fs' == Shrunk(fs) || (|fs'| == |fs| + 1 && fs'[..|fs|] == Shrunk(fs) && !fs'[|fs|].open)
    ensures NestInv(s', fs')
  {
    var n := |fs|;
    assert Agree(fs, fs', n) by {
      if |fs'| > n {
        assert forall i :: 0 <= i < n ==> fs'[i] == fs'[..n][i];
      }
    }
    forall k: nat | k < |fs'| ensures FrameNested(s', fs', k) {
      if k < n {
        assert FrameNested(s, fs, k);
        FrameKept(s, fs, s', fs', n, k);
      } else {
        assert FrameNested(s, fs, n - 1);
        AgreeAt(fs, fs', n, n - 1);
      }
    }
  }

  lemma {:induction false} LowNest(s: State, fs: seq<Frame>, s': State, fs': seq<Frame>)
    requires |fs| >= 2 && fs' == fs[..|fs| - 1] && NestInv(s, fs)
    requires s'.partitions == s.partitions && s'.containing == s.containing && s'.enclosing == s.enclosing
    requires forall l :: IsInf(s, l) ==> IsInf(s', l)
    ensures NestInv(s', fs')
  {
    var n := |fs| - 1;
    forall k: nat | k < |fs'| ensures FrameNested(s', fs', k) {
      assert FrameNested(s, fs, k);
      FrameKept(s, fs, s', fs', n, k);
    }
  }

  lemma {:induction false} NestedSnoc(
    cs: seq<Component>, c: Component, id: PartitionId, containing: Table, enclosing: Table)
    requires Nested(cs, id, containing, enclosing) && NestedComponent(c, id, containing, enclosing)
    ensures Nested(cs + [c], id, containing, enclosing)
  {
  }

  lemma {:induction false} SingleNest(s: State, fs: seq<Frame>, head: nat, s': State, fs': seq<Frame>)
    requires SingleStep(s, fs, head, s', fs') && NestInv(s, fs)
    requires !fs[|fs| - 1].open && !IsInf(s, fs[|fs| - 1].vertex)
    requires s'.containing == Emplace(s.containing, fs[|fs| - 1].vertex, PidAt(fs, |fs| - 1))
             && s'.enclosing == s.enclosing
    requires forall l :: IsInf(s', l) <==> IsInf(s, l) || l == fs[|fs| - 1].vertex
    ensures NestInv(s', fs')
  {
    var n := |fs| - 1;
    var v, id := fs[n].vertex, PidAt(fs, n);
    assert v !in s.containing;
    forall k: nat | k < |fs'| ensures FrameNested(s', fs', k) {
      assert FrameNested(s, fs, k);
      assert k >= 1 && fs[k].open ==> fs[k].vertex in s.enclosing && IsInf(s, fs[k].vertex);
      if PidAt(fs, k) != id {
        FrameKept(s, fs, s', fs', n, k);
      } else {
        AgreeAt(fs, fs', n, k);
        if k >= 1 {
          AgreeAt(fs, fs', n, k - 1);
        }
        NestedMono(s.partitions[id], id, s.containing, s.enclosing, s'.containing, s'.enclosing);
        NestedSnoc(s.partitions[id], Vertex(v), id, s'.containing, s'.enclosing);
      }
    }
  }

  lemma {:induction false} LoopNest(g: Cfg, s: State, fs: seq<Frame>, s': State, fs': seq<Frame>)
    requires LoopStep(g, s, fs, s', fs') && NestInv(s, fs)
    requires !fs[|fs| - 1].open && !IsInf(s, fs[|fs| - 1].vertex)
    requires s'.containing == s.containing && s'.enclosing == s.enclosing[fs[|fs| - 1].vertex := PidAt(fs, |fs| - 1)]
    requires forall l :: IsInf(s', l) <==> IsInf(s, l) || l == fs[|fs| - 1].vertex
    requires forall k: nat :: k < |fs| ==> PidAt(fs, k) != CycleOf(fs[|fs| - 1].vertex)
    ensures NestInv(s', fs')
  {
    var n := |fs| - 1;
    assert Agree(fs, fs', n);
    forall k: nat | k < |fs'| ensures FrameNested(s', fs', k) {
      assert FrameNested(s, fs, k);
      if k < n {
        FrameKept(s, fs, s', fs', n, k);
      } else {
        AgreeAt(fs, fs', n, n - 1);
      }
    }
  }

  lemma {:induction false} CloseNest(s: State, fs: seq<Frame>, s': State, fs': seq<Frame>)
    requires CloseStep(s, fs, s', fs') && NestInv(s, fs) && fs[|fs| - 1].open
    requires s'.containing == Emplace(s.containing, fs[|fs| - 1].vertex, CycleOf(fs[|fs| - 1].vertex))
             && s'.enclosing == s.enclosing
    requires forall k: nat :: k < |fs| - 1 ==> PidAt(fs, k) != CycleOf(fs[|fs| - 1].vertex)
    requires IsInf(s, fs[|fs| - 1].vertex)
    ensures NestInv(s', fs')
  {
    var n := |fs| - 1;
    var h, pid := fs[n].vertex, PidAt(fs, n - 1);
    assert FrameNested(s, fs, n);
    var cs := Closed(s, fs);
    assert cs[..|cs| - 1] == s.partitions[CycleOf(h)];
    NestedMono(s.partitions[CycleOf(h)], CycleOf(h), s.containing, s.enclosing, s'.containing, s'.enclosing);
    assert NestedComponent(Cycle(cs), pid, s'.containing, s'.enclosing);
    forall k: nat | k < |fs'| ensures FrameNested(s', fs', k) {
      assert FrameNested(s, fs, k);
      assert k >= 1 && fs[k].open ==> PidAt(fs, k) == CycleOf(fs[k].vertex);
      if PidAt(fs, k) != pid {
        FrameKept(s, fs, s', fs', n, k);
      } else {
        AgreeAt(fs, fs', n, k);
        if k >= 1 {
          AgreeAt(fs, fs', n, k - 1);
        }
        NestedMono(s.partitions[pid], pid, s.containing, s.enclosing, s'.containing, s'.enclosing);
        NestedSnoc(s.partitions[pid], Cycle(cs), pid, s'.containing, s'.enclosing);
      }
    }
  }
}
