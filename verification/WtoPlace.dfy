/** Placing a finished component into the partition of the innermost level
    (src/cfg/wto.cpp:168-174, src/cfg/wto.cpp:177-191). */
module WtoPlace {
  import opened ControlFlow
  import opened WtoTree
  import opened WtoSteps
  import opened WtoInvariant

  /** The partitions of all frames, without saying which labels are finished. */
  ghost predicate Stacked(g: Cfg, s: State, fs: seq<Frame>) {
    && |fs| >= 1
    && (forall k: nat {:trigger Partition(g, s, fs, k)} :: k < |fs| ==> Partition(g, s, fs, k))
    && (forall k: nat {:trigger OpenPartition(s, fs, k)} :: 1 <= k < |fs| && fs[k].open ==> OpenPartition(s, fs, k))
    && (forall k: nat :: 1 <= k < |fs| && fs[k].open ==> fs[k].vertex in fs[k].comp)
  }

  lemma {:induction false} ContextMono(fs: seq<Frame>, parts: map<PartitionId, seq<Component>>, k: nat, m: nat)
    requires k <= m < |fs|
    ensures Context(fs, parts, k) <= Context(fs, parts, m) && Done(fs, parts, k) <= Done(fs, parts, m)
  {
    if k < m {
      ContextMono(fs, parts, k, m - 1);
    }
  }

  lemma {:induction false} PidInContext(fs: seq<Frame>, parts: map<PartitionId, seq<Component>>, k: nat)
    requires k < |fs| && PidAt(fs, k).CycleOf?
    ensures PidAt(fs, k).head in Context(fs, parts, k)
  {
    if !fs[k].open {
      PidInContext(fs, parts, k - 1);
    }
  }

  /** Frames separated by an open frame name different partitions. */
  lemma {:induction false} PidsDiffer(g: Cfg, s: State, fs: seq<Frame>, k: nat, m: nat, n: nat)
    requires k < m <= n < |fs| && fs[m].open && Stacked(g, s, fs)
    ensures PidAt(fs, k) != PidAt(fs, n)
  {
    hide Partition;
    if fs[n].open {
      assert OpenPartition(s, fs, n);
      assert fs[n].vertex in Range(fs[n].comp);
      if PidAt(fs, k).CycleOf? {
        PidInContext(fs, s.partitions, k);
        ContextMono(fs, s.partitions, k, n - 1);
      }
    } else {
      PidsDiffer(g, s, fs, k, m, n - 1);
    }
  }

  lemma {:induction false} ContextFrame(fs: seq<Frame>, parts: map<PartitionId, seq<Component>>,
                                        parts': map<PartitionId, seq<Component>>, k: nat)
    requires k < |fs|
    requires forall m :: 1 <= m <= k && fs[m].open ==>
                           PartMembers(parts, PidAt(fs, m - 1)) == PartMembers(parts', PidAt(fs, m - 1))
    ensures Context(fs, parts, k) == Context(fs, parts', k)
  {
    if k > 0 {
      ContextFrame(fs, parts, parts', k - 1);
    }
  }

  /** `s'` has `c` appended to the partition of the last frame; other frames' partitions are kept. */
  ghost predicate Appended(s: State, fs: seq<Frame>, c: Component, s': State) {
    && |fs| >= 1
    && var id := PidAt(fs, |fs| - 1);
    && id in s.partitions && id in s'.partitions && s'.partitions[id] == s.partitions[id] + [c]
    && (forall k: nat {:trigger PidAt(fs, k)} :: k < |fs| && PidAt(fs, k) != id ==>
                                                   PidAt(fs, k) in s.partitions && PidAt(fs, k) in s'.partitions
                                                   && s'.partitions[PidAt(fs, k)] == s.partitions[PidAt(fs, k)])
  }

  lemma {:induction false} AppendedContext(g: Cfg, s: State, fs: seq<Frame>, c: Component, s': State, k: nat)
    requires Stacked(g, s, fs) && Appended(s, fs, c, s') && k < |fs|
    ensures Context(fs, s'.partitions, k) == Context(fs, s.partitions, k)
  {
    hide Stacked;
    var n := |fs| - 1;
    forall m | 1 <= m <= k && fs[m].open
      ensures PartMembers(s.partitions, PidAt(fs, m - 1)) == PartMembers(s'.partitions, PidAt(fs, m - 1))
    {
      PidsDiffer(g, s, fs, m - 1, m, n);
    }
    ContextFrame(fs, s.partitions, s'.partitions, k);
  }

  lemma {:induction false} SameLevelContext(g: Cfg, s: State, fs: seq<Frame>, k: nat, n: nat)
    requires k <= n < |fs| && Stacked(g, s, fs) && PidAt(fs, k) == PidAt(fs, n)
    ensures Context(fs, s.partitions, k) == Context(fs, s.partitions, n)
  {
    hide Partition, OpenPartition;
    if k < n {
      if fs[n].open {
        PidsDiffer(g, s, fs, k, n, n);
        assert false;
      }
      SameLevelContext(g, s, fs, k, n - 1);
    }
  }

  /** What a component must satisfy to be placed after everything in `done`. */
  ghost predicate Placeable(g: Cfg, done: set<Label>, c: Component) {
    && OrderedComponent(g, c, done)
    && NoDup(OrderOf(c))
    && MembersOf(c) !! done
    && RealComponent(g, c)
  }

  lemma {:induction false} PlacePartition(g: Cfg, s: State, fs: seq<Frame>, c: Component, s': State, k: nat)
    requires Stacked(g, s, fs) && Appended(s, fs, c, s') && k < |fs|
    requires Placeable(g, Done(fs, s.partitions, |fs| - 1), c)
    requires forall l :: IsInf(s, l) ==> IsInf(s', l)
    requires forall u, x :: u in MembersOf(c) && g.Edge(u, x) ==> IsInf(s', x)
    ensures Partition(g, s', fs, k)
  {
    var n := |fs| - 1;
    var id := PidAt(fs, k);
    AppendedContext(g, s, fs, c, s', k);
    assert Partition(g, s, fs, k);
    if id == PidAt(fs, n) {
      SameLevelContext(g, s, fs, k, n);
      PlaceInPartition(g, s.partitions[id], Context(fs, s.partitions, k), c);
    }
  }

  lemma {:induction false} PlaceInPartition(g: Cfg, cs: seq<Component>, context: set<Label>, c: Component)
    requires Ordered(g, cs, context) && NoDup(Order(cs)) && Members(cs) !! context && RealCycles(g, cs)
    requires Placeable(g, context + Members(cs), c)
    ensures Ordered(g, cs + [c], context) && NoDup(Order(cs + [c])) && Members(cs + [c]) !! context
    ensures RealCycles(g, cs + [c])
    ensures Members(cs + [c]) == MembersOf(c) + Members(cs)
  {
    OrderedSnoc(g, cs, c, context);
    OrderSnoc(cs, c);
    assert forall l :: l in OrderOf(c) ==> l in MembersOf(c);
    assert forall l :: l in Order(cs) ==> l in Members(cs);
    NoDupConcat(OrderOf(c), Order(cs));
  }

  lemma {:induction false} PlaceOpen(g: Cfg, s: State, fs: seq<Frame>, c: Component, s': State, k: nat)
    requires Stacked(g, s, fs) && Appended(s, fs, c, s') && 1 <= k < |fs| && fs[k].open
    requires MembersOf(c) <= Range(fs[k].comp)
    ensures OpenPartition(s', fs, k)
  {
    var n := |fs| - 1;
    assert OpenPartition(s, fs, k);
    AppendedContext(g, s, fs, c, s', k - 1);
    PidsDiffer(g, s, fs, k - 1, k, n);
    var id := CycleOf(fs[k].vertex);
    assert PidAt(fs, k) == id;
    assert Partition(g, s, fs, k);
    if id == PidAt(fs, n) {
      OrderSnoc(s.partitions[id], c);
    }
  }

  /** Appending a placeable component to the innermost partition keeps all partitions in order. */
  lemma {:induction false} Place(g: Cfg, s: State, fs: seq<Frame>, c: Component, s': State)
    requires Stacked(g, s, fs) && Appended(s, fs, c, s')
    requires Placeable(g, Done(fs, s.partitions, |fs| - 1), c)
    requires forall l :: IsInf(s, l) ==> IsInf(s', l)
    requires forall u, x :: u in MembersOf(c) && g.Edge(u, x) ==> IsInf(s', x)
    requires forall k :: 1 <= k < |fs| && fs[k].open ==> MembersOf(c) <= Range(fs[k].comp)
    requires forall l :: IsInf(s', l) <==> l in Done(fs, s.partitions, |fs| - 1) || l in MembersOf(c)
    ensures Partitions(g, s', fs)
  {
    hide Stacked, Partition, OpenPartition, Placeable;
    forall k: nat | k < |fs| ensures Partition(g, s', fs, k) {
      PlacePartition(g, s, fs, c, s', k);
    }
    forall k: nat | 1 <= k < |fs| && fs[k].open ensures OpenPartition(s', fs, k) {
      PlaceOpen(g, s, fs, c, s', k);
    }
    var n := |fs| - 1;
    AppendedContext(g, s, fs, c, s', n);
    OrderSnoc(s.partitions[PidAt(fs, n)], c);
  }
}
