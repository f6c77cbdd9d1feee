/** A whole analysis (src/fwd_analyzer.cpp:102-123, src/fwd_analyzer.cpp:261-285). */
module Analyzer {
  import opened ControlFlow
  import opened WtoTree
  import opened WtoTheorem
  import opened WtoInvariant
  import WeakOrder
  import Nesting
  import opened AbstractDomain
  import opened Coverage
  import opened Derivation
  import opened LoopCuts
  import opened FixpointEngine

  /** State `s` with the counters of `heads` set to zero, one after the other. */
  ghost function ZeroAll<D, S, A>(dom: Domain<D, S, A>, heads: seq<Label>, s: S): S {
    if heads == [] then s else dom.zero(ZeroAll(dom, heads[..|heads| - 1], s), heads[|heads| - 1])
  }

  /** The concrete states an analysis from `entryInv` speaks about. */
  ghost function Initials<D, S(!new), A>(dom: Domain<D, S, A>, entryInv: D, heads: seq<Label>): S -> bool {
    s => exists s0 :: dom.gamma(entryInv, s0) && s == ZeroAll(dom, heads, s0)
  }

  datatype AnalysisResult<D> = AnalysisResult(wto: WeakOrder.Wto, invariants: Table<D>, failed: bool)

  ghost function CountersOf(cs: seq<Component>, checkTermination: bool): seq<Label> {
    if checkTermination then LoopHeads(cs) else []
  }

  /** The program, domain and initial states that a result is about. */
  ghost function SetupOf<D, S(!new), A>(
    prog: Program<A>, dom: Domain<D, S, A>, entryInv: D, cs: seq<Component>, checkTermination: bool): Setup<D, S, A> {
    Setup(prog, dom, Initials(dom, entryInv, CountersOf(cs, checkTermination)))
  }

  /** Every assertion at `v`, a loop bound included, holds in `s`. */
  ghost predicate AllHold<D, S, A(!new)>(z: Setup<D, S, A>, v: Label, s: S)
    requires v in z.prog.assertions
  {
    forall p :: p in z.prog.assertions[v] ==> z.dom.holds(p, s)
  }

  // ----- the entry is visited first and alone -----

  lemma {:induction false} LastEdge(g: Cfg, within: set<Label>, a: Label, b: Label)
    requires Connected(g, within, a, b)
    ensures exists u :: g.Edge(u, b)
  {
    var p :| IsPath(g, within, p) && p[0] == a && p[|p| - 1] == b;
    assert g.Edge(p[|p| - 2], p[|p| - 1]);
  }

  lemma {:induction false} NotInCycle(g: Cfg, c: Component)
    requires c.Cycle? && RealComponent(g, c) && forall u :: !g.Edge(u, g.entry)
    ensures g.entry !in MembersOf(c)
  {
    hide Connected;
    var cs := c.components;
    forall x | x in MembersOf(c) ensures x != g.entry {
      assert Connected(g, Members(cs), x, x);
      LastEdge(g, Members(cs), x, x);
    }
  }

  lemma {:induction false} ComponentNotEmpty(c: Component)
    requires c.Cycle? ==> Headed(c.components)
    ensures OrderOf(c) != []
  {
    if c.Cycle? {
      assert OrderOf(c.components[|c.components| - 1]) == [Head(c.components)];
    }
  }

  lemma {:induction false} EntryComponent(g: Cfg, w: WeakOrder.Wto)
    requires WeakOrder.Valid(g, w) && forall u :: !g.Edge(u, g.entry)
    ensures w.components != [] && w.components[|w.components| - 1] == Vertex(g.entry)
    ensures forall c :: c in w.components && c.Cycle? ==> g.entry !in MembersOf(c)
  {
    hide Connected, RealComponent;
    var cs := w.components;
    forall c | c in cs && c.Cycle? ensures g.entry !in MembersOf(c) {
      NotInCycle(g, c);
    }
    assert cs != [] by {
      assert Order(cs) != [];
    }
    var last := cs[|cs| - 1];
    assert Order(cs) == OrderOf(last) + Order(cs[..|cs| - 1]);
    ComponentNotEmpty(last);
    assert OrderOf(last)[0] == g.entry;
    assert g.entry in MembersOf(last);
  }

  // ----- runs stay among reachable labels -----

  lemma {:induction false} ReachIsReachable<D, S(!new), A>(z: Setup<D, S, A>, n: nat, v: Label, s: S)
    requires z.prog.cfg.WellFormed() && Reach(z, n, v, s)
    ensures Reachable(z.prog.cfg, v)
    decreases n
  {
    if n > 0 {
      var u, s0 :| Reach(z, n - 1, u, s0) && z.prog.cfg.Edge(u, v) && z.dom.step(u, s0, s);
      ReachIsReachable(z, n - 1, u, s0);
      ReachableStep(z.prog.cfg, u, v);
    }
  }

  lemma {:induction false} EverythingCovered<D, S(!new), A(!new)>(
    z: Setup<D, S, A>, t: Table<D>, region: set<Label>, n: nat, v: Label, s: S)
    requires Tabled(z, t) && Closed(z, t, region) && Reach(z, n, v, s)
    requires forall l :: Reachable(z.prog.cfg, l) ==> l in region && l in t
    ensures v in t && CoveredAt(z, t, v, s)
  {
    assert Entered(z, t, n, region) by {
      forall m: nat, u, s0 | Reach(z, m, u, s0) ensures u in region {
        ReachIsReachable(z, m, u, s0);
      }
    }
    assert Covers(z, t, n, region);
    ReachIsReachable(z, n, v, s);
  }

  // ----- loop counters -----

  /** `d` covers every initial state. */
  ghost predicate CoversInitials<D, S(!new), A>(dom: Domain<D, S, A>, entryInv: D, heads: seq<Label>, d: D) {
    forall s :: Initials(dom, entryInv, heads)(s) ==> dom.gamma(d, s)
  }

  lemma {:induction false} InitialsCovered<D(!new), S(!new), A(!new)>(
    dom: Domain<D, S, A>, entryInv: D, heads: seq<Label>, h: Label, d: D)
    requires SemanticsSound(dom) && CoversInitials(dom, entryInv, heads, d)
    ensures CoversInitials(dom, entryInv, heads + [h], dom.resetCounter(d, h))
  {
    forall s | Initials(dom, entryInv, heads + [h])(s) ensures dom.gamma(dom.resetCounter(d, h), s) {
      var s0 :| dom.gamma(entryInv, s0) && s == ZeroAll(dom, heads + [h], s0);
      assert (heads + [h])[..|heads|] == heads;
      var s1 := ZeroAll(dom, heads, s0);
      assert Initials(dom, entryInv, heads)(s1);
      assert s == dom.zero(s1, h);
    }
  }

  lemma {:induction false} NoHeads<D, S(!new), A>(dom: Domain<D, S, A>, entryInv: D)
    ensures CoversInitials(dom, entryInv, [], entryInv)
  {
    forall s | Initials(dom, entryInv, [])(s) ensures dom.gamma(entryInv, s) {
      var s0 :| dom.gamma(entryInv, s0) && s == ZeroAll(dom, [], s0);
    }
  }

  lemma {:induction false} LoopHeadsStep(cs: seq<Component>, i: nat, done: seq<Label>)
    requires i < |cs| && done + LoopHeads(cs[..i + 1]) == LoopHeads(cs)
    ensures (if cs[i].Cycle?
                && Headed(cs[i].components) then done + [Head(cs[i].components)] else done) + LoopHeads(cs[..i]) ==
            LoopHeads(cs)
  {
    assert cs[..i + 1][..i] == cs[..i];
  }

  /** `d` with the counters of `heads` reset, one after the other. */
  function ResetAll<D, S, A>(dom: Domain<D, S, A>, d: D, heads: seq<Label>): D {
    if heads == [] then d else dom.resetCounter(ResetAll(dom, d, heads[..|heads| - 1]), heads[|heads| - 1])
  }

  /** The entry invariant with the counters of the outermost loop heads set to zero. */
  method InitializeCounters<D(!new), S(!new), A(!new)>(dom: Domain<D, S, A>, entryInv: D, cs: seq<Component>)
    returns (d: D)
    requires Sound(dom)
    ensures CoversInitials(dom, entryInv, LoopHeads(cs), d) && d == ResetAll(dom, entryInv, LoopHeads(cs))
  {
    hide LatticeSound, WideningTerminates, SemanticsSound, CoversInitials, LoopHeads;
    d := entryInv;
    ghost var done: seq<Label> := [];
    NoHeads(dom, entryInv);
    var i := |cs|;
    assert cs[..i] == cs;
    while i > 0
      invariant 0 <= i <= |cs|
      invariant done + LoopHeads(cs[..i]) == LoopHeads(cs)
      invariant CoversInitials(dom, entryInv, done, d) && d == ResetAll(dom, entryInv, done)
    {
      i := i - 1;
      LoopHeadsStep(cs, i, done);
      if cs[i].Cycle? && Headed(cs[i].components) {
        InitialsCovered(dom, entryInv, done, Head(cs[i].components), d);
        assert (done + [Head(cs[i].components)])[..|done|] == done;
        d := dom.resetCounter(d, Head(cs[i].components));
        done := done + [Head(cs[i].components)];
      }
    }
    assert LoopHeads(cs[..i]) == [] by {
      LoopHeadsEmpty(cs);
    }
    assert done == LoopHeads(cs);
  }

  lemma {:induction false} LoopHeadsEmpty(cs: seq<Component>)
    ensures LoopHeads(cs[..0]) == []
  {
  }

  // ----- the run -----

  lemma {:induction false} WholeVisitable(g: Cfg, w: WeakOrder.Wto)
    requires g.WellFormed() && WeakOrder.Valid(g, w)
    ensures Visitable(g, w.components, {})
  {
    forall l | l in Members(w.components) ensures l in g.children {
      LabelReached(g, l);
    }
  }

  /** The loop bound at `l`, if `l` increments a counter, holds of the pre stored for it. */
  ghost predicate BoundChecked<D, S, A>(z: Setup<D, S, A>, t: Table<D>, l: Label) {
    l in t && l in z.prog.counters && l in z.prog.assertions && |z.prog.assertions[l]| == 1
    ==> z.dom.isBottom(t[l].pre) || z.dom.check(l, z.prog.assertions[l][0], t[l].pre)
  }

  /** Tables that differ in recorded errors only. */
  ghost predicate SameInvariants<D>(t: Table<D>, t': Table<D>) {
    t'.Keys == t.Keys && forall l :: l in t ==> t'[l].pre == t[l].pre && t'[l].post == t[l].post
  }

  lemma {:induction false} BoundKept<D, S, A>(z: Setup<D, S, A>, t: Table<D>, t': Table<D>, l: Label)
    requires SameInvariants(t, t')
    ensures BoundChecked(z, t', l) == BoundChecked(z, t, l)
  {
  }

  lemma {:induction false} CounterHasOneAssertion<D, S, A>(z: Setup<D, S, A>, t: Table<D>, l: Label)
    requires Tabled(z, t) && l in z.prog.counters
    ensures l in z.prog.assertions && |z.prog.assertions[l]| == 1
  {
  }

  /** Records an error at `l` if it increments a counter whose bound does not follow from its pre. */
  method CheckLoopBound<D(!new), S(!new), A(!new)>(it: FixpointIterator<D, S, A>, l: Label)
    requires it.Valid() && l in it.invariants
    modifies it`invariants, it`failed, it`failing
    ensures it.Valid() && SameInvariants(old(it.invariants), it.invariants)
    ensures it.failed == (old(it.failed) || !BoundChecked(it.Z(), it.invariants, l))
  {
    hide Sound, Ok, Tabled, Nesting.NestingCache.Valid;
    it.Facts();
    if it.dom.isBottom(it.invariants[l].pre) || l !in it.prog.counters {
      return;
    }
    CounterHasOneAssertion(it.Z(), it.invariants, l);
    if !it.dom.check(l, it.prog.assertions[l][0], it.invariants[l].pre) {
      it.ValuesDerived(l);
      assert Fails(it.prog, it.dom, it.origin, l, it.invariants[l].pre);
      it.SetError(l, it.invariants[l].pre);
    }
  }

  /** The loop bounds of all labels hold of the stored pres, exactly if no error is found. */
  method FindTerminationErrors<D(!new), S(!new), A(!new)>(it: FixpointIterator<D, S, A>)
    requires it.Valid()
    modifies it`invariants, it`failed, it`failing
    ensures it.Valid() && SameInvariants(old(it.invariants), it.invariants)
    ensures it.failed <==> old(it.failed) || exists l :: l in it.invariants && !BoundChecked(it.Z(), it.invariants, l)
  {
    hide Sound, Ok, Tabled, Nesting.NestingCache.Valid, BoundChecked;
    var todo := it.invariants.Keys;
    while todo != {}
      invariant it.Valid() && SameInvariants(old(it.invariants), it.invariants) && todo <= it.invariants.Keys
      invariant it.failed <==> old(it.failed) || exists l ::
                                 l in it.invariants && l !in todo && !BoundChecked(it.Z(), it.invariants, l)
      decreases todo
    {
      var l :| l in todo;
      ghost var before := it.invariants;
      CheckLoopBound(it, l);
      forall x ensures BoundChecked(it.Z(), it.invariants, x) == BoundChecked(it.Z(), before, x) {
        BoundKept(it.Z(), before, it.invariants, x);
      }
      todo := todo - {l};
    }
  }

  /** Visits all components in reading order. */
  method VisitAll<D(!new), S(!new), A(!new)>(it: FixpointIterator<D, S, A>, w: WeakOrder.Wto)
    requires it.Valid() && it.skip && WeakOrder.Valid(it.prog.cfg, w)
    modifies it`invariants, it`failed, it`failing, it`skip, it.cache
    ensures it.Valid() && !it.skip && (old(it.failed) ==> it.failed)
    ensures !it.failed ==> Closed(it.Z(), it.invariants, Members(w.components))
  {
    hide Ok, Nesting.NestingCache.Valid, LatticeSound, SemanticsSound, WideningTerminates, Closed, Tabled,
      WeakOrder.Valid,
      Visitable, VisitableComponent, Rest, Members, MembersOf, Order, SameOutside;
    var cs := w.components;
    var g := it.prog.cfg;
    it.Facts();
    NoEdgeToEntry(it.Z(), it.invariants);
    EntryComponent(g, w);
    it.GraphFacts();
    WholeVisitable(g, w);
    RestEnds(g, cs, {});
    ClosedEmpty(it.Z(), it.invariants);
    var i := |cs|;
    while i > 0
      invariant 0 <= i <= |cs|
      invariant it.Valid() && (old(it.failed) ==> it.failed) && Tabled(it.Z(), it.invariants)
      invariant it.skip == (i == |cs|)
      invariant !it.failed ==> Closed(it.Z(), it.invariants, Rest(cs, i))
    {
      i := i - 1;
      ghost var before := it.invariants;
      TopComponent(g, cs, i);
      ghost var earlier := Members(cs[..i]);
      it.VisitComponent(cs[i], earlier);
      it.Facts();
      if !it.failed {
        PartitionGrows(it.Z(), before, it.invariants, cs, {}, i);
      }
    }
  }

  lemma {:induction false} NoEdgeToEntry<D, S, A>(z: Setup<D, S, A>, t: Table<D>)
    requires Tabled(z, t)
    ensures forall u :: !z.prog.cfg.Edge(u, z.prog.cfg.entry)
  {
  }

  /** What is read later lies outside a component. */
  lemma {:induction false} MemberEarlier(g: Cfg, cs: seq<Component>, context: set<Label>, i: nat, j: nat)
    requires Visitable(g, cs, context) && i < j < |cs|
    ensures MembersOf(cs[i]) !! MembersOf(cs[j])
  {
    VisitablePrefix(g, cs, context, j);
    VisitablePrefix(g, cs, context, j - 1);
    MemberWithin(g, cs[..j], context, i);
  }

  lemma {:induction false} TopComponent(g: Cfg, cs: seq<Component>, i: nat)
    requires Visitable(g, cs, {}) && i < |cs| && cs[|cs| - 1] == Vertex(g.entry)
    requires forall c :: c in cs && c.Cycle? ==> g.entry !in MembersOf(c)
    ensures VisitableComponent(g, cs[i], Members(cs[..i]))
    ensures cs[i].Cycle? ==> g.entry !in MembersOf(cs[i])
    ensures g.entry in MembersOf(cs[i]) <==> i == |cs| - 1
    ensures cs[i].Vertex? ==> !g.Edge(cs[i].at, cs[i].at)
  {
    VisitablePrefix(g, cs, {}, i);
    assert {} + Members(cs[..i]) == Members(cs[..i]);
    NoSelfEdge(g, cs[i], Members(cs[..i]));
    assert OrderOf(Vertex(g.entry)) == [g.entry];
    if i < |cs| - 1 {
      MemberEarlier(g, cs, {}, i, |cs| - 1);
      VisitablePrefix(g, cs, {}, |cs| - 1);
    }
  }

  // ----- the verdict -----

  /** Every state that any run brings to any label lies in the pre stored for it and satisfies the
      assertions there; those on loop counters only if `bounds`. */
  ghost predicate Verified<D, S(!new), A(!new)>(z: Setup<D, S, A>, t: Table<D>, bounds: bool) {
    forall n: nat, v, s :: Reach(z, n, v, s) ==>
                             && v in t && v in z.prog.assertions
                             && z.dom.gamma(t[v].pre, s)
                             && (if bounds then AllHold(z, v, s) else Safe(z, v, s))
  }

  lemma {:induction false} ClosedIsVerified<D(!new), S(!new), A(!new)>(z: Setup<D, S, A>, t: Table<D>, w: WeakOrder.Wto)
    requires Tabled(z, t) && WeakOrder.Valid(z.prog.cfg, w) && Closed(z, t, Members(w.components))
    ensures Verified(z, t, false)
  {
    hide Closed, WeakTopologicalOrder, Ordered, RealCycles, Reachable;
    forall l | Reachable(z.prog.cfg, l) ensures l in Members(w.components) && l in t {
      LabelReached(z.prog.cfg, l);
    }
    forall n: nat, v, s | Reach(z, n, v, s) ensures v in t && CoveredAt(z, t, v, s) {
      EverythingCovered(z, t, Members(w.components), n, v, s);
    }
  }

  lemma {:induction false} VerifiedKept<D, S(!new), A(!new)>(z: Setup<D, S, A>, t: Table<D>, t': Table<D>)
    requires Verified(z, t, false) && SameInvariants(t, t')
    ensures Verified(z, t', false)
  {
  }

  lemma {:induction false} BoundsVerified<D(!new), S(!new), A(!new)>(z: Setup<D, S, A>, t: Table<D>)
    requires Tabled(z, t) && Sound(z.dom) && Verified(z, t, false)
    requires forall l :: l in t ==> BoundChecked(z, t, l)
    ensures Verified(z, t, true)
  {
    hide LatticeSound, SemanticsSound, WideningTerminates;
    forall n: nat, v, s | Reach(z, n, v, s)
      ensures v in t && v in z.prog.assertions && z.dom.gamma(t[v].pre, s) && AllHold(z, v, s)
    {
      if v in z.prog.counters {
        CounterHasOneAssertion(z, t, v);
        BoundHolds(z, t, v, s);
      }
    }
  }

  lemma {:induction false} BoundHolds<D(!new), S(!new), A(!new)>(z: Setup<D, S, A>, t: Table<D>, l: Label, s: S)
    requires Sound(z.dom) && l in t && BoundChecked(z, t, l) && z.dom.gamma(t[l].pre, s)
    requires l in z.prog.counters && l in z.prog.assertions && |z.prog.assertions[l]| == 1
    ensures AllHold(z, l, s)
  {
    assert z.dom.check(l, z.prog.assertions[l][0], t[l].pre);
  }

  lemma {:induction false} CoversCounters<D, S(!new), A>(dom: Domain<D, S, A>, entryInv: D, heads: seq<Label>, d: D)
    requires CoversInitials(dom, entryInv, heads, d)
    ensures forall s :: Initials(dom, entryInv, heads)(s) ==> dom.gamma(d, s)
  {
  }

  /** Analyses a program from `entryInv`.  If nothing failed, every concrete run from a state that the
      entry invariant covers is covered at every label it reaches and violates no assertion. */
  method Analyze<D(!new), S(!new), A(!new)>(prog: Program<A>, dom: Domain<D, S, A>, entryInv: D, checkTermination: bool)
    returns (result: AnalysisResult<D>, ghost origin: D, ghost failing: map<Label, D>)
    requires prog.WellFormed() && Sound(dom)
    ensures WeakOrder.Valid(prog.cfg, result.wto) && WeakOrder.IsBuilt(prog.cfg, result.wto)
    ensures result.invariants.Keys == prog.cfg.children.Keys
    ensures result.failed <==> HasError(result.invariants)
    ensures origin == if checkTermination then ResetAll(dom, entryInv, LoopHeads(result.wto.components)) else entryInv
    ensures FailuresCaused(prog, dom, origin, result.invariants, failing)
    ensures !result.failed ==>
              Verified(SetupOf(prog, dom, entryInv, result.wto.components, checkTermination), result.invariants,
                       checkTermination)
  {
    hide LatticeSound, SemanticsSound, WideningTerminates, Closed, Verified, Ok, WeakOrder.Valid,
      Nesting.NestingCache.Valid, CoversInitials,
      Initials, BoundChecked, SameInvariants, LoopHeads, Members, FailuresCaused, Derivable,
      WeakOrder.IsBuilt;
    var wto := WeakOrder.BuildWto(prog.cfg);
    var cache := new Nesting.NestingCache(prog.cfg, wto);
    var d := entryInv;
    if checkTermination {
      d := InitializeCounters(dom, entryInv, wto.components);
    } else {
      NoHeads(dom, entryInv);
    }
    ghost var init := Initials(dom, entryInv, CountersOf(wto.components, checkTermination));
    CoversCounters(dom, entryInv, CountersOf(wto.components, checkTermination), d);
    var it := new FixpointIterator(prog, dom, init, d, cache);
    VisitAll(it, wto);
    it.Facts();
    ghost var visited := it.invariants;
    if !it.failed {
      ClosedIsVerified(it.Z(), it.invariants, wto);
      if checkTermination {
        FindTerminationErrors(it);
        it.Facts();
        VerifiedKept(it.Z(), visited, it.invariants);
        if !it.failed {
          BoundsVerified(it.Z(), it.invariants);
        }
      }
    }
    it.FailedIffError();
    it.FailureHasCause();
    origin, failing := d, it.failing;
    result := AnalysisResult(wto, it.invariants, it.failed);
  }
}
