/** The interleaved forward fixpoint iterator (src/fwd_analyzer.cpp). */
module FixpointEngine {
  import opened ControlFlow
  import opened WtoTree
  import opened WtoTheorem
  import WeakOrder
  import Nesting
  import opened AbstractDomain
  import opened Coverage
  import opened Derivation

  const WIDENING_DELAY: nat := 2
  const DESCENDING_ITERATIONS: nat := 2000000

  /** Joins first, then a widening cut to constants, then plain widening. */
  function Extrapolate<D, S, A>(dom: Domain<D, S, A>, before: D, after: D, iteration: nat): D {
    if iteration < WIDENING_DELAY then dom.join(before, after)
    else dom.widen(before, after, iteration == WIDENING_DELAY)
  }

  function Refine<D, S, A>(dom: Domain<D, S, A>, before: D, after: D, iteration: nat): D {
    if iteration == 1 then dom.meet(before, after) else dom.narrow(before, after)
  }

  /** The head's value after `start` has been extrapolated with the values in `tried`, one per pass. */
  function AscendTo<D, S, A>(dom: Domain<D, S, A>, start: D, tried: seq<D>): D {
    if tried == [] then start
    else Extrapolate(dom, AscendTo(dom, start, tried[..|tried| - 1]), tried[|tried| - 1], |tried|)
  }

  function DescendTo<D, S, A>(dom: Domain<D, S, A>, start: D, tried: seq<D>): D {
    if tried == [] then start
    else Refine(dom, DescendTo(dom, start, tried[..|tried| - 1]), tried[|tried| - 1], |tried|)
  }

  /** Pass `i` of the ascending phase did not settle. */
  ghost predicate Rising<D, S, A>(dom: Domain<D, S, A>, start: D, tried: seq<D>) {
    forall i :: 0 <= i < |tried| ==> !dom.leq(tried[i], AscendTo(dom, start, tried[..i]))
  }

  /** Every pass of the descending phase found something to refine, within the limit. */
  ghost predicate Falling<D, S, A>(dom: Domain<D, S, A>, start: D, tried: seq<D>) {
    |tried| <= DESCENDING_ITERATIONS && forall i ::
      0 <= i < |tried| ==> !dom.leq(DescendTo(dom, start, tried[..i]), tried[i])
  }

  lemma {:induction false} RisesOn<D, S, A>(dom: Domain<D, S, A>, start: D, tried: seq<D>, next: D)
    requires Rising(dom, start, tried) && !dom.leq(next, AscendTo(dom, start, tried))
    ensures Rising(dom, start, tried + [next])
    ensures AscendTo(dom, start, tried + [next]) == Extrapolate(dom, AscendTo(dom, start, tried), next, |tried| + 1)
  {
    var more := tried + [next];
    assert more[..|tried|] == tried;
    forall i | 0 <= i < |more| ensures !dom.leq(more[i], AscendTo(dom, start, more[..i])) {
      if i < |tried| {
        assert more[..i] == tried[..i];
      }
    }
  }

  lemma {:induction false} FallsOn<D, S, A>(dom: Domain<D, S, A>, start: D, tried: seq<D>, next: D)
    requires Falling(dom, start, tried) && |tried| < DESCENDING_ITERATIONS
             && !dom.leq(DescendTo(dom, start, tried), next)
    ensures Falling(dom, start, tried + [next])
    ensures DescendTo(dom, start, tried + [next]) == Refine(dom, DescendTo(dom, start, tried), next, |tried| + 1)
  {
    var more := tried + [next];
    assert more[..|tried|] == tried;
    forall i | 0 <= i < |more| ensures !dom.leq(DescendTo(dom, start, more[..i]), more[i]) {
      if i < |tried| {
        assert more[..i] == tried[..i];
      }
    }
  }

  /** No edge leads from a component to one that is read before it. */
  lemma {:induction false} ComponentEdges(g: Cfg, c: Component, context: set<Label>, u: Label, v: Label)
    requires OrderedComponent(g, c, context) && u in MembersOf(c) && g.Edge(u, v)
    ensures v in context || v in MembersOf(c)
  {
    ComponentLands(g, c, context, u, v);
    if v !in context {
      if Precedes(OrderOf(c), u, v) {
      } else {
        ThisIsMember(c.components, v, u);
      }
    }
  }

  /** The order of a well-nested partition visited from its end. */
  ghost predicate Visitable(g: Cfg, cs: seq<Component>, context: set<Label>) {
    Ordered(g, cs, context) && NoDup(Order(cs)) && Members(cs) !! context && Members(cs) <= g.children.Keys
  }

  ghost predicate VisitableComponent(g: Cfg, c: Component, context: set<Label>) {
    OrderedComponent(g, c, context) && NoDup(OrderOf(c)) && MembersOf(c) !! context && MembersOf(c) <= g.children.Keys
  }

  ghost function Rest(cs: seq<Component>, i: nat): set<Label>
    requires i <= |cs|
  {
    set k, l | i <= k < |cs| && l in MembersOf(cs[k]) :: l
  }

  lemma {:induction false} VisitablePrefix(g: Cfg, cs: seq<Component>, context: set<Label>, i: nat)
    requires Visitable(g, cs, context) && i < |cs|
    ensures VisitableComponent(g, cs[i], context + Members(cs[..i]))
    ensures Visitable(g, cs[..i + 1], context)
    ensures Members(cs[..i + 1]) == Members(cs[..i]) + MembersOf(cs[i])
    decreases |cs|
  {
    var n := |cs| - 1;
    assert Order(cs) == OrderOf(cs[n]) + Order(cs[..n]);
    NoDupParts(OrderOf(cs[n]), Order(cs[..n]));
    assert Members(cs) == MembersOf(cs[n]) + Members(cs[..n]);
    if i == n {
      assert cs[..i + 1] == cs;
      assert forall l :: l in MembersOf(cs[n]) ==> l in OrderOf(cs[n]);
    } else {
      VisitablePrefix(g, cs[..n], context, i);
      assert cs[..n][i] == cs[i] && cs[..n][..i] == cs[..i] && cs[..n][..i + 1] == cs[..i + 1];
    }
  }

  lemma {:induction false} RestApart(g: Cfg, cs: seq<Component>, context: set<Label>, i: nat)
    requires Visitable(g, cs, context) && i <= |cs|
    ensures Rest(cs, i) !! Members(cs[..i]) && Rest(cs, i) + Members(cs[..i]) == Members(cs)
    decreases |cs| - i
  {
    if i == |cs| {
      assert cs[..i] == cs;
    } else {
      RestApart(g, cs, context, i + 1);
      VisitablePrefix(g, cs, context, i);
      RestStep(cs, i);
    }
  }

  lemma {:induction false} RestStep(cs: seq<Component>, i: nat)
    requires i < |cs|
    ensures Rest(cs, i) == Rest(cs, i + 1) + MembersOf(cs[i])
  {
    assert forall l :: l in MembersOf(cs[i]) ==> l in Rest(cs, i);
  }

  /** No edge leads from component `i` into what is visited before it. */
  lemma {:induction false} NoBackEdge(g: Cfg, cs: seq<Component>, context: set<Label>, i: nat, u: Label)
    requires Visitable(g, cs, context) && i < |cs| && u in MembersOf(cs[i])
    ensures !Into(g, u, Rest(cs, i + 1))
  {
    VisitablePrefix(g, cs, context, i);
    RestApart(g, cs, context, i + 1);
    forall v | g.Edge(u, v) ensures v !in Rest(cs, i + 1) {
      ComponentEdges(g, cs[i], context + Members(cs[..i]), u, v);
    }
  }

  /** One more component of a partition has been visited. */
  lemma {:induction false} PartitionGrows<D, S(!new), A(!new)>(
    z: Setup<D, S, A>, t: Table<D>, t': Table<D>, cs: seq<Component>, context: set<Label>, i: nat)
    requires Tabled(z, t) && Visitable(z.prog.cfg, cs, context) && i < |cs|
    requires Closed(z, t, Rest(cs, i + 1)) && SameOutside(t, t', MembersOf(cs[i]))
    requires Tabled(z, t') && Closed(z, t', MembersOf(cs[i]))
    ensures Closed(z, t', Rest(cs, i))
  {
    var g := z.prog.cfg;
    forall u | u in MembersOf(cs[i]) ensures !Into(g, u, Rest(cs, i + 1)) {
      NoBackEdge(g, cs, context, i, u);
    }
    VisitablePrefix(g, cs, context, i);
    RestApart(g, cs, context, i + 1);
    ClosedKept(z, t, t', Rest(cs, i + 1), MembersOf(cs[i]));
    ClosedUnion(z, t', Rest(cs, i + 1), MembersOf(cs[i]));
    RestStep(cs, i);
  }

  lemma {:induction false} JoinCovers<D(!new), S(!new), A>(dom: Domain<D, S, A>, a: D, b: D)
    requires LatticeSound(dom)
    ensures forall s {:trigger dom.gamma(dom.join(a, b), s)} ::
              dom.gamma(a, s) || dom.gamma(b, s) ==> dom.gamma(dom.join(a, b), s)
  {
  }

  /** Whether a label occurs in a component. */
  method IsComponentMember(l: Label, c: Component) returns (r: bool)
    ensures r <==> l in MembersOf(c)
    decreases c
  {
    match c
    case Vertex(v) =>
      return v == l;
    case Cycle(cs) =>
      if Headed(cs) && Head(cs) == l {
        assert OrderOf(cs[|cs| - 1]) == [l];
        assert l in Order(cs);
        return true;
      }
      var i := |cs|;
      assert cs[..i] == cs;
      while i > 0
        invariant 0 <= i <= |cs|
        invariant l in Order(cs) <==> l in Order(cs[..i])
      {
        i := i - 1;
        assert cs[..i + 1][..i] == cs[..i];
        var inside := IsComponentMember(l, cs[i]);
        if inside {
          return true;
        }
      }
      return false;
  }

  ghost predicate HasError<D>(t: Table<D>) {
    exists l :: l in t && t[l].error
  }

  /** The table is complete, the analysis has failed exactly if it holds an error, and the entry's pre
      covers all initial states. */
  ghost predicate Ok<D(!new), S(!new), A(!new)>(z: Setup<D, S, A>, t: Table<D>, failed: bool) {
    && Tabled(z, t)
    && Sound(z.dom)
    && (failed <==> HasError(t))
    && (forall s :: z.init(s) ==> z.dom.gamma(t[z.prog.cfg.entry].pre, s))
  }

  /** The entry of `l` after the instruction there has been applied to `pre`: labels that increment a
      counter are not checked, and an error, once found, keeps the post that was there before. */
  ghost function Attempted<D(!new), S, A(!new)>(
    prog: Program<A>, dom: Domain<D, S, A>, l: Label, p: InvariantPair<D>, pre: D): InvariantPair<D>
    requires l in prog.assertions
  {
    if l !in prog.counters && p.error then p
    else if l !in prog.counters && exists a :: a in prog.assertions[l] && !dom.check(l, a, pre) then p.(error := true)
    else p.(post := dom.transform(l, pre))
  }

  lemma {:induction false} AttemptedCases<D(!new), S, A(!new)>(
    prog: Program<A>, dom: Domain<D, S, A>, l: Label, p: InvariantPair<D>, pre: D)
    requires l in prog.assertions
    ensures l !in prog.counters && p.error ==> Attempted(prog, dom, l, p, pre) == p
    ensures l !in prog.counters && !p.error && (exists a :: a in prog.assertions[l] && !dom.check(l, a, pre)) ==>
              Attempted(prog, dom, l, p, pre) == p.(error := true)
    ensures l in prog.counters || (!p.error && forall a :: a in prog.assertions[l] ==> dom.check(l, a, pre)) ==>
              Attempted(prog, dom, l, p, pre) == p.(post := dom.transform(l, pre))
  {
  }

  /** The join of the posts of `labels`. */
  function JoinPosts<D, S, A>(dom: Domain<D, S, A>, t: Table<D>, labels: seq<Label>): D
    requires forall l :: l in labels ==> l in t
  {
    if labels == [] then dom.bottom
    else dom.join(JoinPosts(dom, t, labels[..|labels| - 1]), t[labels[|labels| - 1]].post)
  }

  /** What arrives at `l`: the entry keeps its own pre, other labels join their parents' posts. */
  function Collected<D, S, A>(prog: Program<A>, dom: Domain<D, S, A>, t: Table<D>, l: Label): D
    requires l in t
  {
    if l == prog.cfg.entry then t[l].pre
    else if l in prog.cfg.parents
            && (forall u :: u in prog.cfg.parents[l] ==> u in t) then JoinPosts(dom, t, prog.cfg.parents[l])
    else dom.bottom
  }

  lemma {:induction false} JoinPostsOnly<D, S, A>(
    dom: Domain<D, S, A>, t: Table<D>, t': Table<D>, labels: seq<Label>)
    requires forall l :: l in labels ==> l in t && l in t' && t'[l].post == t[l].post
    ensures JoinPosts(dom, t', labels) == JoinPosts(dom, t, labels)
  {
    if labels != [] {
      JoinPostsOnly(dom, t, t', labels[..|labels| - 1]);
    }
  }

  /** What arrives at a label other than the entry does not depend on its own pre. */
  lemma {:induction false} CollectedFromPosts<D, S, A>(
    prog: Program<A>, dom: Domain<D, S, A>, t: Table<D>, l: Label, pre: D)
    requires l in t && l != prog.cfg.entry
    ensures Collected(prog, dom, t[l := t[l].(pre := pre)], l) == Collected(prog, dom, t, l)
  {
    if l in prog.cfg.parents && forall u :: u in prog.cfg.parents[l] ==> u in t {
      JoinPostsOnly(dom, t, t[l := t[l].(pre := pre)], prog.cfg.parents[l]);
    }
  }

  /** The parents of `head` that do not lie deeper than it. */
  ghost function OuterParents(w: WeakOrder.Wto, parents: seq<Label>, head: Label): (r: seq<Label>)
    ensures forall u :: u in r ==> u in parents
  {
    if parents == [] then []
    else
      var n := |parents| - 1;
      OuterParents(w, parents[..n], head)
      + if Nesting.Deeper(Nesting.Enclosing(w, parents[n]), Nesting.Enclosing(w, head)) then [] else [parents[n]]
  }

  /** The value from which the iteration of a cycle starts. */
  ghost function StartValue<D, S, A>(
    prog: Program<A>, dom: Domain<D, S, A>, w: WeakOrder.Wto, t: Table<D>, head: Label): D {
    if head in prog.cfg.parents && forall u :: u in prog.cfg.parents[head] ==> u in t then
      JoinPosts(dom, t, OuterParents(w, prog.cfg.parents[head], head))
    else dom.bottom
  }

  /** The head's final pre comes from `start` by the ascending phase, whose last pass settled, and the
      descending phase, which stops when the last pass collects nothing smaller or the limit is reached. */
  ghost predicate CycleValue<D(!new), S, A>(
    prog: Program<A>, dom: Domain<D, S, A>, start: D, up: seq<D>, down: seq<D>, t: Table<D>, head: Label) {
    && Rising(dom, start, up) && head in t
    && (dom.leq(t[head].pre, Collected(prog, dom, t, head)) || |down| == DESCENDING_ITERATIONS)
    && exists top :: dom.leq(top, AscendTo(dom, start, up)) && Falling(dom, top, down)
                     && t[head].pre == DescendTo(dom, top, down)
  }

  lemma {:induction false} OuterParentsStep(w: WeakOrder.Wto, parents: seq<Label>, i: nat, head: Label)
    requires i < |parents|
    ensures OuterParents(w, parents[..i + 1], head) ==
            if Nesting.Deeper(Nesting.Enclosing(w, parents[i]), Nesting.Enclosing(w, head))
            then OuterParents(w, parents[..i], head)
            else OuterParents(w, parents[..i], head) + [parents[i]]
  {
    assert parents[..i + 1][..i] == parents[..i];
  }

  lemma {:induction false} JoinOneMore<D, S, A>(dom: Domain<D, S, A>, t: Table<D>, labels: seq<Label>, l: Label)
    requires forall x :: x in labels + [l] ==> x in t
    ensures JoinPosts(dom, t, labels + [l]) == dom.join(JoinPosts(dom, t, labels), t[l].post)
  {
    assert (labels + [l])[..|labels|] == labels;
  }

  lemma {:induction false} NoOuterParents<D, S, A>(
    dom: Domain<D, S, A>, t: Table<D>, w: WeakOrder.Wto, parents: seq<Label>, head: Label)
    requires parents == []
    ensures OuterParents(w, parents, head) == [] && JoinPosts(dom, t, []) == dom.bottom
  {
  }

  /** The value a cycle starts from takes nothing from the cycle's own members but its head. */
  lemma {:induction false} MembersAreNotOuter(g: Cfg, w: WeakOrder.Wto, parents: seq<Label>, head: Label, l: Label)
    requires WeakOrder.Valid(g, w) && Nesting.StrictlyInside(w.components, head, l)
    ensures l !in OuterParents(w, parents, head)
  {
    if parents != [] {
      Nesting.MembersCompareDeeper(g, w, head, l);
      MembersAreNotOuter(g, w, parents[..|parents| - 1], head, l);
    }
  }

  lemma {:induction false} StartTraced<D(!new), S, A(!new)>(
    prog: Program<A>, dom: Domain<D, S, A>, entryInv: D, t: Table<D>)
    requires forall l ::
               l in t ==> t[l] == InvariantPair(if l == prog.cfg.entry then entryInv else dom.bottom, false, dom.bottom)
    ensures Traced(prog, dom, entryInv, t, map[])
  {
    forall l ensures Derivable(prog, dom, entryInv, l, dom.bottom) {
      DerivedBottom(prog, dom, entryInv, l);
    }
    DerivedOrigin(prog, dom, entryInv);
    hide Derivable;
  }

  lemma {:induction false} OkUpdate<D(!new), S(!new), A(!new)>(
    z: Setup<D, S, A>, t: Table<D>, failed: bool, l: Label, p: InvariantPair<D>, failed': bool)
    requires Ok(z, t, failed) && l in t
    requires l == z.prog.cfg.entry ==> p.pre == t[l].pre
    requires (t[l].error ==> p.error) && (failed' <==> failed || (p.error && !t[l].error))
    ensures Ok(z, t[l := p], failed')
  {
    assert t[l].error ==> HasError(t);
    hide Sound, HasError, Cfg.WellFormed;
    ErrorUpdate(t, l, p);
  }

  lemma {:induction false} ErrorUpdate<D>(t: Table<D>, l: Label, p: InvariantPair<D>)
    requires l in t && (t[l].error ==> p.error)
    ensures HasError(t[l := p]) <==> p.error || HasError(t)
  {
    var t' := t[l := p];
    if x :| x in t && t[x].error {
      assert t'[x].error;
    }
    if p.error {
      assert t'[l].error;
    }
  }

  class FixpointIterator<D(!new), S(!new), A(!new)> {
    const prog: Program<A>
    const dom: Domain<D, S, A>
    ghost const init: S -> bool
    const cache: Nesting.NestingCache
    ghost const origin: D
    var invariants: Table<D>
    var failed: bool
    var skip: bool
    ghost var failing: map<Label, D>

    ghost function Z(): Setup<D, S, A> {
      Setup(prog, dom, init)
    }

    ghost predicate Valid()
      reads this`invariants, this`failed, this`failing, cache
    {
      Ok(Z(), invariants, failed) && Traced(prog, dom, origin, invariants, failing) && cache.Valid()
      && cache.cfg == prog.cfg
    }

    /** The value arises at the label from what the analysis started with. */
    ghost predicate Derived(l: Label, d: D) {
      Derivable(prog, dom, origin, l, d)
    }

    /** What proofs about whole passes need to know of a valid iterator. */
    lemma {:induction false} Facts()
      requires Valid()
      ensures Tabled(Z(), invariants) && LatticeSound(dom) && SemanticsSound(dom) && WideningTerminates(dom)
      ensures invariants.Keys == prog.cfg.children.Keys && prog.cfg.entry in invariants
    {
    }

    lemma {:induction false} GraphFacts()
      requires Valid()
      ensures prog.cfg.WellFormed() && invariants.Keys == prog.cfg.children.Keys == prog.assertions.Keys
    {
    }

    lemma {:induction false} FailedIffError()
      requires Valid()
      ensures failed <==> HasError(invariants)
    {
    }

    lemma {:induction false} FailureHasCause()
      requires Valid()
      ensures FailuresCaused(prog, dom, origin, invariants, failing)
    {
      hide Fails, Derivable;
      forall l | l in invariants && invariants[l].error
        ensures l in failing && Fails(prog, dom, origin, l, failing[l]) {
        TracedParts(prog, dom, origin, invariants, failing, l);
      }
    }

    lemma {:induction false} ValuesDerived(l: Label)
      requires Valid() && l in invariants
      ensures Derived(l, invariants[l].pre)
      ensures forall v :: prog.cfg.Edge(l, v) ==> Derived(v, invariants[l].post)
    {
      hide Derivable;
      TracedParts(prog, dom, origin, invariants, failing, l);
    }

    lemma {:induction false} ErrorFails(l: Label)
      requires Valid() && l in invariants
      ensures invariants[l].error ==> failed
    {
    }

    lemma {:induction false} EntryCovers()
      requires Valid()
      ensures prog.cfg.entry in invariants && forall s :: init(s) ==> dom.gamma(invariants[prog.cfg.entry].pre, s)
    {
    }

    /** Joining the posts of parents of `l` derives a value for `l`. */
    lemma {:induction false} JoinDerived(labels: seq<Label>, l: Label)
      requires Valid() && forall u :: u in labels ==> u in invariants && prog.cfg.Edge(u, l)
      ensures (forall u :: u in labels ==> u in invariants) && Derived(l, JoinPosts(dom, invariants, labels))
    {
      hide Valid, Derivable, Cfg.Edge;
      if labels == [] {
        DerivedBottom(prog, dom, origin, l);
      } else {
        var n := |labels| - 1;
        JoinDerived(labels[..n], l);
        ValuesDerived(labels[n]);
        DerivedBoth(prog, dom, origin, l, JoinPosts(dom, invariants, labels[..n]), invariants[labels[n]].post, false);
      }
    }

    lemma {:induction false} StepsDerived(l: Label, a: D, b: D, iteration: nat)
      requires Derived(l, a) && Derived(l, b)
      ensures Derived(l, Extrapolate(dom, a, b, iteration)) && Derived(l, Refine(dom, a, b, iteration))
    {
      hide Derivable;
      DerivedBoth(prog, dom, origin, l, a, b, iteration == WIDENING_DELAY);
    }

    constructor (prog: Program<A>, dom: Domain<D, S, A>, ghost init: S -> bool, entryInv: D,
                 cache: Nesting.NestingCache)
      requires prog.WellFormed() && Sound(dom) && cache.Valid() && cache.cfg == prog.cfg
      requires forall s :: init(s) ==> dom.gamma(entryInv, s)
      ensures Valid() && this.prog == prog && this.dom == dom && this.init == init && this.cache == cache
      ensures !failed && skip && origin == entryInv
    {
      this.prog := prog;
      this.dom := dom;
      this.init := init;
      this.cache := cache;
      var empty := InvariantPair(dom.bottom, false, dom.bottom);
      invariants := (map l | l in prog.cfg.children :: empty)[prog.cfg.entry := empty.(pre := entryInv)];
      failed := false;
      skip := true;
      origin := entryInv;
      failing := map[];
      new;
      StartTraced(prog, dom, entryInv, invariants);
    }

    method SetPre(l: Label, d: D)
      requires Valid() && l in invariants
      requires l == prog.cfg.entry ==> d == invariants[l].pre
      requires Derived(l, d)
      modifies this`invariants
      ensures Valid()
      ensures invariants == old(invariants)[l := old(invariants)[l].(pre := d)]
      ensures SameOutside(old(invariants), invariants, {l})
    {
      hide Ok, Nesting.NestingCache.Valid, Traced, Derivable, Fails;
      TracedParts(prog, dom, origin, invariants, failing, l);
      TracedUpdate(prog, dom, origin, invariants, failing, l, invariants[l].(pre := d));
      OkUpdate(Z(), invariants, failed, l, invariants[l].(pre := d), failed);
      invariants := invariants[l := invariants[l].(pre := d)];
    }

    /** Records an error at `l`, caused by `d`. */
    method SetError(l: Label, ghost d: D)
      requires Valid() && l in invariants && Fails(prog, dom, origin, l, d)
      modifies this`invariants, this`failed, this`failing
      ensures Valid() && failed && failing == old(failing)[l := d]
      ensures invariants == old(invariants)[l := old(invariants)[l].(error := true)]
      ensures SameOutside(old(invariants), invariants, {l})
    {
      hide Ok, Nesting.NestingCache.Valid, Traced, Fails;
      ErrorFails(l);
      OkUpdate(Z(), invariants, failed, l, invariants[l].(error := true), true);
      TracedFailure(prog, dom, origin, invariants, failing, l, d);
      failed := true;
      failing := failing[l := d];
      invariants := invariants[l := invariants[l].(error := true)];
    }

    method SetPost(l: Label, d: D)
      requires Valid() && l in invariants && DerivesPost(prog, dom, origin, l, d)
      modifies this`invariants
      ensures Valid()
      ensures invariants == old(invariants)[l := old(invariants)[l].(post := d)]
      ensures SameOutside(old(invariants), invariants, {l})
    {
      hide Ok, Nesting.NestingCache.Valid, Traced, Derivable, DerivesPost, Fails;
      TracedParts(prog, dom, origin, invariants, failing, l);
      TracedUpdate(prog, dom, origin, invariants, failing, l, invariants[l].(post := d));
      OkUpdate(Z(), invariants, failed, l, invariants[l].(post := d), failed);
      invariants := invariants[l := invariants[l].(post := d)];
    }

    /** Whether `pre` passes every assertion of `l`. */
    method CheckAssertions(l: Label, pre: D) returns (ok: bool)
      requires l in prog.assertions
      ensures ok <==> forall p :: p in prog.assertions[l] ==> dom.check(l, p, pre)
    {
      var i := 0;
      while i < |prog.assertions[l]|
        invariant 0 <= i <= |prog.assertions[l]|
        invariant forall j :: 0 <= j < i ==> dom.check(l, prog.assertions[l][j], pre)
      {
        if !dom.check(l, prog.assertions[l][i], pre) {
          return false;
        }
        i := i + 1;
      }
      return true;
    }

    /** Checks the assertions of `l` against `pre` and stores the transformed value; an error keeps the
        old post and fails the analysis. */
    method TransformToPost(l: Label, pre: D)
      requires Valid() && l in invariants && Derived(l, pre)
      modifies this`invariants, this`failed, this`failing
      ensures Valid()
      ensures SameOutside(old(invariants), invariants, {l}) && invariants[l].pre == old(invariants[l].pre)
      ensures l in prog.assertions
              && invariants == old(invariants)[l := Attempted(prog, dom, l, old(invariants[l]), pre)]
      ensures failed == (old(failed) || invariants[l].error)
      ensures failing == if invariants[l].error
                            && !old(invariants[l].error) then old(failing)[l := pre] else old(failing)
      ensures !failed ==> Applied(Z(), invariants, l, pre)
    {
      hide Valid, Attempted, Derivable, DerivesPost, LatticeSound, SemanticsSound, WideningTerminates, Applied,
        Tabled, Cfg.WellFormed;
      Facts();
      GraphFacts();
      ErrorFails(l);
      ghost var before := invariants;
      AttemptedCases(prog, dom, l, before[l], pre);
      if l !in prog.counters {
        if invariants[l].error {
          assert invariants == before[l := before[l]];
          return;
        }
        var ok := CheckAssertions(l, pre);
        if !ok {
          assert Fails(prog, dom, origin, l, pre);
          SetError(l, pre);
          return;
        }
      }
      DerivedPost(prog, dom, origin, l, pre);
      SetPost(l, dom.transform(l, pre));
      TransformApplies(Z(), invariants, l, pre);
    }

    /** The join of the posts of all parents; the entry keeps its own pre. */
    method JoinAllPrevs(l: Label) returns (res: D)
      requires Valid() && l in invariants
      ensures res == Collected(prog, dom, invariants, l) && Derived(l, res)
      ensures l == prog.cfg.entry ==> res == invariants[l].pre
      ensures l != prog.cfg.entry ==> Collects(Z(), invariants, l, res)
    {
      hide Valid, Derived, LatticeSound, SemanticsSound, WideningTerminates, Cfg.WellFormed, Tabled, Collects;
      Facts();
      GraphFacts();
      if l == prog.cfg.entry {
        ValuesDerived(l);
        return invariants[l].pre;
      }
      ParentsAreEdges(prog.cfg, l);
      res := dom.bottom;
      var parents := prog.cfg.parents[l];
      var i := 0;
      while i < |parents|
        invariant 0 <= i <= |parents|
        invariant res == JoinPosts(dom, invariants, parents[..i])
      {
        assert parents[..i + 1][..i] == parents[..i];
        res := dom.join(res, invariants[parents[i]].post);
        i := i + 1;
      }
      assert parents[..i] == parents;
      JoinPostsCollect(Z(), invariants, l);
      JoinDerived(parents, l);
    }

    method VisitVertex(l: Label)
      requires Valid() && l in invariants
      modifies this`invariants, this`failed, this`failing, this`skip
      ensures Valid()
      ensures SameOutside(old(invariants), invariants, {l}) && (old(failed) ==> failed)
      ensures skip == (old(skip) && l != prog.cfg.entry)
      ensures skip ==> invariants == old(invariants) && failed == old(failed)
      ensures !skip && l in prog.assertions ==>
                var pre := Collected(prog, dom, old(invariants), l);
                invariants == old(invariants)[l := Attempted(prog, dom, l, old(invariants)[l].(pre := pre), pre)]
      ensures !failed && !skip && !prog.cfg.Edge(l, l) ==> Closed(Z(), invariants, {l})
    {
      hide Derived, Valid, LatticeSound, SemanticsSound, WideningTerminates, Closed, Applied, Collects, Collected,
        Tabled,
        Attempted, Cfg.WellFormed, SameOutside;
      Facts();
      SameRefl(invariants, {l});
      if skip && l == prog.cfg.entry {
        skip := false;
      }
      if skip {
        return;
      }
      var pre := JoinAllPrevs(l);
      ghost var before := invariants;
      SetPre(l, pre);
      ghost var prepared := invariants;
      TransformToPost(l, pre);
      SameTrans(before, prepared, invariants, {l}, {l});
      if !failed && !prog.cfg.Edge(l, l) {
        Facts();
        EntryCovers();
        if l != prog.cfg.entry {
          CollectsKept(Z(), before, invariants, l, pre, {l});
        }
        VertexClosed(Z(), invariants, l);
      }
    }

    /** Visits a single label or a cycle. */
    method VisitComponent(c: Component, ghost context: set<Label>)
      requires Valid() && VisitableComponent(prog.cfg, c, context)
      requires c.Cycle? ==> prog.cfg.entry !in MembersOf(c)
      modifies this`invariants, this`failed, this`failing, this`skip, cache
      ensures Valid()
      ensures SameOutside(old(invariants), invariants, MembersOf(c)) && (old(failed) ==> failed)
      ensures skip == (old(skip) && prog.cfg.entry !in MembersOf(c))
      ensures !failed && !skip && (c.Vertex? ==> !prog.cfg.Edge(c.at, c.at)) ==> Closed(Z(), invariants, MembersOf(c))
      decreases c, 2
    {
      hide LatticeSound, SemanticsSound, WideningTerminates, Closed;
      match c
      case Vertex(l) =>
        assert OrderOf(c) == [l];
        assert MembersOf(c) == {l};
        VisitVertex(l);
      case Cycle(cs) =>
        ghost var start, up, down := VisitCycle(cs, context);
    }

    /** Visits one component of a cycle unless it is the head. */
    method VisitMember(cs: seq<Component>, i: nat, ghost context: set<Label>)
      requires Valid() && VisitableComponent(prog.cfg, Cycle(cs), context)
      requires prog.cfg.entry !in Members(cs) && !skip && i < |cs| - 1
      modifies this`invariants, this`failed, this`failing, this`skip, cache
      ensures Valid() && !skip
      ensures SameOutside(old(invariants), invariants, MembersOf(cs[i])) && (old(failed) ==> failed)
      ensures !failed ==> Closed(Z(), invariants, MembersOf(cs[i]))
      decreases cs, 0
    {
      hide Valid, Closed, Ordered, OrderedComponent, Tabled;
      BodyVisitable(prog.cfg, cs, context);
      ghost var before := context + {Head(cs)} + Members(Body(cs)[..i]);
      MemberVisitable(prog.cfg, cs, context, i);
      if !(cs[i].Vertex? && cs[i].at == Head(cs)) {
        VisitComponent(cs[i], before);
      }
    }

    /** Visits the components of a cycle other than its head, in reading order. */
    method VisitBody(cs: seq<Component>, ghost context: set<Label>)
      requires Valid() && VisitableComponent(prog.cfg, Cycle(cs), context)
      requires prog.cfg.entry !in Members(cs) && !skip
      modifies this`invariants, this`failed, this`failing, this`skip, cache
      ensures Valid() && !skip
      ensures SameOutside(old(invariants), invariants, Members(Body(cs))) && (old(failed) ==> failed)
      ensures !failed ==> Closed(Z(), invariants, Members(Body(cs)))
      decreases cs, 1
    {
      hide Valid, LatticeSound, SemanticsSound, WideningTerminates, Closed, Tabled, Visitable, VisitableComponent,
        Rest, SameOutside, Cfg.WellFormed, Members, MembersOf, Order;
      Facts();
      BodyVisitable(prog.cfg, cs, context);
      SameRefl(invariants, Members(Body(cs)));
      ghost var body, inner := Body(cs), context + {Head(cs)};
      var i := |cs| - 1;
      RestEnds(prog.cfg, body, inner);
      ClosedEmpty(Z(), invariants);
      while i > 0
        invariant 0 <= i <= |body|
        invariant Valid() && !skip && (old(failed) ==> failed) && Tabled(Z(), invariants)
        invariant SameOutside(old(invariants), invariants, Members(body))
        invariant !failed ==> Closed(Z(), invariants, Rest(body, i))
      {
        i := i - 1;
        ghost var before := invariants;
        MemberWithin(prog.cfg, body, inner, i);
        VisitMember(cs, i, context);
        Facts();
        SameTrans(old(invariants), before, invariants, MembersOf(body[i]), Members(body));
        if !failed {
          PartitionGrows(Z(), before, invariants, body, inner, i);
        }
      }
    }

    method NestingOf(l: Label) returns (heads: seq<Label>)
      requires Valid()
      modifies cache
      ensures Valid() && heads == Nesting.Enclosing(cache.wto, l)
    {
      hide Ok, Nesting.Enclosing;
      heads := cache.Nesting(l);
    }

    /** Joins the post of one parent unless the parent lies deeper than the head. */
    method JoinOuter(head: Label, cycleNesting: seq<Label>, parents: seq<Label>, i: nat, d: D) returns (res: D)
      requires Valid() && i < |parents| && cycleNesting == Nesting.Enclosing(cache.wto, head)
      requires forall u :: u in parents ==> u in invariants
      requires d == JoinPosts(dom, invariants, OuterParents(cache.wto, parents[..i], head))
      modifies cache
      ensures Valid()
      ensures res == JoinPosts(dom, invariants, OuterParents(cache.wto, parents[..i + 1], head))
    {
      hide Valid, Nesting.Enclosing, Nesting.Deeper, JoinPosts, OuterParents;
      res := d;
      var nesting := NestingOf(parents[i]);
      var deeper := Nesting.Greater(nesting, cycleNesting);
      OuterParentsStep(cache.wto, parents, i, head);
      if !deeper {
        JoinOneMore(dom, invariants, OuterParents(cache.wto, parents[..i], head), parents[i]);
        res := dom.join(d, invariants[parents[i]].post);
      }
    }

    /** The value a cycle starts from: the posts of the parents that do not lie deeper than the head. */
    method FirstInvariant(head: Label) returns (d: D)
      requires Valid() && head in invariants
      modifies cache
      ensures Valid() && d == StartValue(prog, dom, cache.wto, invariants, head) && Derived(head, d)
    {
      hide Valid, Derived, Nesting.Enclosing, Nesting.Deeper, Cfg.WellFormed, JoinPosts, OuterParents;
      GraphFacts();
      ParentsAreEdges(prog.cfg, head);
      d := dom.bottom;
      var cycleNesting := NestingOf(head);
      var parents := prog.cfg.parents[head];
      NoOuterParents(dom, invariants, cache.wto, parents[..0], head);
      var i := 0;
      while i < |parents|
        invariant 0 <= i <= |parents|
        invariant Valid() && cycleNesting == Nesting.Enclosing(cache.wto, head)
        invariant d == JoinPosts(dom, invariants, OuterParents(cache.wto, parents[..i], head))
      {
        d := JoinOuter(head, cycleNesting, parents, i, d);
        i := i + 1;
      }
      assert parents[..i] == parents;
      JoinDerived(OuterParents(cache.wto, parents, head), head);
    }

    /** One pass over the cycle from the value `d` at its head; returns what the head's parents then
        contribute. */
    method Pass(cs: seq<Component>, d: D, ghost context: set<Label>) returns (newPre: D)
      requires Valid() && VisitableComponent(prog.cfg, Cycle(cs), context)
      requires prog.cfg.entry !in Members(cs) && !skip && Derived(Head(cs), d)
      modifies this`invariants, this`failed, this`failing, this`skip, cache
      ensures Valid() && !skip
      ensures SameOutside(old(invariants), invariants, Members(cs)) && (old(failed) ==> failed)
      ensures invariants[Head(cs)].pre == old(invariants[Head(cs)].pre)
      ensures Collects(Z(), invariants, Head(cs), newPre) && Derived(Head(cs), newPre)
      ensures newPre == Collected(prog, dom, invariants, Head(cs))
      ensures !failed ==> Applied(Z(), invariants, Head(cs), d) && Closed(Z(), invariants, Members(Body(cs)))
      decreases cs, 2
    {
      hide Derived, Valid, LatticeSound, SemanticsSound, WideningTerminates, Closed, Applied, Collects, Collected,
        Tabled,
        Attempted, VisitableComponent, Visitable, Cfg.WellFormed, Order;
      Facts();
      BodyVisitable(prog.cfg, cs, context);
      var head := Head(cs);
      TransformToPost(head, d);
      ghost var before := invariants;
      VisitBody(cs, context);
      Facts();
      if !failed {
        AppliedKept(Z(), before, invariants, head, d, Members(Body(cs)));
      }
      newPre := JoinAllPrevs(head);
    }

    /** A pass that first stores `d` as the head's pre. */
    method PassFrom(cs: seq<Component>, d: D, ghost context: set<Label>) returns (newPre: D)
      requires Valid() && VisitableComponent(prog.cfg, Cycle(cs), context)
      requires prog.cfg.entry !in Members(cs) && !skip && Derived(Head(cs), d)
      modifies this`invariants, this`failed, this`failing, this`skip, cache
      ensures Valid() && !skip
      ensures SameOutside(old(invariants), invariants, Members(cs)) && (old(failed) ==> failed)
      ensures Collects(Z(), invariants, Head(cs), newPre) && Derived(Head(cs), newPre)
      ensures newPre == Collected(prog, dom, invariants, Head(cs))
      ensures !failed ==> Applied(Z(), invariants, Head(cs), d) && Closed(Z(), invariants, Members(Body(cs)))
      decreases cs, 3
    {
      hide Derived, Valid, LatticeSound, SemanticsSound, WideningTerminates, Closed, Applied, Collects, Tabled,
        VisitableComponent, Visitable, SameOutside, Cfg.WellFormed, Members, Order;
      Facts();
      BodyVisitable(prog.cfg, cs, context);
      SetPre(Head(cs), d);
      SameRefl(old(invariants), Members(cs));
      SameTrans(old(invariants), old(invariants), invariants, {Head(cs)}, Members(cs));
      ghost var prepared := invariants;
      newPre := Pass(cs, d, context);
      SameTrans(old(invariants), prepared, invariants, Members(cs), Members(cs));
    }

    method VisitCycle(cs: seq<Component>, ghost context: set<Label>)
      returns (ghost start: D, ghost up: seq<D>, ghost down: seq<D>)
      requires Valid() && VisitableComponent(prog.cfg, Cycle(cs), context)
      requires prog.cfg.entry !in Members(cs)
      modifies this`invariants, this`failed, this`failing, this`skip, cache
      ensures Valid() && skip == old(skip)
      ensures SameOutside(old(invariants), invariants, Members(cs)) && (old(failed) ==> failed)
      ensures !failed && !skip ==> Closed(Z(), invariants, Members(cs))
      ensures skip ==> invariants == old(invariants) && failed == old(failed)
      ensures !skip ==> CycleValue(prog, dom, start, up, down, invariants, Head(cs))
      ensures !skip ==> start == StartValue(prog, dom, cache.wto, old(invariants), Head(cs))
      decreases cs, 5
    {
      hide Derived, Valid, LatticeSound, SemanticsSound, WideningTerminates, Closed, HeadIn, Tabled,
        Cfg.WellFormed, VisitableComponent;
      Facts();
      BodyVisitable(prog.cfg, cs, context);
      start, up, down := dom.bottom, [], [];
      var head := Head(cs);
      var entryPre := invariants[prog.cfg.entry].pre;
      var entryInThisCycle := false;
      if skip {
        entryInThisCycle := IsComponentMember(prog.cfg.entry, Cycle(cs));
        skip := !entryInThisCycle;
        if skip {
          return;
        }
      }
      var d := dom.bottom;
      if entryInThisCycle {
        d := entryPre;
      } else {
        d := FirstInvariant(head);
      }
      start := d;
      d, up := Ascend(cs, d, context);
      down := Descend(cs, d, context);
    }

    /** Stores the value at which the ascending phase stops. */
    method AcceptHead(cs: seq<Component>, ghost d: D, newPre: D, ghost context: set<Label>)
      requires Valid() && VisitableComponent(prog.cfg, Cycle(cs), context) && prog.cfg.entry !in Members(cs)
      requires dom.leq(newPre, d) && Collects(Z(), invariants, Head(cs), newPre) && Derived(Head(cs), newPre)
      requires !failed ==> Applied(Z(), invariants, Head(cs), d) && Closed(Z(), invariants, Members(Body(cs)))
      modifies this`invariants
      ensures Valid() && SameOutside(old(invariants), invariants, Members(cs)) && invariants[Head(cs)].pre == newPre
      ensures Collected(prog, dom, invariants, Head(cs)) == Collected(prog, dom, old(invariants), Head(cs))
      ensures !failed ==> HeadIn(Z(), invariants, Members(cs), Head(cs), newPre)
    {
      hide Derived, Valid, LatticeSound, SemanticsSound, WideningTerminates, Closed, Applied, Collects, HeadIn, Tabled,
        VisitableComponent, Visitable, SameOutside, Cfg.WellFormed, Members, Order;
      Facts();
      BodyVisitable(prog.cfg, cs, context);
      ghost var before := invariants;
      SetPre(Head(cs), newPre);
      CollectedFromPosts(prog, dom, before, Head(cs), newPre);
      SameRefl(before, Members(cs));
      SameTrans(before, before, invariants, {Head(cs)}, Members(cs));
      if !failed {
        AscendEnd(Z(), before, invariants, cs, d, newPre);
      }
    }

    /** Increasing iteration with widening, until the head's new value is below the old one. */
    method Ascend(cs: seq<Component>, start: D, ghost context: set<Label>) returns (d: D, ghost tried: seq<D>)
      requires Valid() && VisitableComponent(prog.cfg, Cycle(cs), context)
      requires prog.cfg.entry !in Members(cs) && !skip && Derived(Head(cs), start)
      modifies this`invariants, this`failed, this`failing, this`skip, cache
      ensures Valid() && !skip
      ensures SameOutside(old(invariants), invariants, Members(cs)) && (old(failed) ==> failed)
      ensures invariants[Head(cs)].pre == d && Derived(Head(cs), d)
      ensures d == Collected(prog, dom, invariants, Head(cs))
      ensures Rising(dom, start, tried) && dom.leq(d, AscendTo(dom, start, tried))
      ensures !failed ==> HeadIn(Z(), invariants, Members(cs), Head(cs), d)
      decreases cs, 4
    {
      hide Derived, Valid, LatticeSound, SemanticsSound, WideningTerminates, Extrapolate, Closed, Applied,
        Collects, HeadIn, Tabled,
        VisitableComponent, Visitable, SameOutside, Cfg.WellFormed, Members, Order, Rising, AscendTo;
      Facts();
      SameRefl(invariants, Members(cs));
      BodyVisitable(prog.cfg, cs, context);
      var head := Head(cs);
      d := start;
      tried := [];
      NothingTried(dom, start);
      var iteration: nat := 1;
      while true
        invariant iteration == |tried| + 1 && Rising(dom, start, tried) && d == AscendTo(dom, start, tried)
        invariant Valid() && !skip && (old(failed) ==> failed) && Tabled(Z(), invariants)
        invariant SameOutside(old(invariants), invariants, Members(cs)) && Derived(head, d)
        decreases if iteration <= WIDENING_DELAY then 1 + WIDENING_DELAY - iteration else 0, dom.rank(d).0,
                  dom.rank(d).1
      {
        Facts();
        ghost var entered := invariants;
        var newPre := PassFrom(cs, d, context);
        SameTrans(old(invariants), entered, invariants, Members(cs), Members(cs));
        Facts();
        if dom.leq(newPre, d) {
          ghost var before := invariants;
          AcceptHead(cs, d, newPre, context);
          SameTrans(old(invariants), before, invariants, Members(cs), Members(cs));
          d := newPre;
          break;
        }
        ExtrapolateDrops(dom, d, newPre, iteration);
        RisesOn(dom, start, tried, newPre);
        StepsDerived(head, d, newPre, iteration);
        d := Extrapolate(dom, d, newPre, iteration);
        tried := tried + [newPre];
        iteration := iteration + 1;
      }
    }

    /** Decreasing iteration with narrowing, bounded in length. */
    method Descend(cs: seq<Component>, start: D, ghost context: set<Label>) returns (ghost tried: seq<D>)
      requires Valid() && VisitableComponent(prog.cfg, Cycle(cs), context)
      requires prog.cfg.entry !in Members(cs) && !skip && Derived(Head(cs), start)
      requires invariants[Head(cs)].pre == start
      requires !failed ==> HeadIn(Z(), invariants, Members(cs), Head(cs), start)
      modifies this`invariants, this`failed, this`failing, this`skip, cache
      ensures Valid() && !skip
      ensures SameOutside(old(invariants), invariants, Members(cs)) && (old(failed) ==> failed)
      ensures Falling(dom, start, tried) && invariants[Head(cs)].pre == DescendTo(dom, start, tried)
      ensures dom.leq(DescendTo(dom, start, tried), Collected(prog, dom, invariants, Head(cs)))
              || |tried| == DESCENDING_ITERATIONS
      ensures !failed ==> Closed(Z(), invariants, Members(cs))
      decreases cs, 3
    {
      hide Derived, Valid, LatticeSound, SemanticsSound, WideningTerminates, Closed, Applied, Collects, HeadIn, Tabled,
        VisitableComponent, Visitable, SameOutside, Cfg.WellFormed, Members, Order, Falling, DescendTo;
      Facts();
      SameRefl(invariants, Members(cs));
      BodyVisitable(prog.cfg, cs, context);
      var head := Head(cs);
      var d := start;
      tried := [];
      NothingTried(dom, start);
      var iteration: nat := 1;
      while true
        invariant 1 <= iteration <= DESCENDING_ITERATIONS + 1
        invariant iteration == |tried| + 1 && Falling(dom, start, tried) && d == DescendTo(dom, start, tried)
        invariant Valid() && !skip && (old(failed) ==> failed) && Tabled(Z(), invariants)
        invariant SameOutside(old(invariants), invariants, Members(cs)) && Derived(head, d)
        invariant head in invariants && invariants[head].pre == d
        invariant !failed ==> HeadIn(Z(), invariants, Members(cs), head, d)
        decreases DESCENDING_ITERATIONS + 1 - iteration
      {
        ghost var before := invariants;
        var newPre := Pass(cs, d, context);
        Facts();
        SameTrans(old(invariants), before, invariants, Members(cs), Members(cs));
        if dom.leq(d, newPre) || iteration > DESCENDING_ITERATIONS {
          if !failed {
            DescendEnd(Z(), before, invariants, cs);
          }
          break;
        }
        ghost var passed := invariants;
        ghost var wider := d;
        FallsOn(dom, start, tried, newPre);
        StepsDerived(head, d, newPre, iteration);
        d := Refine(dom, d, newPre, iteration);
        tried := tried + [newPre];
        SetPre(head, d);
        Facts();
        SameTrans(old(invariants), passed, invariants, {head}, Members(cs));
        if !failed {
          DescendStep(Z(), before, passed, invariants, cs, wider, newPre, iteration);
        }
        iteration := iteration + 1;
      }
    }
  }

  // ----- helpers -----

  lemma {:induction false} NothingTried<D, S, A>(dom: Domain<D, S, A>, start: D)
    ensures Rising(dom, start, []) && AscendTo(dom, start, []) == start
    ensures Falling(dom, start, []) && DescendTo(dom, start, []) == start
  {
  }

  lemma {:induction false} SameRefl<D>(t: Table<D>, region: set<Label>)
    ensures SameOutside(t, t, region)
  {
  }

  lemma {:induction false} SameTrans<D>(t: Table<D>, t': Table<D>, t'': Table<D>, part: set<Label>, region: set<Label>)
    requires SameOutside(t, t', region) && SameOutside(t', t'', part) && part <= region
    ensures SameOutside(t, t'', region)
  {
  }

  /** From the third pass on, every extrapolation lowers the rank. */
  lemma {:induction false} ExtrapolateDrops<D(!new), S, A>(dom: Domain<D, S, A>, before: D, after: D, iteration: nat)
    requires WideningTerminates(dom) && !dom.leq(after, before)
    ensures iteration > WIDENING_DELAY ==>
              RankBelow(dom.rank(Extrapolate(dom, before, after, iteration)), dom.rank(before))
  {
  }

  lemma {:induction false} JoinPostsCover<D(!new), S(!new), A>(
    dom: Domain<D, S, A>, t: Table<D>, labels: seq<Label>, u: Label, s: S)
    requires LatticeSound(dom) && (forall l :: l in labels ==> l in t) && u in labels && dom.gamma(t[u].post, s)
    ensures dom.gamma(JoinPosts(dom, t, labels), s)
  {
    var n := |labels| - 1;
    JoinCovers(dom, JoinPosts(dom, t, labels[..n]), t[labels[n]].post);
    if u != labels[n] {
      JoinPostsCover(dom, t, labels[..n], u, s);
    }
  }

  lemma {:induction false} JoinPostsCollect<D(!new), S(!new), A(!new)>(z: Setup<D, S, A>, t: Table<D>, l: Label)
    requires Tabled(z, t) && LatticeSound(z.dom) && l in z.prog.cfg.parents && forall u ::
               u in z.prog.cfg.parents[l] ==> u in t
    ensures Collects(z, t, l, JoinPosts(z.dom, t, z.prog.cfg.parents[l]))
  {
    hide LatticeSound;
    forall u, s | z.prog.cfg.Edge(u, l) && u in t && z.dom.gamma(t[u].post, s)
      ensures z.dom.gamma(JoinPosts(z.dom, t, z.prog.cfg.parents[l]), s)
    {
      JoinPostsCover(z.dom, t, z.prog.cfg.parents[l], u, s);
    }
  }

  lemma {:induction false} ParentsAreEdges(g: Cfg, l: Label)
    requires g.WellFormed() && l in g.children
    ensures l in g.parents && forall u :: u in g.parents[l] <==> g.Edge(u, l)
    ensures forall u :: u in g.parents[l] ==> u in g.children
  {
  }

  lemma {:induction false} TransformApplies<D(!new), S(!new), A(!new)>(z: Setup<D, S, A>, t: Table<D>, l: Label, pre: D)
    requires Tabled(z, t) && l in t && SemanticsSound(z.dom) && t[l].post == z.dom.transform(l, pre)
    requires l in z.prog.counters || forall p :: p in z.prog.assertions[l] ==> z.dom.check(l, p, pre)
    ensures Applied(z, t, l, pre)
  {
    forall s | z.dom.gamma(pre, s) ensures Handled(z, t, l, s) {
    }
  }

  lemma {:induction false} LeqCovers<D(!new), S(!new), A>(dom: Domain<D, S, A>, a: D, b: D)
    requires LatticeSound(dom) && dom.leq(a, b)
    ensures forall s :: dom.gamma(a, s) ==> dom.gamma(b, s)
  {
  }

  lemma {:induction false} RefineCovers<D(!new), S(!new), A(!new)>(
    z: Setup<D, S, A>, t: Table<D>, region: set<Label>, h: Label, a: D, b: D, iteration: nat)
    requires Tabled(z, t) && LatticeSound(z.dom)
    requires HeadIn(z, t, region, h, a) && HeadIn(z, t, region, h, b)
    ensures HeadIn(z, t, region, h, Refine(z.dom, a, b, iteration))
  {
    forall n: nat | Entered(z, t, n, region) ensures HeadUpTo(z, n, h, Refine(z.dom, a, b, iteration)) {
      assert HeadUpTo(z, n, h, a) && HeadUpTo(z, n, h, b);
    }
  }

  lemma {:induction false} CollectsKept<D, S(!new), A>(
    z: Setup<D, S, A>, t: Table<D>, t': Table<D>, v: Label, d: D, changed: set<Label>)
    requires Tabled(z, t) && Collects(z, t, v, d) && SameOutside(t, t', changed)
    requires forall u :: u in changed ==> !z.prog.cfg.Edge(u, v)
    ensures Tabled(z, t') && Collects(z, t', v, d)
  {
  }

  lemma {:induction false} AppliedKept<D, S(!new), A(!new)>(
    z: Setup<D, S, A>, t: Table<D>, t': Table<D>, v: Label, d: D, changed: set<Label>)
    requires Tabled(z, t) && v in t && v !in changed && Applied(z, t, v, d) && SameOutside(t, t', changed)
    ensures Tabled(z, t') && Applied(z, t', v, d)
  {
    forall s | z.dom.gamma(d, s) ensures Handled(z, t', v, s) {
      assert Handled(z, t, v, s);
    }
  }

  lemma {:induction false} BodyVisitable(g: Cfg, cs: seq<Component>, context: set<Label>)
    requires VisitableComponent(g, Cycle(cs), context)
    ensures Headed(cs) && Head(cs) in g.children && Visitable(g, Body(cs), context + {Head(cs)})
    ensures Members(cs) == {Head(cs)} + Members(Body(cs)) && Head(cs) !in Members(Body(cs))
  {
    var h, body := Head(cs), Body(cs);
    assert Order(cs) == [h] + Order(body);
    NoDupParts([h], Order(body));
    assert h in [h] && MembersOf(Cycle(cs)) == Members(cs);
  }

  lemma {:induction false} AscendEnd<D(!new), S(!new), A(!new)>(
    z: Setup<D, S, A>, t: Table<D>, t': Table<D>, cs: seq<Component>, d: D, newPre: D)
    requires Headed(cs) && Members(cs) == {Head(cs)} + Members(Body(cs)) && Head(cs) !in Members(Body(cs))
    requires Tabled(z, t) && Head(cs) in t && Head(cs) != z.prog.cfg.entry && LatticeSound(z.dom)
             && z.dom.leq(newPre, d)
    requires Applied(z, t, Head(cs), d) && Closed(z, t, Members(Body(cs))) && Collects(z, t, Head(cs), newPre)
    requires SameOutside(t, t', {Head(cs)})
    ensures Tabled(z, t') && HeadIn(z, t', Members(cs), Head(cs), newPre)
  {
    hide Applied, Closed, Collects, HeadIn, LatticeSound;
    LeqCovers(z.dom, newPre, d);
    AscendingEnds(z, t, Head(cs), Members(Body(cs)), d, newPre);
    HeadInKept(z, t, t', Members(cs), Head(cs), newPre);
  }

  lemma {:induction false} DescendEnd<D, S(!new), A(!new)>(
    z: Setup<D, S, A>, t: Table<D>, t': Table<D>, cs: seq<Component>)
    requires Headed(cs) && Members(cs) == {Head(cs)} + Members(Body(cs)) && Head(cs) !in Members(Body(cs))
    requires Tabled(z, t) && Head(cs) in t && SameOutside(t, t', Members(cs)) && t'[Head(cs)].pre == t[Head(cs)].pre
    requires HeadIn(z, t, Members(cs), Head(cs), t[Head(cs)].pre)
    requires Tabled(z, t') && Applied(z, t', Head(cs), t[Head(cs)].pre) && Closed(z, t', Members(Body(cs)))
    ensures Closed(z, t', Members(cs))
  {
    hide Applied, Closed, HeadIn;
    HeadInKept(z, t, t', Members(cs), Head(cs), t[Head(cs)].pre);
    CycleClosed(z, t', Head(cs), Members(Body(cs)));
  }

  lemma {:induction false} DescendStep<D(!new), S(!new), A(!new)>(
    z: Setup<D, S, A>, t: Table<D>, t': Table<D>, t'': Table<D>, cs: seq<Component>, d: D, newPre: D, iteration: nat)
    requires Headed(cs) && Members(cs) == {Head(cs)} + Members(Body(cs)) && Head(cs) !in Members(Body(cs))
    requires Tabled(z, t) && Head(cs) in t && Head(cs) != z.prog.cfg.entry && LatticeSound(z.dom)
    requires SameOutside(t, t', Members(cs)) && SameOutside(t', t'', {Head(cs)})
    requires HeadIn(z, t, Members(cs), Head(cs), d)
    requires Tabled(z, t') && Applied(z, t', Head(cs), d) && Closed(z, t', Members(Body(cs)))
             && Collects(z, t', Head(cs), newPre)
    ensures Tabled(z, t'') && HeadIn(z, t'', Members(cs), Head(cs), Refine(z.dom, d, newPre, iteration))
  {
    hide Applied, Closed, Collects, HeadIn, LatticeSound, Refine;
    HeadInKept(z, t, t', Members(cs), Head(cs), d);
    DescendingPass(z, t', Head(cs), Members(Body(cs)), d, newPre);
    RefineCovers(z, t', Members(cs), Head(cs), d, newPre, iteration);
    HeadInKept(z, t', t'', Members(cs), Head(cs), Refine(z.dom, d, newPre, iteration));
  }

  lemma {:induction false} RestEnds(g: Cfg, cs: seq<Component>, context: set<Label>)
    requires Visitable(g, cs, context)
    ensures Rest(cs, |cs|) == {} && Rest(cs, 0) == Members(cs)
  {
    RestApart(g, cs, context, 0);
    assert cs[..0] == [] && Members([]) == {};
  }

  lemma {:induction false} MemberWithin(g: Cfg, cs: seq<Component>, context: set<Label>, i: nat)
    requires Visitable(g, cs, context) && i < |cs|
    ensures MembersOf(cs[i]) <= Members(cs)
  {
    VisitablePrefix(g, cs, context, i);
    RestApart(g, cs, context, i + 1);
  }

  lemma {:induction false} MemberVisitable(g: Cfg, cs: seq<Component>, context: set<Label>, i: nat)
    requires Headed(cs) && i < |cs| - 1 && VisitableComponent(g, Cycle(cs), context)
    ensures cs[i] == Body(cs)[i] && !(cs[i].Vertex? && cs[i].at == Head(cs))
    ensures VisitableComponent(g, cs[i], context + {Head(cs)} + Members(Body(cs)[..i]))
            && MembersOf(cs[i]) <= Members(cs)
    ensures cs[i].Vertex? ==> !g.Edge(cs[i].at, cs[i].at)
  {
    hide OrderedComponent, Ordered;
    BodyVisitable(g, cs, context);
    VisitablePrefix(g, Body(cs), context + {Head(cs)}, i);
    MemberWithin(g, Body(cs), context + {Head(cs)}, i);
    NoSelfEdge(g, cs[i], context + {Head(cs)} + Members(Body(cs)[..i]));
    assert cs[i].Vertex? ==> OrderOf(cs[i]) == [cs[i].at];
    assert cs[i].Vertex? ==> cs[i].at in MembersOf(cs[i]);
  }

  lemma {:induction false} NoSelfEdge(g: Cfg, c: Component, context: set<Label>)
    requires VisitableComponent(g, c, context)
    ensures c.Vertex? ==> !g.Edge(c.at, c.at)
  {
    if c.Vertex? {
      assert OrderOf(c) == [c.at];
      assert c.at in MembersOf(c);
    }
  }
}
