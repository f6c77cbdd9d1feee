/** Where abstract values come from.  A value is derivable at a label if the operations of the domain
    lead to it from the value at the entry, along the edges of the graph. */
module Derivation {
  import opened ControlFlow
  import opened AbstractDomain
  import opened Coverage

  /** `keep` holds of the value at the entry and survives everything that an analysis does. */
  ghost predicate Inductive<D(!new), S, A>(
    prog: Program<A>, dom: Domain<D, S, A>, origin: D, keep: (Label, D) -> bool) {
    && keep(prog.cfg.entry, origin)
    && (forall l :: keep(l, dom.bottom))
    && (forall l, a, b :: keep(l, a) && keep(l, b) ==>
                            keep(l, dom.join(a, b)) && keep(l, dom.meet(a, b)) && keep(l, dom.narrow(a, b)))
    && (forall l, a, b, c :: keep(l, a) && keep(l, b) ==> keep(l, dom.widen(a, b, c)))
    && (forall u, v, a :: prog.cfg.Edge(u, v) && keep(u, a) ==> keep(v, dom.transform(u, a)))
  }

  ghost predicate Derivable<D(!new), S, A>(prog: Program<A>, dom: Domain<D, S, A>, origin: D, l: Label, d: D) {
    forall keep: (Label, D) -> bool {:trigger Inductive(prog, dom, origin, keep)} ::
      Inductive(prog, dom, origin, keep) ==> keep(l, d)
  }

  lemma {:induction false} DerivedOrigin<D(!new), S, A>(prog: Program<A>, dom: Domain<D, S, A>, origin: D)
    ensures Derivable(prog, dom, origin, prog.cfg.entry, origin)
  {
  }

  lemma {:induction false} DerivedBottom<D(!new), S, A>(prog: Program<A>, dom: Domain<D, S, A>, origin: D, l: Label)
    ensures Derivable(prog, dom, origin, l, dom.bottom)
  {
  }

  lemma {:induction false} DerivedBoth<D(!new), S, A>(
    prog: Program<A>, dom: Domain<D, S, A>, origin: D, l: Label, a: D, b: D, c: bool)
    requires Derivable(prog, dom, origin, l, a) && Derivable(prog, dom, origin, l, b)
    ensures Derivable(prog, dom, origin, l, dom.join(a, b)) && Derivable(prog, dom, origin, l, dom.widen(a, b, c))
    ensures Derivable(prog, dom, origin, l, dom.meet(a, b)) && Derivable(prog, dom, origin, l, dom.narrow(a, b))
  {
    forall keep: (Label, D) -> bool | Inductive(prog, dom, origin, keep)
      ensures keep(l, dom.join(a, b)) && keep(l, dom.widen(a, b, c)) && keep(l, dom.meet(a, b))
              && keep(l, dom.narrow(a, b))
    {
      assert keep(l, a) && keep(l, b);
    }
  }

  /** A post that may be joined at every label it flows to. */
  ghost predicate DerivesPost<D(!new), S, A>(prog: Program<A>, dom: Domain<D, S, A>, origin: D, u: Label, post: D) {
    forall v :: prog.cfg.Edge(u, v) ==> Derivable(prog, dom, origin, v, post)
  }

  lemma {:induction false} DerivedPost<D(!new), S, A>(prog: Program<A>, dom: Domain<D, S, A>, origin: D, u: Label, a: D)
    requires Derivable(prog, dom, origin, u, a)
    ensures DerivesPost(prog, dom, origin, u, dom.transform(u, a))
  {
    forall v | prog.cfg.Edge(u, v) ensures Derivable(prog, dom, origin, v, dom.transform(u, a)) {
      forall keep: (Label, D) -> bool | Inductive(prog, dom, origin, keep) ensures keep(v, dom.transform(u, a)) {
        assert keep(u, a);
      }
    }
  }

  /** `d` arises at `l`, and some assertion there does not pass for it. */
  ghost predicate Fails<D(!new), S, A(!new)>(prog: Program<A>, dom: Domain<D, S, A>, origin: D, l: Label, d: D) {
    && l in prog.assertions && Derivable(prog, dom, origin, l, d)
    && exists a :: a in prog.assertions[l] && !dom.check(l, a, d)
  }

  /** All values in the table are derivable, and every error has the value that caused it. */
  ghost predicate Traced<D(!new), S, A(!new)>(
    prog: Program<A>, dom: Domain<D, S, A>, origin: D, t: Table<D>, failing: map<Label, D>) {
    forall l :: l in t ==> TracedAt(prog, dom, origin, l, t[l], failing)
  }

  ghost predicate TracedAt<D(!new), S, A(!new)>(
    prog: Program<A>, dom: Domain<D, S, A>, origin: D, l: Label, p: InvariantPair<D>,
    failing: map<Label, D>)
  {
    && Derivable(prog, dom, origin, l, p.pre) && DerivesPost(prog, dom, origin, l, p.post)
    && (p.error ==> l in failing && Fails(prog, dom, origin, l, failing[l]))
  }

  lemma {:induction false} TracedUpdate<D(!new), S, A(!new)>(
    prog: Program<A>, dom: Domain<D, S, A>, origin: D, t: Table<D>,
    failing: map<Label, D>, l: Label, p: InvariantPair<D>)
    requires Traced(prog, dom, origin, t, failing) && TracedAt(prog, dom, origin, l, p, failing)
    ensures Traced(prog, dom, origin, t[l := p], failing)
  {
    hide TracedAt;
  }

  lemma {:induction false} TracedFailure<D(!new), S, A(!new)>(
    prog: Program<A>, dom: Domain<D, S, A>, origin: D, t: Table<D>,
    failing: map<Label, D>, l: Label, d: D)
    requires Traced(prog, dom, origin, t, failing) && l in t && Fails(prog, dom, origin, l, d)
    ensures Traced(prog, dom, origin, t[l := t[l].(error := true)], failing[l := d])
  {
    hide Derivable, DerivesPost, Fails;
    var t' := t[l := t[l].(error := true)];
    forall x | x in t' ensures TracedAt(prog, dom, origin, x, t'[x], failing[l := d]) {
      assert TracedAt(prog, dom, origin, x, t[x], failing);
    }
  }

  lemma {:induction false} TracedParts<D(!new), S, A(!new)>(
    prog: Program<A>, dom: Domain<D, S, A>, origin: D, t: Table<D>,
    failing: map<Label, D>, l: Label)
    requires Traced(prog, dom, origin, t, failing) && l in t
    ensures Derivable(prog, dom, origin, l, t[l].pre) && DerivesPost(prog, dom, origin, l, t[l].post)
    ensures t[l].error ==> l in failing && Fails(prog, dom, origin, l, failing[l])
  {
    hide Derivable, DerivesPost, Fails;
    assert TracedAt(prog, dom, origin, l, t[l], failing);
  }

  /** Each error has a value that can be derived along the graph and for which an assertion does not pass. */
  ghost predicate FailuresCaused<D(!new), S, A(!new)>(
    prog: Program<A>, dom: Domain<D, S, A>, origin: D, t: Table<D>, failing: map<Label, D>) {
    forall l :: l in t && t[l].error ==> l in failing && Fails(prog, dom, origin, l, failing[l])
  }

  /** What an analysis cannot leave is a reason to accept: if the values that `keep` admits pass every
      check, none fails. */
  lemma {:induction false} NothingFails<D(!new), S, A(!new)>(
    prog: Program<A>, dom: Domain<D, S, A>, origin: D, keep: (Label, D) -> bool,
    l: Label, d: D)
    requires Inductive(prog, dom, origin, keep)
    requires forall x, a, e :: x in prog.assertions && a in prog.assertions[x] && keep(x, e) ==> dom.check(x, a, e)
    ensures !Fails(prog, dom, origin, l, d)
  {
  }
}
