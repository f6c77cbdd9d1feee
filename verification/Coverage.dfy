/** Concrete runs and what it means for the table of invariants to cover them. */
module Coverage {
  import opened ControlFlow
  import opened AbstractDomain

  datatype InvariantPair<D> = InvariantPair(pre: D, error: bool, post: D)

  type Table<D> = map<Label, InvariantPair<D>>

  /** A program with its domain and the set of concrete states it may start in. */
  datatype Setup<!D, !S, !A> = Setup(prog: Program<A>, dom: Domain<D, S, A>, init: S -> bool)

  /** `s` is a state before `v` after a run of exactly `n` steps. */
  ghost predicate Reach<D, S(!new), A>(z: Setup<D, S, A>, n: nat, v: Label, s: S) {
    if n == 0 then v == z.prog.cfg.entry && z.init(s)
    else exists u, s0 :: Reach(z, n - 1, u, s0) && z.prog.cfg.Edge(u, v) && z.dom.step(u, s0, s)
  }

  /** The assertions of `v` other than a loop bound hold in `s`. */
  ghost predicate Safe<D, S, A(!new)>(z: Setup<D, S, A>, v: Label, s: S)
    requires v in z.prog.assertions
  {
    v !in z.prog.counters ==> forall p :: p in z.prog.assertions[v] ==> z.dom.holds(p, s)
  }

  /** State `s` at `v` is safe, and whatever the instruction makes of it is in the table's post. */
  ghost predicate Handled<D, S(!new), A(!new)>(z: Setup<D, S, A>, t: Table<D>, v: Label, s: S)
    requires v in t && v in z.prog.assertions
  {
    Safe(z, v, s) && forall s' :: z.dom.step(v, s, s') ==> z.dom.gamma(t[v].post, s')
  }

  ghost predicate CoveredAt<D, S(!new), A(!new)>(z: Setup<D, S, A>, t: Table<D>, v: Label, s: S)
    requires v in t && v in z.prog.assertions
  {
    z.dom.gamma(t[v].pre, s) && Handled(z, t, v, s)
  }

  ghost predicate Tabled<D, S, A>(z: Setup<D, S, A>, t: Table<D>) {
    z.prog.WellFormed() && t.Keys == z.prog.cfg.children.Keys
  }

  /** Runs of at most `n` steps are covered at the labels of `region`. */
  ghost predicate Covers<D, S(!new), A(!new)>(z: Setup<D, S, A>, t: Table<D>, n: nat, region: set<Label>)
    requires Tabled(z, t)
  {
    forall m: nat, v, s :: m <= n && v in region && v in t && Reach(z, m, v, s) ==> CoveredAt(z, t, v, s)
  }

  /** Edges that enter `region` from outside carry only states that the table covers, as far as runs
      of at most `n` steps go. */
  ghost predicate Entered<D, S(!new), A(!new)>(z: Setup<D, S, A>, t: Table<D>, n: nat, region: set<Label>)
    requires Tabled(z, t)
  {
    forall m: nat, u, s0, s {:trigger Reach(z, m, u, s0), z.dom.step(u, s0, s)} ::
      m < n && u !in region && u in t && Into(z.prog.cfg, u, region) && Reach(z, m, u, s0) && z.dom.step(u, s0, s)
      ==> z.dom.gamma(t[u].post, s)
  }

  ghost predicate Into(g: Cfg, u: Label, region: set<Label>) {
    exists v :: v in region && g.Edge(u, v)
  }

  /** Whatever enters `region` covered stays covered inside. */
  ghost predicate Closed<D, S(!new), A(!new)>(z: Setup<D, S, A>, t: Table<D>, region: set<Label>)
    requires Tabled(z, t)
  {
    forall n: nat {:trigger Covers(z, t, n, region)} :: Entered(z, t, n, region) ==> Covers(z, t, n, region)
  }

  // ----- changing the table elsewhere -----

  ghost predicate SameOutside<D>(t: Table<D>, t': Table<D>, region: set<Label>) {
    t'.Keys == t.Keys && forall l :: l in t && l !in region ==> t'[l] == t[l]
  }

  lemma {:induction false} ClosedKept<D, S(!new), A(!new)>(
    z: Setup<D, S, A>, t: Table<D>, t': Table<D>, region: set<Label>, changed: set<Label>)
    requires Tabled(z, t) && Closed(z, t, region) && SameOutside(t, t', changed)
    requires region !! changed && forall u :: u in changed ==> !Into(z.prog.cfg, u, region)
    ensures Tabled(z, t') && Closed(z, t', region)
  {
    forall n: nat | Entered(z, t', n, region) ensures Covers(z, t', n, region) {
      assert Entered(z, t, n, region);
      assert Covers(z, t, n, region);
    }
  }

  // ----- regions visited one after the other -----

  /** Two closed regions form a closed region when no edge leads from the second to the first. */
  lemma {:induction false} ClosedUnion<D, S(!new), A(!new)>(
    z: Setup<D, S, A>, t: Table<D>, first: set<Label>, second: set<Label>)
    requires Tabled(z, t) && Closed(z, t, first) && Closed(z, t, second)
    requires forall u :: u in second ==> !Into(z.prog.cfg, u, first)
    ensures Closed(z, t, first + second)
  {
    var both := first + second;
    forall n: nat | Entered(z, t, n, both) ensures Covers(z, t, n, both) {
      EnteredPart(z, t, n, first, second);
      assert Covers(z, t, n, first);
      EnteredAfter(z, t, n, first, second);
      assert Covers(z, t, n, second);
    }
  }

  lemma {:induction false} IntoPart(g: Cfg, u: Label, part: set<Label>, whole: set<Label>)
    requires Into(g, u, part) && part <= whole
    ensures Into(g, u, whole)
  {
    var v :| v in part && g.Edge(u, v);
    assert v in whole;
  }

  lemma {:induction false} EnteredPart<D, S(!new), A(!new)>(
    z: Setup<D, S, A>, t: Table<D>, n: nat, first: set<Label>, second: set<Label>)
    requires Tabled(z, t) && Entered(z, t, n, first + second)
    requires forall u :: u in second ==> !Into(z.prog.cfg, u, first)
    ensures Entered(z, t, n, first)
  {
    forall m: nat, u, s0, s | m < n && u !in first && u in t && Into(z.prog.cfg, u, first) && Reach(z, m, u, s0)
                              && z.dom.step(u, s0, s)
      ensures z.dom.gamma(t[u].post, s)
    {
      IntoPart(z.prog.cfg, u, first, first + second);
    }
  }

  lemma {:induction false} EnteredAfter<D, S(!new), A(!new)>(
    z: Setup<D, S, A>, t: Table<D>, n: nat, first: set<Label>, second: set<Label>)
    requires Tabled(z, t) && Entered(z, t, n, first + second) && Covers(z, t, n, first)
    ensures Entered(z, t, n, second)
  {
    forall m: nat, u, s0, s | m < n && u !in second && u in t && Into(z.prog.cfg, u, second) && Reach(z, m, u, s0)
                              && z.dom.step(u, s0, s)
      ensures z.dom.gamma(t[u].post, s)
    {
      if u in first {
        assert CoveredAt(z, t, u, s0);
      } else {
        IntoPart(z.prog.cfg, u, second, first + second);
      }
    }
  }

  lemma {:induction false} ClosedEmpty<D, S(!new), A(!new)>(z: Setup<D, S, A>, t: Table<D>)
    requires Tabled(z, t)
    ensures Closed(z, t, {})
  {
  }

  // ----- single labels -----

  /** Every state that a parent's post covers is covered by `d`. */
  ghost predicate Collects<D, S(!new), A>(z: Setup<D, S, A>, t: Table<D>, v: Label, d: D)
    requires Tabled(z, t)
  {
    forall u, s {:trigger z.prog.cfg.Edge(u, v), z.dom.gamma(d, s)} ::
      z.prog.cfg.Edge(u, v) && u in t && z.dom.gamma(t[u].post, s) ==> z.dom.gamma(d, s)
  }

  /** The instruction at `v` has been applied to `d`, and its assertions hold of all states in `d`. */
  ghost predicate Applied<D, S(!new), A(!new)>(z: Setup<D, S, A>, t: Table<D>, v: Label, d: D)
    requires Tabled(z, t) && v in t
  {
    forall s :: z.dom.gamma(d, s) ==> Handled(z, t, v, s)
  }

  /** A state that reaches `v` in `n + 1` steps comes from a parent. */
  lemma {:induction false} ReachFrom<D, S(!new), A(!new)>(z: Setup<D, S, A>, n: nat, v: Label, s: S)
    returns (u: Label, s0: S)
    requires n > 0 && Reach(z, n, v, s)
    ensures Reach(z, n - 1, u, s0) && z.prog.cfg.Edge(u, v) && z.dom.step(u, s0, s)
  {
    u, s0 :| Reach(z, n - 1, u, s0) && z.prog.cfg.Edge(u, v) && z.dom.step(u, s0, s);
  }

  lemma {:induction false} VertexClosed<D, S(!new), A(!new)>(z: Setup<D, S, A>, t: Table<D>, v: Label)
    requires Tabled(z, t) && v in t && !z.prog.cfg.Edge(v, v)
    requires Applied(z, t, v, t[v].pre)
    requires v == z.prog.cfg.entry ==> forall s :: z.init(s) ==> z.dom.gamma(t[v].pre, s)
    requires v != z.prog.cfg.entry ==> Collects(z, t, v, t[v].pre)
    ensures Closed(z, t, {v})
  {
    forall n: nat | Entered(z, t, n, {v}) ensures Covers(z, t, n, {v}) {
      forall m: nat, s | m <= n && Reach(z, m, v, s) ensures CoveredAt(z, t, v, s) {
        if m > 0 {
          var u, s0 := ReachFrom(z, m, v, s);
          assert Into(z.prog.cfg, u, {v});
          assert z.dom.gamma(t[u].post, s);
        }
        assert z.dom.gamma(t[v].pre, s);
      }
    }
  }

  // ----- cycles -----

  /** As far as runs enter the cycle covered, the head's states lie in `d`. */
  ghost predicate HeadIn<D, S(!new), A(!new)>(z: Setup<D, S, A>, t: Table<D>, region: set<Label>, h: Label, d: D)
    requires Tabled(z, t)
  {
    forall n: nat {:trigger Entered(z, t, n, region)} :: Entered(z, t, n, region) ==> HeadUpTo(z, n, h, d)
  }

  ghost predicate HeadUpTo<D, S(!new), A>(z: Setup<D, S, A>, n: nat, h: Label, d: D) {
    forall m: nat, s :: m <= n && Reach(z, m, h, s) ==> z.dom.gamma(d, s)
  }

  /** Only the post of labels outside the region matters to what enters it. */
  lemma {:induction false} HeadInKept<D, S(!new), A(!new)>(
    z: Setup<D, S, A>, t: Table<D>, t': Table<D>, region: set<Label>, h: Label, d: D)
    requires Tabled(z, t) && HeadIn(z, t, region, h, d) && SameOutside(t, t', region)
    ensures Tabled(z, t') && HeadIn(z, t', region, h, d)
  {
    forall n: nat | Entered(z, t', n, region) ensures HeadUpTo(z, n, h, d) {
      assert Entered(z, t, n, region);
    }
  }

  /** If the head is covered for `n` steps, so is what enters the body. */
  lemma {:induction false} BodyEntered<D, S(!new), A(!new)>(
    z: Setup<D, S, A>, t: Table<D>, n: nat, h: Label, body: set<Label>, d: D)
    requires Tabled(z, t) && h in t && h !in body
    requires Entered(z, t, n, {h} + body) && Applied(z, t, h, d) && (n > 0 ==> HeadUpTo(z, n - 1, h, d))
    ensures Entered(z, t, n, body)
  {
    forall m: nat, u, s0, s | m < n && u !in body && u in t && Into(z.prog.cfg, u, body) && Reach(z, m, u, s0)
                              && z.dom.step(u, s0, s)
      ensures z.dom.gamma(t[u].post, s)
    {
      if u == h {
        assert Handled(z, t, h, s0);
      } else {
        IntoPart(z.prog.cfg, u, body, {h} + body);
      }
    }
  }

  /** A state that arrives at the head after `m` steps is collected from the parents' posts. */
  lemma {:induction false} HeadCollects<D, S(!new), A(!new)>(
    z: Setup<D, S, A>, t: Table<D>, n: nat, m: nat, h: Label, body: set<Label>, d: D, d': D, s: S)
    requires Tabled(z, t) && h in t && h != z.prog.cfg.entry && m <= n && Reach(z, m, h, s)
    requires Entered(z, t, n, {h} + body) && Covers(z, t, n, body)
    requires Applied(z, t, h, d) && (n > 0 ==> HeadUpTo(z, n - 1, h, d)) && Collects(z, t, h, d')
    ensures z.dom.gamma(d', s)
  {
    if m > 0 {
      var u, s0 := ReachFrom(z, m, h, s);
      if u == h {
        assert Handled(z, t, h, s0);
      } else if u in body {
        assert CoveredAt(z, t, u, s0);
      } else {
        assert Into(z.prog.cfg, u, {h} + body);
      }
      assert z.dom.gamma(t[u].post, s);
    }
  }

  /** The ascending phase ends soundly: with the instruction applied to `d`, the body closed, and the
      newly collected value `d'` below `d`, all runs at the head lie in `d'`. */
  lemma {:induction false} AscendingUpTo<D, S(!new), A(!new)>(
    z: Setup<D, S, A>, t: Table<D>, n: nat, h: Label, body: set<Label>, d: D, d': D)
    requires Tabled(z, t) && h in t && h != z.prog.cfg.entry && h !in body
    requires Applied(z, t, h, d) && Closed(z, t, body) && Collects(z, t, h, d')
    requires forall s :: z.dom.gamma(d', s) ==> z.dom.gamma(d, s)
    requires Entered(z, t, n, {h} + body)
    ensures HeadUpTo(z, n, h, d')
    decreases n
  {
    if n > 0 {
      EnteredShorter(z, t, n, {h} + body);
      AscendingUpTo(z, t, n - 1, h, body, d, d');
      assert HeadUpTo(z, n - 1, h, d);
    }
    BodyEntered(z, t, n, h, body, d);
    assert Covers(z, t, n, body);
    forall m: nat, s | m <= n && Reach(z, m, h, s) ensures z.dom.gamma(d', s) {
      HeadCollects(z, t, n, m, h, body, d, d', s);
    }
  }

  lemma {:induction false} EnteredShorter<D, S(!new), A(!new)>(
    z: Setup<D, S, A>, t: Table<D>, n: nat, region: set<Label>)
    requires n > 0 && Tabled(z, t) && Entered(z, t, n, region)
    ensures Entered(z, t, n - 1, region)
  {
  }

  lemma {:induction false} AscendingEnds<D, S(!new), A(!new)>(
    z: Setup<D, S, A>, t: Table<D>, h: Label, body: set<Label>, d: D, d': D)
    requires Tabled(z, t) && h in t && h != z.prog.cfg.entry && h !in body
    requires Applied(z, t, h, d) && Closed(z, t, body) && Collects(z, t, h, d')
    requires forall s :: z.dom.gamma(d', s) ==> z.dom.gamma(d, s)
    ensures HeadIn(z, t, {h} + body, h, d')
  {
    forall n: nat | Entered(z, t, n, {h} + body) ensures HeadUpTo(z, n, h, d') {
      AscendingUpTo(z, t, n, h, body, d, d');
    }
  }

  /** A descending pass keeps the head covered by what it collects anew, without any assumption that
      the pass is monotone. */
  lemma {:induction false} DescendingPass<D, S(!new), A(!new)>(
    z: Setup<D, S, A>, t: Table<D>, h: Label, body: set<Label>, d: D, d': D)
    requires Tabled(z, t) && h in t && h != z.prog.cfg.entry && h !in body
    requires HeadIn(z, t, {h} + body, h, d)
    requires Applied(z, t, h, d) && Closed(z, t, body) && Collects(z, t, h, d')
    ensures HeadIn(z, t, {h} + body, h, d')
  {
    forall n: nat | Entered(z, t, n, {h} + body) ensures HeadUpTo(z, n, h, d') {
      BodyEntered(z, t, n, h, body, d);
      assert Covers(z, t, n, body);
      forall m: nat, s | m <= n && Reach(z, m, h, s) ensures z.dom.gamma(d', s) {
        HeadCollects(z, t, n, m, h, body, d, d', s);
      }
    }
  }

  /** A cycle whose head is covered by the pre that was applied, and whose body is closed, is closed. */
  lemma {:induction false} CycleClosed<D, S(!new), A(!new)>(z: Setup<D, S, A>, t: Table<D>, h: Label, body: set<Label>)
    requires Tabled(z, t) && h in t && h !in body
    requires HeadIn(z, t, {h} + body, h, t[h].pre) && Applied(z, t, h, t[h].pre) && Closed(z, t, body)
    ensures Closed(z, t, {h} + body)
  {
    forall n: nat | Entered(z, t, n, {h} + body) ensures Covers(z, t, n, {h} + body) {
      assert HeadUpTo(z, n, h, t[h].pre);
      BodyEntered(z, t, n, h, body, t[h].pre);
      assert Covers(z, t, n, body);
    }
  }
}
