/** What the two phases at a cycle's head make of the values that the passes collect
    (src/fwd_analyzer.cpp:157-173, src/fwd_analyzer.cpp:217-259). */
module Phases {
  import opened ControlFlow
  import opened AbstractDomain
  import opened Coverage
  import WeakOrder
  import Nesting
  import opened FixpointEngine

  /** After the first pass: the join of both values, below whatever is above both. */
  lemma {:induction false} FirstPassJoins<D(!new), S(!new), A>(
    dom: Domain<D, S, A>, limits: S -> bool, start: D, x: D, c: D)
    requires Precise(dom, limits) && dom.leq(start, c) && dom.leq(x, c)
    ensures dom.leq(AscendTo(dom, start, [x]), c)
  {
    assert [x][..0] == [] && AscendTo(dom, start, []) == start;
  }

  /** After the second pass nothing lies beyond the limits. */
  lemma {:induction false} SecondPassCuts<D(!new), S(!new), A>(
    dom: Domain<D, S, A>, limits: S -> bool, start: D, x: D, y: D, s: S)
    requires Precise(dom, limits) && dom.gamma(AscendTo(dom, start, [x, y]), s)
    ensures limits(s)
  {
    assert [x, y][..1] == [x];
  }

  /** Every pass but the second adds what it collected and keeps what was there. */
  lemma {:induction false} OtherPassesGrow<D(!new), S(!new), A>(
    dom: Domain<D, S, A>, limits: S -> bool, start: D, tried: seq<D>, x: D, s: S)
    requires LatticeSound(dom) && Precise(dom, limits) && |tried| != 1
    requires dom.gamma(AscendTo(dom, start, tried), s) || dom.gamma(x, s)
    ensures dom.gamma(AscendTo(dom, start, tried + [x]), s)
  {
    assert (tried + [x])[..|tried|] == tried;
  }

  /** Refining adds nothing, and leaves nothing that the first pass did not collect. */
  lemma {:induction false} RefinedWithin<D(!new), S(!new), A>(
    dom: Domain<D, S, A>, limits: S -> bool, start: D, tried: seq<D>, s: S)
    requires Precise(dom, limits) && dom.gamma(DescendTo(dom, start, tried), s)
    ensures dom.gamma(start, s) && (tried != [] ==> dom.gamma(tried[0], s))
  {
    if tried != [] {
      var n := |tried| - 1;
      var before := DescendTo(dom, start, tried[..n]);
      assert dom.gamma(before, s);
      RefinedWithin(dom, limits, start, tried[..n], s);
    }
  }

  /** The parents whose posts a cycle starts from are those that do not lie deeper than its head. */
  lemma {:induction false} OuterParentsAre(w: WeakOrder.Wto, parents: seq<Label>, head: Label, u: Label)
    ensures u in OuterParents(w, parents, head) <==>
            u in parents && !Nesting.Deeper(Nesting.Enclosing(w, u), Nesting.Enclosing(w, head))
  {
    hide Nesting.Deeper, Nesting.Enclosing;
    if parents != [] {
      var n := |parents| - 1;
      OuterParentsAre(w, parents[..n], head, u);
      assert parents == parents[..n] + [parents[n]];
    }
  }

  /** Joined posts are below every value that is above bottom and all of them. */
  lemma {:induction false} JoinIsLeast<D(!new), S(!new), A>(
    dom: Domain<D, S, A>, limits: S -> bool, t: Table<D>, labels: seq<Label>, c: D)
    requires Precise(dom, limits) && dom.leq(dom.bottom, c)
    requires forall l :: l in labels ==> l in t && dom.leq(t[l].post, c)
    ensures dom.leq(JoinPosts(dom, t, labels), c)
  {
    if labels != [] {
      JoinIsLeast(dom, limits, t, labels[..|labels| - 1], c);
    }
  }
}
