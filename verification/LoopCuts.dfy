/** Which loops the counters cut (src/cfg/wto.hpp:137-150, src/ir/cfg_builder.cpp:300-306).

    Counters are placed after the heads of the outermost cycles only.  Whether every loop of the
    graph passes one of them is decided here by the shape of the order. */
module LoopCuts {
  import opened ControlFlow
  import opened WtoTree
  import opened WtoTheorem
  import opened WtoInvariant
  import opened WeakOrder

  /** The heads of the outermost cycles, in reading order. */
  function LoopHeads(cs: seq<Component>): seq<Label> {
    if cs == [] then []
    else
      var c := cs[|cs| - 1];
      (if c.Cycle? && Headed(c.components) then [Head(c.components)] else []) + LoopHeads(cs[..|cs| - 1])
  }

  /** No cycle lies inside another. */
  predicate Flat(cs: seq<Component>) {
    forall c, d :: c in cs && c.Cycle? && d in c.components ==> d.Vertex?
  }

  /** Every edge between reachable labels goes forward in `order` or to one of `heads`. */
  ghost predicate Cuts(g: Cfg, order: seq<Label>, heads: set<Label>) {
    forall u, v :: u in order && g.Edge(u, v) ==> v in order && (Precedes(order, u, v) || v in heads)
  }

  // ----- heads at every depth always cut -----

  lemma {:induction false} HeadFirst(cs: seq<Component>)
    requires Headed(cs)
    ensures Order(cs) == [Head(cs)] + Order(Body(cs)) && Head(cs) in Members(cs)
  {
    assert OrderOf(cs[|cs| - 1]) == [Head(cs)];
  }

  /** The heads of all cycles at any depth. */
  ghost function AllHeads(cs: seq<Component>): set<Label> {
    set l | l in Members(cs) && HeadsCycleAround(cs, l, l)
  }

  lemma {:induction false} HeadsItself(cs: seq<Component>, v: Label, u: Label)
    requires HeadsCycleAround(cs, v, u)
    ensures HeadsCycleAround(cs, v, v)
    decreases cs
  {
    var c :| c in cs && c.Cycle? && HeadsThis(c.components, v, u);
    if Headed(c.components) && Head(c.components) == v && u in Members(c.components) {
      HeadFirst(c.components);
      assert HeadsThis(c.components, v, v);
    } else {
      HeadsItself(c.components, v, u);
    }
  }

  lemma {:induction false} EdgesStayInside(g: Cfg, w: Wto, u: Label, v: Label)
    requires g.WellFormed() && Valid(g, w) && u in Order(w.components) && g.Edge(u, v)
    ensures v in Order(w.components)
  {
    ReachableStep(g, u, v);
  }

  lemma {:induction false} AllHeadsCut(g: Cfg, w: Wto)
    requires g.WellFormed() && Valid(g, w)
    ensures Cuts(g, Order(w.components), AllHeads(w.components))
  {
    hide RealCycles, Ordered, Reachable;
    var cs := w.components;
    forall u, v | u in Order(cs) && g.Edge(u, v)
      ensures v in Order(cs) && (Precedes(Order(cs), u, v) || v in AllHeads(cs))
    {
      EdgesStayInside(g, w, u, v);
      assert u in Members(cs);
      if !Precedes(Order(cs), u, v) {
        HeadsItself(cs, v, u);
      }
    }
  }

  // ----- heads of outermost cycles cut exactly the flat orders -----

  lemma {:induction false} LoopHeadIn(cs: seq<Component>, c: Component)
    requires c in cs && c.Cycle? && Headed(c.components)
    ensures Head(c.components) in LoopHeads(cs)
  {
    if c != cs[|cs| - 1] {
      assert c in cs[..|cs| - 1];
      LoopHeadIn(cs[..|cs| - 1], c);
    }
  }

  lemma {:induction false} LoopHeadsAreMembers(cs: seq<Component>, h: Label)
    requires h in LoopHeads(cs)
    ensures h in Members(cs)
  {
    var n := |cs| - 1;
    assert Order(cs) == OrderOf(cs[n]) + Order(cs[..n]);
    if h !in LoopHeads(cs[..n]) {
      HeadFirst(cs[n].components);
      assert h in OrderOf(cs[n]);
    } else {
      LoopHeadsAreMembers(cs[..n], h);
    }
  }

  lemma {:induction false} LoopHeadsDistinct(cs: seq<Component>)
    requires NoDup(Order(cs))
    ensures NoDup(LoopHeads(cs))
  {
    if cs != [] {
      var n := |cs| - 1;
      NoDupParts(OrderOf(cs[n]), Order(cs[..n]));
      LoopHeadsDistinct(cs[..n]);
      if cs[n].Cycle? && Headed(cs[n].components) {
        var h := Head(cs[n].components);
        HeadFirst(cs[n].components);
        forall x | x in LoopHeads(cs[..n]) ensures x != h {
          LoopHeadsAreMembers(cs[..n], x);
        }
        NoDupConcat([h], LoopHeads(cs[..n]));
      }
    }
  }

  lemma {:induction false} FlatBackEdge(cs: seq<Component>, v: Label, u: Label)
    requires Flat(cs) && HeadsCycleAround(cs, v, u)
    ensures v in LoopHeads(cs)
  {
    var c :| c in cs && c.Cycle? && HeadsThis(c.components, v, u);
    assert forall d :: d in c.components ==> d.Vertex?;
    assert !HeadsCycleAround(c.components, v, u);
    LoopHeadIn(cs, c);
  }

  lemma {:induction false} FlatCuts(g: Cfg, w: Wto)
    requires g.WellFormed() && Valid(g, w) && Flat(w.components)
    ensures Cuts(g, Order(w.components), Range(LoopHeads(w.components)))
  {
    hide RealCycles, Ordered, Reachable, Flat;
    var cs := w.components;
    forall u, v | u in Order(cs) && g.Edge(u, v)
      ensures v in Order(cs) && (Precedes(Order(cs), u, v) || v in Range(LoopHeads(cs)))
    {
      EdgesStayInside(g, w, u, v);
      assert u in Members(cs);
      if !Precedes(Order(cs), u, v) {
        FlatBackEdge(cs, v, u);
      }
    }
  }

  /** The position of a label in an order. */
  ghost function Position(order: seq<Label>, l: Label): nat
    ensures l in order ==> Position(order, l) < |order| && order[Position(order, l)] == l
  {
    if l in order then
      var i :| 0 <= i < |order| && order[i] == l; i
    else 0
  }

  lemma {:induction false} PrecedesByPosition(order: seq<Label>, u: Label, v: Label)
    requires NoDup(order) && Precedes(order, u, v)
    ensures u in order && v in order && Position(order, u) < Position(order, v)
  {
  }

  /** A path that meets no cut stays short. */
  lemma {:induction false} AvoidingPathAdvances(g: Cfg, order: seq<Label>, heads: set<Label>, p: seq<Label>, k: nat)
    requires NoDup(order) && Cuts(g, order, heads) && k < |p| && p[0] in order
    requires IsPath(g, g.Labels(), p) && forall i :: 0 <= i < |p| ==> p[i] !in heads
    ensures p[k] in order && Position(order, p[k]) >= k
  {
    if k > 0 {
      AvoidingPathAdvances(g, order, heads, p, k - 1);
      assert g.Edge(p[k - 1], p[k]);
      PrecedesByPosition(order, p[k - 1], p[k]);
    }
  }

  /** Paths from a reachable label that avoid `heads` have no more than `n` labels. */
  ghost predicate AvoidingPathsShort(g: Cfg, heads: set<Label>, n: nat) {
    forall p :: IsPath(g, g.Labels(), p) && Reachable(g, p[0]) && (forall i :: 0 <= i < |p| ==> p[i] !in heads) ==>
                  |p| <= n
  }

  lemma {:induction false} CutsKeepShort(g: Cfg, w: Wto, heads: set<Label>)
    requires Valid(g, w) && Cuts(g, Order(w.components), heads)
    ensures AvoidingPathsShort(g, heads, |Order(w.components)|)
  {
    hide RealCycles, Ordered, Reachable;
    var order := Order(w.components);
    forall p | IsPath(g, g.Labels(), p) && Reachable(g, p[0]) && (forall i :: 0 <= i < |p| ==> p[i] !in heads)
      ensures |p| <= |order|
    {
      AvoidingPathAdvances(g, order, heads, p, |p| - 1);
    }
  }

  lemma {:induction false} Loops(g: Cfg, within: set<Label>, x: Label, n: nat) returns (p: seq<Label>)
    requires Connected(g, within, x, x)
    ensures IsPath(g, within, p) && p[0] == x && p[|p| - 1] == x && |p| > n
  {
    var q :| IsPath(g, within, q) && q[0] == x && q[|q| - 1] == x;
    if n == 0 {
      p := q;
    } else {
      var r := Loops(g, within, x, n - 1);
      p := q + r[1..];
      forall i, j | 0 <= i && j == i + 1 && j < |p| ensures g.Edge(p[i], p[j]) {
        if i < |q| - 1 {
          assert g.Edge(q[i], q[i + 1]);
        } else {
          var k := i - (|q| - 1);
          assert g.Edge(r[k], r[k + 1]);
        }
      }
    }
  }

  lemma {:induction false} NestedIsNotHead(cs: seq<Component>, d: Component, l: Label)
    requires Headed(cs) && NoDup(Order(cs)) && d in cs && d.Cycle? && l in MembersOf(d)
    ensures l != Head(cs) && l in Members(cs)
  {
    HeadFirst(cs);
    NoDupParts([Head(cs)], Order(Body(cs)));
    assert d in Body(cs);
    MemberOfPart(Body(cs), d, l);
    MemberOfPart(cs, d, l);
  }

  /** A label of a nested cycle heads no outermost cycle. */
  lemma {:induction false} NestedIsNoLoopHead(cs: seq<Component>, c: Component, d: Component, l: Label)
    requires NoDup(Order(cs)) && AllHeaded(cs) && c in cs && c.Cycle? && d in c.components && d.Cycle?
             && l in MembersOf(d)
    ensures l in Members(cs) && l !in LoopHeads(cs)
  {
    hide NoDup;
    var n := |cs| - 1;
    var init, last := cs[..n], cs[n];
    NoDupParts(OrderOf(last), Order(init));
    if c == last {
      NestedIsNotHead(c.components, d, l);
      assert l in OrderOf(last);
      if l in LoopHeads(init) {
        LoopHeadsAreMembers(init, l);
      }
    } else {
      assert c in init;
      NestedIsNoLoopHead(init, c, d, l);
      if last.Cycle? {
        HeadFirst(last.components);
        assert Head(last.components) in OrderOf(last);
      }
    }
  }

  lemma {:induction false} NestedLoopAvoids(g: Cfg, w: Wto, n: nat) returns (p: seq<Label>)
    requires g.WellFormed() && Valid(g, w) && !Flat(w.components)
    ensures IsPath(g, g.Labels(), p) && Reachable(g, p[0]) && p[|p| - 1] == p[0] && |p| > n
    ensures forall i :: 0 <= i < |p| ==> p[i] !in Range(LoopHeads(w.components))
  {
    hide Ordered, Reachable, Connected;
    var cs := w.components;
    var c, d :| c in cs && c.Cycle? && d in c.components && !d.Vertex?;
    assert RealComponent(g, c);
    assert RealCycles(g, c.components) && AllHeaded(c.components);
    assert RealComponent(g, d);
    var inner := Members(d.components);
    assert MembersOf(d) == inner;
    var x := Head(d.components);
    HeadFirst(d.components);
    assert Connected(g, inner, x, x);
    p := Loops(g, inner, x, n);
    forall l | l in inner ensures l in g.Labels() && l !in LoopHeads(cs) && Reachable(g, l) {
      NestedIsNoLoopHead(cs, c, d, l);
      LabelReached(g, l);
    }
  }

  lemma {:induction false} LabelReached(g: Cfg, l: Label)
    requires g.WellFormed() && Reachable(g, l)
    ensures l in g.children
  {
    if l != g.entry {
      var p :| IsPath(g, g.Labels(), p) && p[0] == g.entry && p[|p| - 1] == l;
    }
  }

  /** The counters meet every loop of the graph exactly if no cycle of its order is nested: otherwise
      there are paths of any length without a counted head. */
  lemma {:induction false} CountersCutIffFlat(g: Cfg, w: Wto)
    requires g.WellFormed() && Valid(g, w)
    ensures Flat(w.components) ==> AvoidingPathsShort(g, Range(LoopHeads(w.components)), |Order(w.components)|)
    ensures (exists n: nat :: AvoidingPathsShort(g, Range(LoopHeads(w.components)), n)) ==> Flat(w.components)
  {
    hide Valid, Flat;
    var heads := Range(LoopHeads(w.components));
    if Flat(w.components) {
      FlatCuts(g, w);
      CutsKeepShort(g, w, heads);
    } else {
      forall n: nat ensures !AvoidingPathsShort(g, heads, n) {
        var p := NestedLoopAvoids(g, w, n);
      }
    }
  }
}
