/** Weak topological orders as Bourdoncle defines them (Definition 1 of "Efficient chaotic
    iteration strategies with widenings", 1993), by positions in the reading order, and their
    agreement with the component-wise form that the builder establishes. */
module WtoTheorem {
  import opened ControlFlow
  import opened WtoTree

  ghost predicate Precedes(order: seq<Label>, u: Label, v: Label) {
    exists i, j :: 0 <= i < j < |order| && order[i] == u && order[j] == v
  }

  /** Some cycle of `cs`, at any depth, has head `v` and contains `u`. */
  ghost predicate HeadsCycleAround(cs: seq<Component>, v: Label, u: Label)
    decreases cs, 0
  {
    exists c :: c in cs && c.Cycle? && HeadsThis(c.components, v, u)
  }

  ghost predicate HeadsThis(cs: seq<Component>, v: Label, u: Label)
    decreases cs, 1
  {
    (Headed(cs) && Head(cs) == v && u in Members(cs)) || HeadsCycleAround(cs, v, u)
  }

  /** Every cycle at any depth starts with its head. */
  ghost predicate AllHeaded(cs: seq<Component>) {
    forall c :: c in cs && c.Cycle? ==> Headed(c.components) && AllHeaded(c.components)
  }

  ghost predicate WeakTopologicalOrder(g: Cfg, cs: seq<Component>) {
    && NoDup(Order(cs))
    && AllHeaded(cs)
    && (forall u, v :: u in Members(cs) && g.Edge(u, v) ==> Precedes(Order(cs), u, v) || HeadsCycleAround(cs, v, u))
  }

  lemma {:induction false} PrecedesLater(a: seq<Label>, b: seq<Label>, u: Label, v: Label)
    ensures Precedes(b, u, v) ==> Precedes(a + b, u, v)
    ensures Precedes(a, u, v) ==> Precedes(a + b, u, v)
    ensures u in a && v in b ==> Precedes(a + b, u, v)
  {
    var s := a + b;
    if Precedes(b, u, v) {
      var i, j :| 0 <= i < j < |b| && b[i] == u && b[j] == v;
      assert s[|a| + i] == u && s[|a| + j] == v;
    }
    if Precedes(a, u, v) {
      var i, j :| 0 <= i < j < |a| && a[i] == u && a[j] == v;
      assert s[i] == u && s[j] == v;
    }
    if u in a && v in b {
      var i :| 0 <= i < |a| && a[i] == u;
      var j :| 0 <= j < |b| && b[j] == v;
      assert s[i] == u && s[|a| + j] == v;
    }
  }

  /** Where an edge leaving `cs` can go. */
  ghost predicate Lands(cs: seq<Component>, context: set<Label>, u: Label, v: Label) {
    v in context || Precedes(Order(cs), u, v) || HeadsCycleAround(cs, v, u)
  }

  ghost predicate LandsFrom(c: Component, context: set<Label>, u: Label, v: Label) {
    v in context || Precedes(OrderOf(c), u, v) || (c.Cycle? && HeadsThis(c.components, v, u))
  }

  lemma {:induction false} OrderedLands(g: Cfg, cs: seq<Component>, context: set<Label>, u: Label, v: Label)
    requires Ordered(g, cs, context) && u in Members(cs) && g.Edge(u, v)
    ensures Lands(cs, context, u, v)
    decreases cs, 1
  {
    var n := |cs| - 1;
    var init, last := cs[..n], cs[n];
    assert Order(cs) == OrderOf(last) + Order(init);
    PrecedesLater(OrderOf(last), Order(init), u, v);
    if u in OrderOf(last) {
      ComponentLands(g, last, context + Members(init), u, v);
    } else {
      OrderedLands(g, init, context, u, v);
      if HeadsCycleAround(init, v, u) {
        var c :| c in init && c.Cycle? && HeadsThis(c.components, v, u);
        assert c in cs;
      }
    }
  }

  lemma {:induction false} ComponentLands(g: Cfg, c: Component, context: set<Label>, u: Label, v: Label)
    requires OrderedComponent(g, c, context) && u in OrderOf(c) && g.Edge(u, v)
    ensures LandsFrom(c, context, u, v)
    decreases c, 0
  {
    match c
    case Vertex(_) =>
    case Cycle(cs) =>
      var h, body := Head(cs), Body(cs);
      assert Order(cs) == [h] + Order(body);
      PrecedesLater([h], Order(body), u, v);
      if u == h {
        assert v in context || v == h || v in Order(body);
      } else {
        OrderedLands(g, body, context + {h}, u, v);
        if HeadsCycleAround(body, v, u) {
          var c' :| c' in body && c'.Cycle? && HeadsThis(c'.components, v, u);
          assert c' in cs;
        }
      }
  }

  lemma {:induction false} OrderedHeaded(g: Cfg, cs: seq<Component>, context: set<Label>)
    requires Ordered(g, cs, context)
    ensures AllHeaded(cs)
    decreases cs
  {
    if cs != [] {
      var n := |cs| - 1;
      OrderedHeaded(g, cs[..n], context);
      match cs[n]
      case Vertex(_) =>
      case Cycle(ds) =>
        OrderedHeaded(g, Body(ds), context + Members(cs[..n]) + {Head(ds)});
        assert forall c :: c in ds ==> c in Body(ds) || c == ds[|ds| - 1];
    }
  }

  /** The component-wise form implies the definition by positions. */
  lemma {:induction false} OrderedIsWto(g: Cfg, cs: seq<Component>)
    requires Ordered(g, cs, {}) && NoDup(Order(cs))
    ensures WeakTopologicalOrder(g, cs)
  {
    OrderedHeaded(g, cs, {});
    forall u, v | u in Members(cs) && g.Edge(u, v) ensures Precedes(Order(cs), u, v) || HeadsCycleAround(cs, v, u) {
      OrderedLands(g, cs, {}, u, v);
    }
  }

  // ----- the converse -----

  lemma {:induction false} NoDupParts(a: seq<Label>, b: seq<Label>)
    requires NoDup(a + b)
    ensures NoDup(a) && NoDup(b) && forall x :: x in a ==> x !in b
  {
    var s := a + b;
    assert forall i :: 0 <= i < |a| ==> s[i] == a[i];
    assert forall i :: 0 <= i < |b| ==> s[|a| + i] == b[i];
  }

  lemma {:induction false} PrecedesSplit(a: seq<Label>, b: seq<Label>, u: Label, v: Label)
    requires NoDup(a + b) && Precedes(a + b, u, v)
    ensures u in b ==> Precedes(b, u, v)
    ensures u in a ==> Precedes(a, u, v) || v in b
  {
    var s := a + b;
    NoDupParts(a, b);
    var i, j :| 0 <= i < j < |s| && s[i] == u && s[j] == v;
    if |a| <= i {
      assert b[i - |a|] == u && b[j - |a|] == v;
    } else if j < |a| {
      assert a[i] == u && a[j] == v;
    } else {
      assert a[i] == u && b[j - |a|] == v;
    }
  }

  lemma {:induction false} AroundIsMember(cs: seq<Component>, v: Label, u: Label)
    requires HeadsCycleAround(cs, v, u)
    ensures u in Members(cs) && v in Members(cs)
    decreases cs, 0
  {
    var c :| c in cs && c.Cycle? && HeadsThis(c.components, v, u);
    ThisIsMember(c.components, v, u);
    MemberOfPart(cs, c, u);
    MemberOfPart(cs, c, v);
  }

  lemma {:induction false} ThisIsMember(cs: seq<Component>, v: Label, u: Label)
    requires HeadsThis(cs, v, u)
    ensures u in Members(cs) && v in Members(cs)
    decreases cs, 1
  {
    if Headed(cs) && Head(cs) == v && u in Members(cs) {
      assert Order(cs)[0] == v;
    } else {
      AroundIsMember(cs, v, u);
    }
  }

  lemma {:induction false} MemberOfPart(cs: seq<Component>, c: Component, l: Label)
    requires c in cs && l in MembersOf(c)
    ensures l in Members(cs)
  {
    var n := |cs| - 1;
    if c != cs[n] {
      assert c in cs[..n];
      MemberOfPart(cs[..n], c, l);
    }
  }

  /** In an order without repetition an enclosing head found in the whole lies in the right part. */
  lemma {:induction false} AroundSplit(cs: seq<Component>, v: Label, u: Label)
    requires cs != [] && NoDup(Order(cs)) && HeadsCycleAround(cs, v, u)
    ensures u in Members(cs[..|cs| - 1]) ==> HeadsCycleAround(cs[..|cs| - 1], v, u)
    ensures u in MembersOf(cs[|cs| - 1]) ==> cs[|cs| - 1].Cycle? && HeadsThis(cs[|cs| - 1].components, v, u)
  {
    var n := |cs| - 1;
    var init, last := cs[..n], cs[n];
    NoDupParts(OrderOf(last), Order(init));
    var c :| c in cs && c.Cycle? && HeadsThis(c.components, v, u);
    ThisIsMember(c.components, v, u);
    if c in init {
      MemberOfPart(init, c, u);
    }
  }

  lemma {:induction false} LandsOrdered(g: Cfg, cs: seq<Component>, context: set<Label>)
    requires NoDup(Order(cs)) && AllHeaded(cs) && Members(cs) <= g.children.Keys
    requires forall u, v :: u in Members(cs) && g.Edge(u, v) ==> Lands(cs, context, u, v)
    ensures Ordered(g, cs, context)
    decreases cs, 1
  {
    if cs != [] {
      var n := |cs| - 1;
      var init, last := cs[..n], cs[n];
      assert Order(cs) == OrderOf(last) + Order(init);
      NoDupParts(OrderOf(last), Order(init));
      assert Members(cs) == MembersOf(last) + Members(init);
      forall u, v | u in Members(init) && g.Edge(u, v) ensures Lands(init, context, u, v) {
        assert Lands(cs, context, u, v);
        if Precedes(Order(cs), u, v) {
          PrecedesSplit(OrderOf(last), Order(init), u, v);
        } else if HeadsCycleAround(cs, v, u) {
          AroundSplit(cs, v, u);
        }
      }
      LandsOrdered(g, init, context);
      forall u, v | u in MembersOf(last) && g.Edge(u, v) ensures LandsFrom(last, context + Members(init), u, v) {
        assert Lands(cs, context, u, v);
        if Precedes(Order(cs), u, v) {
          PrecedesSplit(OrderOf(last), Order(init), u, v);
        } else if HeadsCycleAround(cs, v, u) {
          AroundSplit(cs, v, u);
        }
      }
      LandsComponent(g, last, context + Members(init));
    }
  }

  lemma {:induction false} LandsComponent(g: Cfg, c: Component, context: set<Label>)
    requires NoDup(OrderOf(c)) && MembersOf(c) <= g.children.Keys
    requires c.Cycle? ==> Headed(c.components) && AllHeaded(c.components)
    requires forall u, v :: u in MembersOf(c) && g.Edge(u, v) ==> LandsFrom(c, context, u, v)
    ensures OrderedComponent(g, c, context)
    decreases c, 0
  {
    match c
    case Vertex(u) =>
      assert u in MembersOf(c);
      forall x | x in g.children[u] ensures x in context {
        assert g.Edge(u, x) && LandsFrom(c, context, u, x);
      }
    case Cycle(cs) =>
      var h, body := Head(cs), Body(cs);
      assert Order(cs) == [h] + Order(body);
      NoDupParts([h], Order(body));
      assert h in MembersOf(c) && Members(body) <= MembersOf(c);
      forall x | x in g.children[h] ensures x in context + Members(cs) {
        assert g.Edge(h, x) && LandsFrom(c, context, h, x);
        if HeadsThis(cs, x, h) {
          ThisIsMember(cs, x, h);
        }
      }
      forall u, v | u in Members(body) && g.Edge(u, v) ensures Lands(body, context + {h}, u, v) {
        assert LandsFrom(c, context, u, v);
        BodyLands(cs, context, u, v);
      }
      LandsOrdered(g, body, context + {h});
  }

  lemma {:induction false} BodyLands(cs: seq<Component>, context: set<Label>, u: Label, v: Label)
    requires Headed(cs) && NoDup(Order(cs)) && u in Members(Body(cs)) && LandsFrom(Cycle(cs), context, u, v)
    ensures Lands(Body(cs), context + {Head(cs)}, u, v)
  {
    var h, body := Head(cs), Body(cs);
    assert Order(cs) == [h] + Order(body);
    NoDupParts([h], Order(body));
    if Precedes(Order(cs), u, v) {
      PrecedesSplit([h], Order(body), u, v);
    } else if v !in context && v != h {
      AroundSplit(cs, v, u);
    }
  }

  /** Bourdoncle's definition is exactly the component-wise form. */
  lemma {:induction false} WtoIffOrdered(g: Cfg, cs: seq<Component>)
    requires Members(cs) <= g.children.Keys
    ensures WeakTopologicalOrder(g, cs) <==> Ordered(g, cs, {}) && NoDup(Order(cs))
  {
    if WeakTopologicalOrder(g, cs) {
      LandsOrdered(g, cs, {});
    }
    if Ordered(g, cs, {}) && NoDup(Order(cs)) {
      OrderedIsWto(g, cs);
    }
  }
}
