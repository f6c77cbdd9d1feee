/** The nesting of a label: the heads of the cycles that strictly enclose it
    (src/cfg/wto.cpp:35-51, src/cfg/wto.cpp:263-309). */
module Nesting {
  import opened ControlFlow
  import opened Options
  import opened WtoTree
  import opened WtoTheorem
  import opened WtoSteps
  import opened WtoNest
  import opened WeakOrder

  /** The head of the cycle around `l`, or around the cycle that `l` heads. */
  function HeadOf(w: Wto, l: Label): Option<Label> {
    if l !in w.containing then None
    else
      match w.containing[l]
      case TopLevel => None
      case CycleOf(first) =>
        if first != l then Some(first)
        else if first in w.enclosing && w.enclosing[first].CycleOf? then Some(w.enclosing[first].head)
        else None
  }

  /** The heads around `l` read off the tree, innermost first, followed by `outer`. */
  ghost function Around(cs: seq<Component>, l: Label, outer: seq<Label>): seq<Label> {
    if cs == [] then outer
    else if l in MembersOf(cs[|cs| - 1]) then AroundIn(cs[|cs| - 1], l, outer)
    else Around(cs[..|cs| - 1], l, outer)
  }

  ghost function AroundIn(c: Component, l: Label, outer: seq<Label>): seq<Label> {
    match c
    case Vertex(_) => outer
    case Cycle(cs) =>
      if !Headed(cs) || l == Head(cs) then outer
      else Around(cs[..|cs| - 1], l, [Head(cs)] + outer)
  }

  ghost function Enclosing(w: Wto, l: Label): seq<Label> {
    Around(w.components, l, [])
  }

  // ----- following the tables climbs the tree -----

  ghost function First(heads: seq<Label>): Option<Label> {
    if heads == [] then None else Some(heads[0])
  }

  /** Each head leads to the next and the last to none. */
  ghost predicate Chain(w: Wto, heads: seq<Label>) {
    forall i :: 0 <= i < |heads| ==> HeadOf(w, heads[i]) == First(heads[i + 1..])
  }

  ghost predicate Names(id: PartitionId, outer: seq<Label>) {
    match id
    case TopLevel => outer == []
    case CycleOf(h) => outer != [] && outer[0] == h
  }

  lemma {:induction false} AroundChain(w: Wto, cs: seq<Component>, id: PartitionId, outer: seq<Label>, l: Label)
    requires Nested(cs, id, w.containing, w.enclosing) && Names(id, outer) && Chain(w, outer)
    requires NoDup(Order(cs)) && l in Members(cs) && forall h :: h in outer ==> h !in Members(cs)
    ensures var heads := Around(cs, l, outer); Chain(w, heads) && HeadOf(w, l) == First(heads)
    decreases cs, 1
  {
    var n := |cs| - 1;
    assert Order(cs) == OrderOf(cs[n]) + Order(cs[..n]);
    NoDupParts(OrderOf(cs[n]), Order(cs[..n]));
    assert NestedComponent(cs[n], id, w.containing, w.enclosing);
    if l in MembersOf(cs[n]) {
      ComponentChain(w, cs[n], id, outer, l);
    } else {
      AroundChain(w, cs[..n], id, outer, l);
    }
  }

  lemma {:induction false} ComponentChain(w: Wto, c: Component, id: PartitionId, outer: seq<Label>, l: Label)
    requires NestedComponent(c, id, w.containing, w.enclosing) && Names(id, outer) && Chain(w, outer)
    requires NoDup(OrderOf(c)) && l in MembersOf(c) && forall h :: h in outer ==> h !in MembersOf(c)
    ensures var heads := AroundIn(c, l, outer); Chain(w, heads) && HeadOf(w, l) == First(heads)
    decreases c, 0
  {
    match c
    case Vertex(_) =>
    case Cycle(cs) =>
      var h, body := Head(cs), Body(cs);
      assert Order(cs) == [h] + Order(body);
      NoDupParts([h], Order(body));
      assert h in [h];
      assert HeadOf(w, h) == First(outer);
      if l != h {
        var inner := [h] + outer;
        assert inner[1..] == outer;
        forall i | 0 <= i < |inner| ensures HeadOf(w, inner[i]) == First(inner[i + 1..]) {
          if i > 0 {
            assert inner[i + 1..] == outer[i..];
            assert HeadOf(w, outer[i - 1]) == First(outer[i - 1 + 1..]);
          }
        }
        AroundChain(w, body, CycleOf(h), inner, l);
      }
  }

  lemma {:induction false} AroundForeign(cs: seq<Component>, l: Label, outer: seq<Label>)
    requires l !in Members(cs)
    ensures Around(cs, l, outer) == outer
  {
    if cs != [] {
      AroundForeign(cs[..|cs| - 1], l, outer);
    }
  }

  lemma {:induction false} EnclosingChain(g: Cfg, w: Wto, l: Label)
    requires Valid(g, w)
    ensures Chain(w, Enclosing(w, l)) && HeadOf(w, l) == First(Enclosing(w, l))
  {
    if l in Members(w.components) {
      AroundChain(w, w.components, TopLevel, [], l);
    } else {
      AroundForeign(w.components, l, []);
    }
  }

  /** Collects the heads around `l` by following the tables. */
  method CollectHeads(ghost g: Cfg, w: Wto, l: Label) returns (heads: seq<Label>)
    requires Valid(g, w)
    ensures heads == Enclosing(w, l)
  {
    ghost var all := Enclosing(w, l);
    EnclosingChain(g, w, l);
    heads := [];
    var h := HeadOf(w, l);
    assert all[0..] == all;
    while h.Some?
      invariant |heads| <= |all| && heads == all[..|heads|] && h == First(all[|heads|..])
      decreases |all| - |heads|
    {
      var k := |heads|;
      assert all[k..] != [] && all[k..][0] == all[k] == h.value;
      heads := heads + [h.value];
      h := HeadOf(w, h.value);
    }
  }

  /** Answers nesting queries, remembering the answers. */
  class NestingCache {
    const wto: Wto
    ghost const cfg: Cfg
    var nesting: map<Label, seq<Label>>

    ghost predicate Valid()
      reads this
    {
      WeakOrder.Valid(cfg, wto) && forall l :: l in nesting ==> nesting[l] == Enclosing(wto, l)
    }

    constructor (ghost cfg: Cfg, wto: Wto)
      requires WeakOrder.Valid(cfg, wto)
      ensures Valid() && this.wto == wto && this.cfg == cfg
    {
      this.cfg := cfg;
      this.wto := wto;
      nesting := map[];
    }

    method Nesting(l: Label) returns (heads: seq<Label>)
      requires Valid()
      modifies this
      ensures Valid()
      ensures heads == Enclosing(wto, l)
      ensures nesting == old(nesting)[l := heads]
    {
      if l !in nesting {
        heads := CollectHeads(cfg, wto, l);
        nesting := nesting[l := heads];
      } else {
        heads := nesting[l];
      }
    }
  }

  // ----- the tree reading is what section 3.1 of the paper asks for -----

  /** `l` lies in a cycle headed by `v` and is not that head. */
  ghost predicate StrictlyInside(cs: seq<Component>, v: Label, l: Label) {
    v != l && HeadsCycleAround(cs, v, l)
  }

  lemma {:induction false} AroundIsEnclosing(cs: seq<Component>, l: Label, outer: seq<Label>, v: Label)
    requires NoDup(Order(cs)) && AllHeaded(cs)
    ensures v in Around(cs, l, outer) <==> v in outer || StrictlyInside(cs, v, l)
    decreases cs, 1
  {
    if cs == [] {
      return;
    }
    var n := |cs| - 1;
    var init, last := cs[..n], cs[n];
    assert Order(cs) == OrderOf(last) + Order(init);
    NoDupParts(OrderOf(last), Order(init));
    if l in MembersOf(last) {
      AroundInIsEnclosing(last, l, outer, v);
      if HeadsCycleAround(cs, v, l) {
        AroundSplit(cs, v, l);
      }
    } else {
      AroundIsEnclosing(init, l, outer, v);
      if HeadsCycleAround(cs, v, l) {
        AroundIsMember(cs, v, l);
        AroundSplit(cs, v, l);
      }
      if HeadsCycleAround(init, v, l) {
        var c :| c in init && c.Cycle? && HeadsThis(c.components, v, l);
        assert c in cs;
      }
    }
  }

  lemma {:induction false} AroundInIsEnclosing(c: Component, l: Label, outer: seq<Label>, v: Label)
    requires NoDup(OrderOf(c)) && l in MembersOf(c) && (c.Cycle? ==> Headed(c.components) && AllHeaded(c.components))
    ensures v in AroundIn(c, l, outer) <==> v in outer || (c.Cycle? && v != l && HeadsThis(c.components, v, l))
    decreases c, 0
  {
    match c
    case Vertex(_) =>
    case Cycle(cs) =>
      var h, body := Head(cs), Body(cs);
      assert Order(cs) == [h] + Order(body);
      NoDupParts([h], Order(body));
      assert h in [h];
      if l == h {
        if HeadsCycleAround(cs, v, l) {
          var c' :| c' in cs && c'.Cycle? && HeadsThis(c'.components, v, l);
          ThisIsMember(c'.components, v, l);
          assert c' in body;
          MemberOfPart(body, c', l);
        }
      } else {
        assert forall x :: x in body ==> x in cs;
        AroundIsEnclosing(body, l, [h] + outer, v);
        if HeadsCycleAround(cs, v, l) {
          AroundSplit(cs, v, l);
        }
        if HeadsCycleAround(body, v, l) {
          var c' :| c' in body && c'.Cycle? && HeadsThis(c'.components, v, l);
          assert c' in cs;
        }
      }
  }

  /** The collected heads are exactly the heads of the cycles strictly around the label. */
  lemma {:induction false} EnclosingIsExact(g: Cfg, w: Wto, l: Label, v: Label)
    requires Valid(g, w)
    ensures v in Enclosing(w, l) <==> StrictlyInside(w.components, v, l)
  {
    AroundIsEnclosing(w.components, l, [], v);
  }

  // ----- comparing nestings -----

  /** `a` lies deeper than `b`: it has all heads of `b` outermost, and more inside. */
  predicate Deeper(a: seq<Label>, b: seq<Label>) {
    |a| > |b| && a[|a| - |b|..] == b
  }

  /** Nestings list heads from the innermost on, so that the deeper one has more of them in front. */
  lemma {:induction false} DeeperMeans(a: seq<Label>, b: seq<Label>)
    ensures Deeper(a, b) <==> exists inner :: inner != [] && a == inner + b
  {
    if Deeper(a, b) {
      var inner := a[..|a| - |b|];
      assert inner != [] && a == inner + b;
    }
  }

  method Greater(a: seq<Label>, b: seq<Label>) returns (r: bool)
    ensures r <==> Deeper(a, b)
  {
    if |a| <= |b| {
      return false;
    }
    var index := 0;
    while index < |b|
      invariant 0 <= index <= |b|
      invariant a[|a| - index..] == b[|b| - index..]
    {
      var x, y := a[|a| - 1 - index], b[|b| - 1 - index];
      assert a[|a| - 1 - index..] == [x] + a[|a| - index..];
      assert b[|b| - 1 - index..] == [y] + b[|b| - index..];
      if x != y {
        DifferingTails(a, b, index);
        return false;
      }
      index := index + 1;
    }
    assert b[|b| - index..] == b;
    return true;
  }

  lemma {:induction false} DifferingTails(a: seq<Label>, b: seq<Label>, index: nat)
    requires index < |b| < |a| && a[|a| - 1 - index] != b[|b| - 1 - index]
    ensures !Deeper(a, b)
  {
    assert a[|a| - |b|..][|b| - 1 - index] == a[|a| - 1 - index];
  }

  /** The comparison is a strict partial order. */
  lemma {:induction false} DeeperIsStrictOrder(a: seq<Label>, b: seq<Label>, c: seq<Label>)
    ensures !Deeper(a, a)
    ensures Deeper(a, b) && Deeper(b, c) ==> Deeper(a, c)
  {
    if Deeper(a, b) && Deeper(b, c) {
      assert a[|a| - |c|..] == a[|a| - |b|..][|b| - |c|..];
    }
  }

  lemma {:induction false} AroundSuffix(cs: seq<Component>, l: Label, outer: seq<Label>)
    ensures |Around(cs, l, outer)| >= |outer| && Around(cs, l, outer)[|Around(cs, l, outer)| - |outer|..] == outer
    decreases cs, 1
  {
    if cs != [] {
      if l in MembersOf(cs[|cs| - 1]) {
        match cs[|cs| - 1]
        case Vertex(_) =>
        case Cycle(ds) =>
          if Headed(ds) && l != Head(ds) {
            var inner := [Head(ds)] + outer;
            AroundSuffix(ds[..|ds| - 1], l, inner);
            var r := Around(ds[..|ds| - 1], l, inner);
            assert r[|r| - |outer|..] == r[|r| - |inner|..][1..];
          }
      } else {
        AroundSuffix(cs[..|cs| - 1], l, outer);
      }
    }
  }

  lemma {:induction false} InsideIsDeeper(cs: seq<Component>, h: Label, l: Label, outer: seq<Label>)
    requires NoDup(Order(cs)) && AllHeaded(cs) && StrictlyInside(cs, h, l)
    ensures Deeper(Around(cs, l, outer), Around(cs, h, outer))
    decreases cs, 1
  {
    var n := |cs| - 1;
    var init, last := cs[..n], cs[n];
    assert Order(cs) == OrderOf(last) + Order(init);
    NoDupParts(OrderOf(last), Order(init));
    AroundIsMember(cs, h, l);
    AroundSplit(cs, h, l);
    if l in MembersOf(last) {
      var ds := last.components;
      ThisIsMember(ds, h, l);
      var g, body := Head(ds), Body(ds);
      assert Order(ds) == [g] + Order(body);
      NoDupParts([g], Order(body));
      assert g in [g];
      if l == g {
        var c' :| c' in ds && c'.Cycle? && HeadsThis(c'.components, h, l);
        ThisIsMember(c'.components, h, l);
        assert c' in body;
        MemberOfPart(body, c', l);
        assert false;
      }
      if h == g {
        AroundSuffix(body, l, [g] + outer);
        var r := Around(body, l, [g] + outer);
        assert r[|r| - |outer|..] == r[|r| - |[g] + outer|..][1..];
      } else {
        assert HeadsCycleAround(ds, h, l);
        AroundSplit(ds, h, l);
        assert forall x :: x in body ==> x in ds;
        InsideIsDeeper(body, h, l, [g] + outer);
      }
    } else {
      AroundIsMember(init, h, l);
      InsideIsDeeper(init, h, l, outer);
    }
  }

  /** A member of a cycle other than its head always compares deeper than the head, so the first
      invariant of a cycle takes nothing from the cycle's own body. */
  lemma {:induction false} MembersCompareDeeper(g: Cfg, w: Wto, h: Label, l: Label)
    requires Valid(g, w) && StrictlyInside(w.components, h, l)
    ensures Deeper(Enclosing(w, l), Enclosing(w, h))
  {
    InsideIsDeeper(w.components, h, l, []);
  }
}
