/** Inserting loop counters into a graph (src/ir/cfg_builder.cpp:27-71, src/ir/cfg_builder.cpp:298-306). */
module Counters {
  import opened ControlFlow
  import opened WtoTree

  function Include(s: seq<Label>, x: Label): (r: seq<Label>)
    ensures forall y :: y in r <==> y in s || y == x
  {
    if x in s then s else s + [x]
  }

  function Exclude(s: seq<Label>, x: Label): (r: seq<Label>)
    ensures forall y :: y in r <==> y in s && y != x
  {
    if s == [] then []
    else if s[0] == x then Exclude(s[1..], x)
    else [s[0]] + Exclude(s[1..], x)
  }

  /** `g'` is `g` with `next` on all edges that left `prev`. */
  ghost predicate Inserted(g: Cfg, g': Cfg, prev: Label, next: Label) {
    && g'.WellFormed() && g'.entry == g.entry && g'.children.Keys == g.children.Keys + {next}
    && forall u, v :: g'.Edge(u, v) <==> InsertedEdge(g, prev, next, u, v)
  }

  ghost predicate InsertedEdge(g: Cfg, prev: Label, next: Label, u: Label, v: Label) {
    || (u == prev && v == next && exists x :: g.Edge(prev, x))
    || (u == next && g.Edge(prev, v))
    || (u != prev && u != next && g.Edge(u, v))
  }

  function Linked(g: Cfg, a: Label, b: Label): Cfg
    requires a in g.children && b in g.parents
  {
    g.(children := g.children[a := Include(g.children[a], b)], parents := g.parents[b := Include(g.parents[b], a)])
  }

  /** `prev` erased from the parents of `targets`. */
  function Erased(parents: map<Label, seq<Label>>, targets: seq<Label>, prev: Label): map<Label, seq<Label>> {
    if targets == [] then parents
    else
      var p, t := Erased(parents, targets[..|targets| - 1], prev), targets[|targets| - 1];
      if t in p then p[t := Exclude(p[t], prev)] else p
  }

  lemma {:induction false} ErasedMeans(parents: map<Label, seq<Label>>, targets: seq<Label>, prev: Label)
    ensures Erased(parents, targets, prev).Keys == parents.Keys
    ensures forall v, u ::
              v in parents ==>
                (u in Erased(parents, targets, prev)[v] <==> u in parents[v] && !(u == prev && v in targets))
  {
    if targets != [] {
      var n := |targets| - 1;
      assert targets == targets[..n] + [targets[n]];
      ErasedMeans(parents, targets[..n], prev);
    }
  }

  class CfgBuilder {
    var cfg: Cfg

    constructor (cfg: Cfg)
      ensures this.cfg == cfg
    {
      this.cfg := cfg;
    }

    method AddChild(a: Label, b: Label)
      requires a in cfg.children && b in cfg.parents
      modifies this
      ensures cfg == Linked(old(cfg), a, b)
    {
      cfg := cfg.(children := cfg.children[a := Include(cfg.children[a], b)]);
      cfg := cfg.(parents := cfg.parents[b := Include(cfg.parents[b], a)]);
    }

    /** Takes all children from `prev`. */
    method Detach(prev: Label) returns (prevChildren: seq<Label>)
      requires prev in cfg.children && forall x :: x in cfg.children[prev] ==> x in cfg.parents
      modifies this
      ensures prevChildren == old(cfg).children[prev]
      ensures cfg == Cfg(old(cfg).entry, old(cfg).children[prev := []], Erased(old(cfg).parents, prevChildren, prev))
    {
      hide Exclude;
      ghost var g := cfg;
      prevChildren := cfg.children[prev];
      cfg := cfg.(children := cfg.children[prev := []]);
      var i := 0;
      while i < |prevChildren|
        invariant 0 <= i <= |prevChildren|
        invariant cfg == Cfg(g.entry, g.children[prev := []], Erased(g.parents, prevChildren[..i], prev))
      {
        var next := prevChildren[i];
        ErasedMeans(g.parents, prevChildren[..i], prev);
        assert prevChildren[..i + 1][..i] == prevChildren[..i];
        cfg := cfg.(parents := cfg.parents[next := Exclude(cfg.parents[next], prev)]);
        i := i + 1;
      }
      assert prevChildren[..i] == prevChildren;
    }

    /** Puts a new label on all edges that leave `prev`; refuses a label that is already there. */
    method InsertAfter(prev: Label, next: Label) returns (ok: bool)
      requires cfg.WellFormed() && prev in cfg.children
      modifies this
      ensures ok <==> next !in old(cfg).children
      ensures ok ==> Inserted(old(cfg), cfg, prev, next)
      ensures ok && NoDup(old(cfg).children[prev]) ==>
                cfg.children == Moved(old(cfg), prev, next, old(cfg).children[prev])
    {
      hide Inserted, InsertedEdge, Rehung, Erased, Include, Cfg.WellFormed;
      ghost var g := cfg;
      ChildrenAreParents(cfg);
      if prev == next {
        return false;
      }
      var prevChildren := Detach(prev);
      if next in cfg.children {
        return false;
      }
      cfg := cfg.(children := cfg.children[next := []], parents := cfg.parents[next := []]);
      RehungStart(g, prev, next, cfg);
      var i := 0;
      while i < |prevChildren|
        invariant 0 <= i <= |prevChildren|
        invariant Rehung(g, prev, next, prevChildren[..i], cfg)
        invariant NoDup(prevChildren) ==> cfg.children == Moved(g, prev, next, prevChildren[..i])
      {
        RehungKeys(g, prev, next, prevChildren[..i], cfg);
        assert prevChildren[..i + 1] == prevChildren[..i] + [prevChildren[i]];
        RehungStep(g, prev, next, prevChildren[..i], cfg, prevChildren[i]);
        if NoDup(prevChildren) {
          MovedMore(g, prev, next, prevChildren, i, cfg);
        }
        AddChild(prev, next);
        AddChild(next, prevChildren[i]);
        i := i + 1;
      }
      assert prevChildren[..i] == prevChildren;
      RehungEnd(g, prev, next, cfg);
      ok := true;
    }
  }

  /** The children once those in `moved` hang below `next`. */
  ghost function Moved(g: Cfg, prev: Label, next: Label, moved: seq<Label>): map<Label, seq<Label>> {
    g.children[prev := if moved == [] then [] else [next]][next := moved]
  }

  lemma {:induction false} MovedMore(g: Cfg, prev: Label, next: Label, all: seq<Label>, i: nat, cfg: Cfg)
    requires i < |all| && prev != next && NoDup(all) && cfg.children == Moved(g, prev, next, all[..i])
    requires next in cfg.parents && all[i] in cfg.parents
    ensures prev in cfg.children && next in cfg.children
    ensures Linked(Linked(cfg, prev, next), next, all[i]).children == Moved(g, prev, next, all[..i + 1])
  {
    assert all[..i + 1] == all[..i] + [all[i]];
    assert all[i] !in all[..i];
    var one := Linked(cfg, prev, next);
    assert one.children[prev] == [next];
    assert one.children[next] == all[..i];
  }

  lemma {:induction false} ChildrenAreParents(g: Cfg)
    requires g.WellFormed()
    ensures g.children.Keys == g.parents.Keys && forall u, x :: u in g.children && x in g.children[u] ==> x in g.parents
  {
  }

  /** The edges once the children in `moved` hang below `next`. */
  ghost predicate Placed(g: Cfg, prev: Label, next: Label, moved: seq<Label>, u: Label, v: Label) {
    || (u == prev && v == next && moved != [])
    || (u == next && v in moved)
    || (u != prev && u != next && g.Edge(u, v))
  }

  /** `g'` is `g` with the children in `moved` below `next` and no others below `prev`. */
  ghost predicate Rehung(g: Cfg, prev: Label, next: Label, moved: seq<Label>, g': Cfg) {
    && g'.entry == g.entry && g'.children.Keys == g'.parents.Keys == g.children.Keys + {next}
    && (forall u, v {:trigger Placed(g, prev, next, moved, u, v)} ::
          u in g'.children ==> (v in g'.children[u] <==> Placed(g, prev, next, moved, u, v)))
    && (forall u, v {:trigger Placed(g, prev, next, moved, u, v)} ::
          v in g'.parents ==> (u in g'.parents[v] <==> Placed(g, prev, next, moved, u, v)))
  }

  lemma {:induction false} RehungKeys(g: Cfg, prev: Label, next: Label, moved: seq<Label>, g': Cfg)
    requires Rehung(g, prev, next, moved, g')
    ensures g'.children.Keys == g'.parents.Keys == g.children.Keys + {next}
  {
  }

  lemma {:induction false} RehungStart(g: Cfg, prev: Label, next: Label, g': Cfg)
    requires g.WellFormed() && prev in g.children && next !in g.children
    requires g' == Cfg(g.entry, g.children[prev := []][next := []],
                       Erased(g.parents, g.children[prev], prev)[next := []])
    ensures Rehung(g, prev, next, [], g')
  {
    hide Erased, Cfg.WellFormed, Placed;
    ErasedKeys(g, prev);
    forall u, v
      ensures u in g'.children ==> (v in g'.children[u] <==> Placed(g, prev, next, [], u, v))
      ensures v in g'.parents ==> (u in g'.parents[v] <==> Placed(g, prev, next, [], u, v))
    {
      StartAt(g, prev, next, g', u, v);
    }
  }

  lemma {:induction false} ErasedKeys(g: Cfg, prev: Label)
    requires g.WellFormed() && prev in g.children
    ensures g.children.Keys == g.parents.Keys == Erased(g.parents, g.children[prev], prev).Keys
  {
    ErasedMeans(g.parents, g.children[prev], prev);
  }

  lemma {:induction false} StartAt(g: Cfg, prev: Label, next: Label, g': Cfg, u: Label, v: Label)
    requires g.WellFormed() && prev in g.children && next !in g.children
    requires g' == Cfg(g.entry, g.children[prev := []][next := []],
                       Erased(g.parents, g.children[prev], prev)[next := []])
    ensures u in g'.children ==> (v in g'.children[u] <==> Placed(g, prev, next, [], u, v))
    ensures v in g'.parents ==> (u in g'.parents[v] <==> Placed(g, prev, next, [], u, v))
  {
    hide Erased;
    ErasedMeans(g.parents, g.children[prev], prev);
    EdgesBothWays(g);
    hide Cfg.WellFormed;
    assert g.Edge(u, v) <==> v in g.parents && u in g.parents[v];
    assert g.Edge(prev, v) <==> v in g.children[prev];
    assert g.Edge(u, next) ==> next in g.parents;
  }

  lemma {:induction false} EdgesBothWays(g: Cfg)
    requires g.WellFormed()
    ensures g.children.Keys == g.parents.Keys
    ensures forall u, v :: g.Edge(u, v) <==> v in g.parents && u in g.parents[v]
  {
  }

  lemma {:induction false} RehungStep(g: Cfg, prev: Label, next: Label, moved: seq<Label>, g': Cfg, x: Label)
    requires Rehung(g, prev, next, moved, g') && prev in g.children && next !in g.children && x in g.children
    ensures Rehung(g, prev, next, moved + [x], Linked(Linked(g', prev, next), next, x))
  {
    var h := Linked(Linked(g', prev, next), next, x);
    forall u, v | u in h.children ensures v in h.children[u] <==> Placed(g, prev, next, moved + [x], u, v) {
      assert v in g'.children[u] <==> Placed(g, prev, next, moved, u, v);
    }
    forall u, v | v in h.parents ensures u in h.parents[v] <==> Placed(g, prev, next, moved + [x], u, v) {
      assert u in g'.parents[v] <==> Placed(g, prev, next, moved, u, v);
    }
  }

  lemma {:induction false} RehungEdges(g: Cfg, prev: Label, next: Label, g': Cfg, u: Label, v: Label)
    requires prev in g.children && Rehung(g, prev, next, g.children[prev], g')
    ensures g'.Edge(u, v) <==> u in g'.children && InsertedEdge(g, prev, next, u, v)
    ensures v in g'.parents ==> (u in g'.parents[v] <==> InsertedEdge(g, prev, next, u, v))
  {
    PlacedAll(g, prev, next, u, v);
    assert u in g'.children ==> (v in g'.children[u] <==> Placed(g, prev, next, g.children[prev], u, v));
  }

  lemma {:induction false} InsertedEnds(g: Cfg, prev: Label, next: Label, u: Label, v: Label)
    requires g.WellFormed() && prev in g.children && InsertedEdge(g, prev, next, u, v)
    ensures u in g.children.Keys + {next} && v in g.children.Keys + {next}
  {
  }

  lemma {:induction false} RehungEnd(g: Cfg, prev: Label, next: Label, g': Cfg)
    requires g.WellFormed() && prev in g.children && next !in g.children && Rehung(g, prev, next, g.children[prev], g')
    ensures Inserted(g, g', prev, next)
  {
    RehungKeys(g, prev, next, g.children[prev], g');
    EntryKept(g, prev, next, g');
    hide Rehung, InsertedEdge;
    forall u, v
      ensures g'.Edge(u, v) <==> InsertedEdge(g, prev, next, u, v)
      ensures v in g'.parents && u in g'.parents[v] <==> InsertedEdge(g, prev, next, u, v)
    {
      RehungEdges(g, prev, next, g', u, v);
      if InsertedEdge(g, prev, next, u, v) {
        InsertedEnds(g, prev, next, u, v);
      }
    }
    BothWays(g');
  }

  lemma {:induction false} BothWays(g: Cfg)
    requires g.entry in g.children && g.children.Keys == g.parents.Keys
    requires forall u, v :: g.Edge(u, v) <==> v in g.parents && u in g.parents[v]
    ensures g.WellFormed()
  {
    forall u, v | u in g.children && v in g.children[u] ensures v in g.children && u in g.parents[v] {
      assert g.Edge(u, v);
    }
    forall u, v | v in g.parents && u in g.parents[v] ensures u in g.children && v in g.children[u] {
      assert g.Edge(u, v);
    }
  }

  lemma {:induction false} EntryKept(g: Cfg, prev: Label, next: Label, g': Cfg)
    requires g.WellFormed() && prev in g.children && Rehung(g, prev, next, g.children[prev], g')
    ensures g'.entry == g.entry && g'.entry in g'.children
  {
  }

  lemma {:induction false} PlacedAll(g: Cfg, prev: Label, next: Label, u: Label, v: Label)
    requires prev in g.children
    ensures Placed(g, prev, next, g.children[prev], u, v) <==> InsertedEdge(g, prev, next, u, v)
  {
    if g.children[prev] != [] {
      assert g.Edge(prev, g.children[prev][0]);
    }
  }

  // ----- counters for all heads -----

  ghost function CounterLabels(heads: set<Label>): set<Label> {
    set h | h in heads :: CounterLabel(h)
  }

  /** The counter labels of `heads` are new and distinct. */
  ghost predicate Insertable(g: Cfg, heads: set<Label>) {
    && (forall h :: h in heads ==> CounterLabel(h) !in g.children)
    && (forall h, k :: h in heads && k in heads && CounterLabel(h) == CounterLabel(k) ==> h == k)
  }

  /** Counter labels tell apart what labels of one kind tell apart: jumps and stack frames. */
  lemma {:induction false} CounterLabelsDiffer(h: Label, k: Label)
    requires h.special == k.special && CounterLabel(h) == CounterLabel(k)
    ensures h == k
  {
  }

  /** Counters can be inserted after any labels of a graph that has no labels of a special kind. */
  lemma {:induction false} PlainIsInsertable(g: Cfg, heads: set<Label>)
    requires heads <= g.children.Keys && forall l :: l in g.children ==> l.special == ""
    ensures Insertable(g, heads)
  {
    forall h, k | h in heads && k in heads && CounterLabel(h) == CounterLabel(k) ensures h == k {
      CounterLabelsDiffer(h, k);
    }
    assert "counter" != "";
  }

  ghost predicate CountedEdge(g: Cfg, heads: set<Label>, u: Label, v: Label) {
    || (u in heads && v == CounterLabel(u) && exists x :: g.Edge(u, x))
    || (u !in heads && g.Edge(u, v))
    || (exists h :: h in heads && u == CounterLabel(h) && g.Edge(h, v))
  }

  /** `g'` is `g` with a counter after each of `heads`. */
  ghost predicate Counted(g: Cfg, heads: set<Label>, g': Cfg) {
    && g'.WellFormed() && g'.entry == g.entry && g'.children.Keys == g.children.Keys + CounterLabels(heads)
    && heads <= g.children.Keys && Insertable(g, heads)
    && forall u, v :: g'.Edge(u, v) <==> CountedEdge(g, heads, u, v)
  }

  /** No label lists a child twice. */
  ghost predicate DistinctChildren(g: Cfg) {
    forall l :: l in g.children ==> NoDup(g.children[l])
  }

  /** `g'` lists children in the same order as `g`: heads that lead anywhere lead to their counters, which
      take over what followed the heads. */
  ghost predicate Threaded(g: Cfg, heads: set<Label>, g': Cfg) {
    && (forall l :: l in g.children ==> l in g'.children && g'.children[l] == ThreadedChildren(g, heads, l))
    && (forall h :: h in heads && h in g.children ==>
                      CounterLabel(h) in g'.children && g'.children[CounterLabel(h)] == g.children[h])
  }

  ghost function ThreadedChildren(g: Cfg, heads: set<Label>, l: Label): seq<Label>
    requires l in g.children
  {
    if l in heads && g.children[l] != [] then [CounterLabel(l)] else g.children[l]
  }

  /** A label without a counter keeps its edges. */
  lemma {:induction false} EdgesOf(g: Cfg, heads: set<Label>, g': Cfg, h: Label, v: Label)
    requires Counted(g, heads, g') && h in g.children && h !in heads
    ensures g'.Edge(h, v) <==> g.Edge(h, v)
    ensures (exists x :: g'.Edge(h, x)) <==> (exists x :: g.Edge(h, x))
  {
    assert forall x :: g'.Edge(h, x) <==> CountedEdge(g, heads, h, x);
    assert forall x :: CountedEdge(g, heads, h, x) <==> g.Edge(h, x);
  }

  lemma {:induction false} CountedMore(g: Cfg, heads: set<Label>, g': Cfg, h: Label, g'': Cfg)
    requires g.WellFormed() && Counted(g, heads, g') && h in g.children && h !in heads
    requires CounterLabel(h) !in g'.children && Inserted(g', g'', h, CounterLabel(h))
    ensures Counted(g, heads + {h}, g'')
  {
    hide Cfg.WellFormed, CountedEdge, Cfg.Edge;
    var more, c := heads + {h}, CounterLabel(h);
    assert CounterLabels(more) == CounterLabels(heads) + {c};
    forall k | k in heads ensures CounterLabel(k) != c {
      assert CounterLabel(k) in CounterLabels(heads);
    }
    assert Insertable(g, more);
    forall u, v ensures g''.Edge(u, v) <==> CountedEdge(g, more, u, v) {
      assert g''.Edge(u, v) <==> InsertedEdge(g', h, c, u, v);
      EdgesOf(g, heads, g', h, v);
      assert g'.Edge(u, v) <==> CountedEdge(g, heads, u, v);
      CountedEdgeMore(g, heads, h, u, v);
    }
  }

  lemma {:induction false} CountedEdgeMore(g: Cfg, heads: set<Label>, h: Label, u: Label, v: Label)
    requires h in g.children && h !in heads && Insertable(g, heads + {h}) && heads <= g.children.Keys
    ensures CountedEdge(g, heads + {h}, u, v) <==>
            || (u == h && v == CounterLabel(h) && exists x :: g.Edge(h, x))
            || (u == CounterLabel(h) && g.Edge(h, v))
            || (u != h && u != CounterLabel(h) && CountedEdge(g, heads, u, v))
  {
    var more := heads + {h};
    assert h in more;
    assert forall k :: k in more <==> k in heads || k == h;
    assert forall k :: k in heads ==> CounterLabel(k) != CounterLabel(h);
  }

  /** Inserts a counter after each of `heads`; stops if a counter label is already taken. */
  method InsertCounters(g: Cfg, heads: seq<Label>) returns (ok: bool, g': Cfg)
    requires g.WellFormed() && NoDup(heads) && forall h :: h in heads ==> h in g.children
    ensures ok <==> Insertable(g, Range(heads))
    ensures ok ==> Counted(g, Range(heads), g')
    ensures ok && DistinctChildren(g) ==> Threaded(g, Range(heads), g')
  {
    hide Threaded, Moved, DistinctChildren, Cfg.WellFormed, Counted, Inserted, Insertable, CounterLabels, Range, NoDup;
    var builder := new CfgBuilder(g);
    var i := 0;
    CountedNone(g);
    ThreadedNone(g);
    assert heads[..0] == [];
    while i < |heads|
      invariant 0 <= i <= |heads|
      invariant Counted(g, Range(heads[..i]), builder.cfg)
      invariant DistinctChildren(g) ==> Threaded(g, Range(heads[..i]), builder.cfg)
    {
      ghost var before := builder.cfg;
      CountedKeys(g, Range(heads[..i]), before);
      OneMore(heads, i);
      var inserted := builder.InsertAfter(heads[i], CounterLabel(heads[i]));
      if !inserted {
        Collision(g, heads, i);
        return false, builder.cfg;
      }
      CountedMore(g, Range(heads[..i]), before, heads[i], builder.cfg);
      if DistinctChildren(g) {
        ThreadedMore(g, Range(heads[..i]), before, heads[i], builder.cfg);
      }
      i := i + 1;
    }
    assert heads[..i] == heads;
    CountedKeys(g, Range(heads), builder.cfg);
    return true, builder.cfg;
  }

  lemma {:induction false} OneMore(heads: seq<Label>, i: nat)
    requires i < |heads| && NoDup(heads)
    ensures heads[i] !in Range(heads[..i]) && Range(heads[..i + 1]) == Range(heads[..i]) + {heads[i]}
  {
    assert heads[..i + 1] == heads[..i] + [heads[i]];
  }

  lemma {:induction false} CountedNone(g: Cfg)
    requires g.WellFormed()
    ensures Counted(g, Range([]), g)
  {
  }

  lemma {:induction false} ThreadedNone(g: Cfg)
    ensures Threaded(g, Range([]), g)
  {
  }

  lemma {:induction false} ThreadedMore(g: Cfg, heads: set<Label>, g': Cfg, h: Label, g'': Cfg)
    requires DistinctChildren(g) && Counted(g, heads, g') && Threaded(g, heads, g') && h in g.children && h !in heads
    requires CounterLabel(h) !in g'.children && h in g'.children
    requires NoDup(g'.children[h]) ==> g''.children == Moved(g', h, CounterLabel(h), g'.children[h])
    ensures NoDup(g'.children[h])
    ensures Threaded(g, heads + {h}, g'')
  {
    assert g'.children[h] == g.children[h];
    assert CounterLabel(h) !in g.children;
    assert forall k :: k in heads ==> CounterLabel(k) !in g.children && CounterLabel(k) in g'.children;
  }

  lemma {:induction false} CountedKeys(g: Cfg, heads: set<Label>, g': Cfg)
    requires Counted(g, heads, g')
    ensures g'.WellFormed() && g'.children.Keys == g.children.Keys + CounterLabels(heads) && Insertable(g, heads)
  {
  }

  lemma {:induction false} Collision(g: Cfg, heads: seq<Label>, i: nat)
    requires i < |heads| && NoDup(heads)
    requires CounterLabel(heads[i]) in g.children.Keys + CounterLabels(Range(heads[..i]))
    ensures !Insertable(g, Range(heads))
  {
    var all := Range(heads);
    assert heads[i] in all;
    if CounterLabel(heads[i]) !in g.children {
      var k :| k in heads[..i] && CounterLabel(k) == CounterLabel(heads[i]);
      assert k in all;
    }
  }
}
