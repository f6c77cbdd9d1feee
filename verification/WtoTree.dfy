/** Weak topological orders as trees (src/cfg/wto.hpp).

    A partition is stored back to front, as the builder grows it: the component that is read
    first sits at the end of the sequence, and a cycle's head is the last of its components. */
module WtoTree {
  import opened ControlFlow

  datatype Component = Vertex(at: Label) | Cycle(components: seq<Component>)

  /** The labels of a partition in the order in which the order is read. */
  function Order(cs: seq<Component>): seq<Label> {
    if cs == [] then [] else OrderOf(cs[|cs| - 1]) + Order(cs[..|cs| - 1])
  }

  function OrderOf(c: Component): seq<Label> {
    match c
    case Vertex(l) => [l]
    case Cycle(cs) => Order(cs)
  }

  function Members(cs: seq<Component>): set<Label> {
    set l | l in Order(cs)
  }

  function MembersOf(c: Component): set<Label> {
    set l | l in OrderOf(c)
  }

  ghost function Range(s: seq<Label>): set<Label> {
    set l | l in s
  }

  predicate NoDup<T(==)>(s: seq<T>) {
    forall i, j :: 0 <= i < j < |s| ==> s[i] != s[j]
  }

  /** The components start, in reading order, with a single label. */
  predicate Headed(cs: seq<Component>) {
    cs != [] && cs[|cs| - 1].Vertex?
  }

  function Head(cs: seq<Component>): Label
    requires Headed(cs)
  {
    cs[|cs| - 1].at
  }

  function Body(cs: seq<Component>): seq<Component>
    requires Headed(cs)
  {
    cs[..|cs| - 1]
  }

  /** Every edge leaving `cs` goes to a label that is read later in `cs`, to the head of a cycle
      of `cs` around its source, or into `context`. */
  ghost predicate Ordered(g: Cfg, cs: seq<Component>, context: set<Label>) {
    cs == [] ||
    (Ordered(g, cs[..|cs| - 1], context) &&
     OrderedComponent(g, cs[|cs| - 1], context + Members(cs[..|cs| - 1])))
  }

  ghost predicate OrderedComponent(g: Cfg, c: Component, context: set<Label>) {
    match c
    case Vertex(u) => u in g.children && forall x :: x in g.children[u] ==> x in context
    case Cycle(cs) =>
      && Headed(cs)
      && Ordered(g, cs[..|cs| - 1], context + {Head(cs)})
      && Head(cs) in g.children
      && forall x :: x in g.children[Head(cs)] ==> x in context + Members(cs)
  }

  lemma {:induction false} OrderSnoc(cs: seq<Component>, c: Component)
    ensures Order(cs + [c]) == OrderOf(c) + Order(cs)
    ensures Members(cs + [c]) == MembersOf(c) + Members(cs)
  {
    assert (cs + [c])[..|cs|] == cs;
  }

  lemma {:induction false} OrderedSnoc(g: Cfg, cs: seq<Component>, c: Component, context: set<Label>)
    requires Ordered(g, cs, context) && OrderedComponent(g, c, context + Members(cs))
    ensures Ordered(g, cs + [c], context)
  {
    assert (cs + [c])[..|cs|] == cs;
  }

  lemma {:induction false} NoDupConcat<T>(a: seq<T>, b: seq<T>)
    requires NoDup(a) && NoDup(b)
    requires forall x :: x in a ==> x !in b
    ensures NoDup(a + b)
  {
    var s := a + b;
    forall i, j | 0 <= i < j < |s| ensures s[i] != s[j] {
      if i < |a| <= j {
        assert a[i] in a && b[j - |a|] in b;
      }
    }
  }
}
