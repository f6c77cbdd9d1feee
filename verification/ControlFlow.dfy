/** Control-flow graphs and paths through them (src/cfg/cfg.hpp, src/cfg/label.hpp). */
module ControlFlow {

  /** A program point.  `to` is -1 unless the label stands for a jump edge. */
  datatype Label = Label(from: int, to: int, stackFramePrefix: string, special: string)

  /** The label of the counter instruction that follows loop head `l`. */
  function CounterLabel(l: Label): Label {
    Label(l.from, l.to, l.stackFramePrefix, "counter")
  }

  /** Adjacency in both directions, each enumerated in some fixed order. */
  datatype Cfg = Cfg(entry: Label, children: map<Label, seq<Label>>, parents: map<Label, seq<Label>>)
  {
    ghost function Labels(): set<Label> {
      children.Keys
    }

    ghost predicate WellFormed() {
      && entry in children
      && parents.Keys == children.Keys
      && (forall u, v :: u in children && v in children[u] ==> v in children && u in parents[v])
      && (forall u, v :: v in parents && u in parents[v] ==> u in children && v in children[u])
    }

    ghost predicate Edge(u: Label, v: Label) {
      u in children && v in children[u]
    }
  }

  /** A path with at least one edge whose labels all lie in `within`. */
  ghost predicate IsPath(g: Cfg, within: set<Label>, p: seq<Label>) {
    && |p| >= 2
    && (forall i :: 0 <= i < |p| ==> p[i] in within)
    && (forall i, j :: 0 <= i && j == i + 1 && j < |p| ==> g.Edge(p[i], p[j]))
  }

  /** `b` can be reached from `a` by one or more edges without leaving `within`. */
  ghost predicate Connected(g: Cfg, within: set<Label>, a: Label, b: Label) {
    exists p :: IsPath(g, within, p) && p[0] == a && p[|p| - 1] == b
  }

  ghost predicate Reachable(g: Cfg, l: Label) {
    l == g.entry || Connected(g, g.Labels(), g.entry, l)
  }

  lemma {:induction false} ConnectedEdge(g: Cfg, within: set<Label>, a: Label, b: Label)
    requires g.Edge(a, b) && a in within && b in within
    ensures Connected(g, within, a, b)
  {
    var p := [a, b];
    assert IsPath(g, within, p) && p[0] == a && p[|p| - 1] == b;
  }

  lemma {:induction false} ConnectedTrans(g: Cfg, within: set<Label>, a: Label, b: Label, c: Label)
    requires Connected(g, within, a, b) && Connected(g, within, b, c)
    ensures Connected(g, within, a, c)
  {
    var p :| IsPath(g, within, p) && p[0] == a && p[|p| - 1] == b;
    var q :| IsPath(g, within, q) && q[0] == b && q[|q| - 1] == c;
    var r := p + q[1..];
    forall i, j | 0 <= i && j == i + 1 && j < |r| ensures g.Edge(r[i], r[j]) {
      if i < |p| - 1 {
        assert g.Edge(p[i], p[i + 1]);
      } else {
        var k := i - (|p| - 1);
        assert g.Edge(q[k], q[k + 1]);
      }
    }
    assert IsPath(g, within, r) && r[0] == a && r[|r| - 1] == c;
  }

  lemma {:induction false} ConnectedMono(g: Cfg, small: set<Label>, large: set<Label>, a: Label, b: Label)
    requires Connected(g, small, a, b) && small <= large
    ensures Connected(g, large, a, b)
  {
    var p :| IsPath(g, small, p) && p[0] == a && p[|p| - 1] == b;
    assert IsPath(g, large, p);
  }

  lemma {:induction false} ReachableStep(g: Cfg, u: Label, v: Label)
    requires g.WellFormed() && Reachable(g, u) && g.Edge(u, v)
    ensures Reachable(g, v)
  {
    ConnectedEdge(g, g.Labels(), u, v);
    if u != g.entry {
      ConnectedTrans(g, g.Labels(), g.entry, u, v);
    }
  }

  /** A set holding the entry and closed under edges holds every reachable label. */
  lemma {:induction false} ReachableInClosed(g: Cfg, closed: set<Label>, l: Label)
    requires g.entry in closed
    requires forall u, v :: u in closed && g.Edge(u, v) ==> v in closed
    requires Reachable(g, l)
    ensures l in closed
  {
    if l != g.entry {
      var p :| IsPath(g, g.Labels(), p) && p[0] == g.entry && p[|p| - 1] == l;
      var i := 0;
      while i < |p| - 1
        invariant 0 <= i < |p| && p[i] in closed
      {
        assert g.Edge(p[i], p[i + 1]);
        i := i + 1;
      }
    }
  }
}
