/** Nested cycles escape the loop counters: whenever the order of a graph is not flat, some program
    on that graph satisfies every loop bound and still has runs of every length. */
module Nontermination {
  import opened ControlFlow
  import opened Remainders
  import opened WtoTree
  import WeakOrder
  import opened LoopCuts
  import opened Counters
  import opened AbstractDomain
  import opened Coverage
  import opened Derivation
  import opened Analyzer
  import opened Termination

  ghost predicate Walk(g: Cfg, p: seq<Label>) {
    |p| >= 1 && forall i, j :: 0 <= i && j == i + 1 && j < |p| ==> g.Edge(p[i], p[j])
  }

  lemma {:induction false} WalkJoin(g: Cfg, p: seq<Label>, q: seq<Label>)
    requires Walk(g, p) && Walk(g, q) && p[|p| - 1] == q[0]
    ensures var r := p + q[1..]; Walk(g, r) && r[0] == p[0] && r[|r| - 1] == q[|q| - 1]
  {
    var r := p + q[1..];
    forall i, j | 0 <= i && j == i + 1 && j < |r| ensures g.Edge(r[i], r[j]) {
      if i < |p| - 1 {
        assert g.Edge(p[i], p[i + 1]);
      } else {
        var k := i - (|p| - 1);
        assert g.Edge(q[k], q[k + 1]);
      }
    }
  }

  /** A walk can be shortened to one that repeats no label. */
  lemma {:induction false} SimpleWalk(g: Cfg, p: seq<Label>) returns (q: seq<Label>)
    requires Walk(g, p)
    ensures Walk(g, q) && q[0] == p[0] && q[|q| - 1] == p[|p| - 1] && NoDup(q)
    decreases |p|
  {
    if NoDup(p) {
      return p;
    }
    var i, j :| 0 <= i < j < |p| && p[i] == p[j];
    var start, end := p[..i + 1], p[j..];
    WalkParts(g, p, i, j);
    WalkJoin(g, start, end);
    q := SimpleWalk(g, start + end[1..]);
  }

  lemma {:induction false} WalkParts(g: Cfg, p: seq<Label>, i: nat, j: nat)
    requires Walk(g, p) && i <= j < |p|
    ensures Walk(g, p[..i + 1]) && Walk(g, p[j..])
  {
    forall a, b | 0 <= a && b == a + 1 && b < |p[j..]| ensures g.Edge(p[j..][a], p[j..][b]) {
      assert g.Edge(p[j + a], p[j + a + 1]);
    }
  }

  lemma {:induction false} StepWalk(g: Cfg, heads: set<Label>, g': Cfg, u: Label, v: Label) returns (q: seq<Label>)
    requires Counted(g, heads, g') && g.Edge(u, v)
    ensures Walk(g', q) && q[0] == u && q[|q| - 1] == v
  {
    if u in heads {
      var c := CounterLabel(u);
      assert CountedEdge(g, heads, u, c) && CountedEdge(g, heads, c, v);
      assert g'.Edge(u, c) && g'.Edge(c, v);
      q := [u, c, v];
    } else {
      assert CountedEdge(g, heads, u, v);
      assert g'.Edge(u, v);
      q := [u, v];
    }
  }

  /** Paths survive the insertion of counters. */
  lemma {:induction false} CountedWalk(g: Cfg, heads: set<Label>, g': Cfg, p: seq<Label>, k: nat)
    returns (q: seq<Label>)
    requires Counted(g, heads, g') && IsPath(g, g.Labels(), p) && k < |p|
    ensures Walk(g', q) && q[0] == p[0] && q[|q| - 1] == p[k]
  {
    if k == 0 {
      q := [p[0]];
    } else {
      var before := CountedWalk(g, heads, g', p, k - 1);
      assert g.Edge(p[k - 1], p[k]);
      var step := StepWalk(g, heads, g', p[k - 1], p[k]);
      WalkJoin(g', before, step);
      q := before + step[1..];
    }
  }

  lemma {:induction false} WalkFromEntry(g: Cfg, heads: set<Label>, g': Cfg, x: Label) returns (q: seq<Label>)
    requires Counted(g, heads, g') && Reachable(g, x)
    ensures Walk(g', q) && q[0] == g.entry && q[|q| - 1] == x && NoDup(q)
  {
    q := [x];
    if x != g.entry {
      var p :| IsPath(g, g.Labels(), p) && p[0] == g.entry && p[|p| - 1] == x;
      q := CountedWalk(g, heads, g', p, |p| - 1);
      q := SimpleWalk(g', q);
    }
  }

  // ----- a walk that goes round for ever -----

  /** The walk `p` followed by endless turns of the loop `r`. */
  ghost function Endless(p: seq<Label>, r: seq<Label>): nat -> Label
    requires |p| >= 1 && |r| >= 2
  {
    (i: nat) => if i < |p| then p[i] else r[(i - |p|) % (|r| - 1) + 1]
  }

  ghost predicate Follows(g: Cfg, walk: nat -> Label) {
    forall i: nat, j: nat :: j == i + 1 ==> g.Edge(walk(i), walk(j))
  }

  lemma {:induction false} EndlessEdges(g: Cfg, p: seq<Label>, r: seq<Label>, i: nat)
    requires Walk(g, p) && Walk(g, r) && |r| >= 2 && r[0] == r[|r| - 1] == p[|p| - 1]
    ensures g.Edge(Endless(p, r)(i), Endless(p, r)(i + 1))
  {
    if i + 1 < |p| {
      assert g.Edge(p[i], p[i + 1]);
    } else if i + 1 == |p| {
      assert 0 % (|r| - 1) == 0;
      assert g.Edge(r[0], r[1]);
    } else {
      var m := |r| - 1;
      var k := (i - |p|) % m;
      NextRemainder(i - |p|, m);
      if k + 1 < m {
        assert g.Edge(r[k + 1], r[k + 2]);
      } else {
        assert g.Edge(r[0], r[1]);
      }
    }
  }

  lemma {:induction false} NextRemainder(a: nat, m: nat)
    requires m > 0
    ensures (a + 1) % m == if a % m + 1 < m then a % m + 1 else 0
  {
    var q, k := a / m, a % m;
    if k + 1 < m {
      UniqueRemainder(a + 1, m, q, k + 1);
    } else {
      assert a + 1 == (q + 1) * m;
      UniqueRemainder(a + 1, m, q + 1, 0);
    }
  }

  /** How often `c` occurs among the first `n` labels of `walk`. */
  ghost function Seen(walk: nat -> Label, c: Label, n: nat): nat {
    if n == 0 then 0 else Seen(walk, c, n - 1) + if walk(n - 1) == c then 1 else 0
  }

  /** A label off the loop is seen at most once. */
  lemma {:induction false} SeenOnce(p: seq<Label>, r: seq<Label>, c: Label, n: nat)
    requires NoDup(p) && |p| >= 1 && |r| >= 2 && c !in r
    ensures Seen(Endless(p, r), c, n) <= 1
    ensures n <= |p| && c !in p[..n] ==> Seen(Endless(p, r), c, n) == 0
  {
    if n > 0 {
      SeenOnce(p, r, c, n - 1);
      if n <= |p| {
        assert p[..n] == p[..n - 1] + [p[n - 1]];
        if p[n - 1] == c {
          assert forall i :: 0 <= i < n - 1 ==> p[i] != c;
        }
      } else {
        assert Endless(p, r)(n - 1) in r;
      }
    }
  }

  // ----- the program -----

  /** Values that are either everything or nothing. */
  ghost function Coarse(walk: nat -> Label, counters: set<Label>): Domain<bool, nat, Label> {
    Domain(
      false,
      (d: bool) => !d,
      (a: bool, b: bool) => a ==> b,
      (a: bool, b: bool) => a || b,
      (a: bool, b: bool) => a && b,
      (a: bool, b: bool, c: bool) => a || b,
      (a: bool, b: bool) => a && b,
      (l: Label, d: bool) => d,
      (l: Label, p: Label, d: bool) => p in counters,
      (d: bool, l: Label) => d,
      (d: bool) => (0, if d then 0 else 1),
      (d: bool, s: nat) => d,
      (l: Label, s: nat, s': nat) => l == walk(s) && s' == s + 1,
      (p: Label, s: nat) => Seen(walk, p, s) <= LIMIT,
      (s: nat, l: Label) => s)
  }

  lemma {:induction false} CoarseIsSound(walk: nat -> Label, counters: set<Label>)
    requires forall c, n :: c in counters ==> Seen(walk, c, n) <= LIMIT
    ensures Sound(Coarse(walk, counters))
  {
  }

  ghost function Walked(g': Cfg, walk: nat -> Label, counters: set<Label>): Setup<bool, nat, Label> {
    Setup(Program(g', counters, map l | l in g'.children :: if l in counters then [l] else []),
          Coarse(walk, counters), (s: nat) => s == 0)
  }

  ghost function Everything(g': Cfg): Table<bool> {
    map l | l in g'.children :: InvariantPair(true, false, true)
  }

  /** Some run has exactly `n` steps. */
  ghost predicate HasRun<D, S(!new), A>(z: Setup<D, S, A>, n: nat) {
    exists v, s :: Reach(z, n, v, s)
  }

  lemma {:induction false} WalkIsReached(z: Setup<bool, nat, Label>, walk: nat -> Label, n: nat)
    requires z == Walked(z.prog.cfg, walk, z.prog.counters) && walk(0) == z.prog.cfg.entry
    requires Follows(z.prog.cfg, walk)
    ensures Reach(z, n, walk(n), n)
  {
    if n > 0 {
      WalkIsReached(z, walk, n - 1);
      assert z.prog.cfg.Edge(walk(n - 1), walk(n)) && z.dom.step(walk(n - 1), n - 1, n);
    }
  }

  lemma {:induction false} WalkIsVerified(z: Setup<bool, nat, Label>, walk: nat -> Label, g: Cfg, heads: set<Label>)
    requires z == Walked(z.prog.cfg, walk, z.prog.counters) && z.prog.cfg.WellFormed()
    requires forall c, n :: c in z.prog.counters ==> Seen(walk, c, n) <= LIMIT
    ensures Verified(z, Everything(z.prog.cfg), true)
  {
    forall n: nat, v, s | Reach(z, n, v, s) ensures v in z.prog.cfg.children && AllHold(z, v, s) {
      ReachIsReachable(z, n, v, s);
      LabelReached(z.prog.cfg, v);
    }
  }

  /** The counters of a nested order bound nothing: some sound setup on the counted graph satisfies
      all loop bounds in every reachable state and has a run of every length, and no value fails a check,
      so that no analysis of it can record an error. */
  lemma {:induction false} NestedCyclesEscape(g: Cfg, w: WeakOrder.Wto, g': Cfg)
    returns (z: Setup<bool, nat, Label>, t: Table<bool>, count: (nat, Label) -> int, bound: Label -> Label)
    requires g.WellFormed() && WeakOrder.Valid(g, w) && !Flat(w.components)
    requires Counted(g, Range(LoopHeads(w.components)), g')
    ensures z.prog.cfg == g' && CountedProgram(g, LoopHeads(w.components), z.prog, bound) && Sound(z.dom)
    ensures CountsLoops(z.dom, Range(LoopHeads(w.components)), count, bound)
    ensures Verified(z, t, true) && exists s0 :: z.init(s0)
    ensures forall n: nat :: HasRun(z, n)
    ensures forall origin, l, d :: !Fails(z.prog, z.dom, origin, l, d)
  {
    hide WeakOrder.Valid, Flat, Cfg.WellFormed, LoopHeads, Sound, Verified, IsPath, NoDup, Walk, CountedProgram,
      CountsLoops, Reachable;
    var heads := LoopHeads(w.components);
    var p, r := EndlessParts(g, w, g');
    var walk := Endless(p, r);
    var counters := CounterLabels(Range(heads));
    forall i: nat, j: nat | j == i + 1 ensures g'.Edge(walk(i), walk(j)) {
      EndlessEdges(g', p, r, i);
    }
    forall c, n | c in counters ensures Seen(walk, c, n) <= LIMIT {
      SeenOnce(p, r, c, n);
    }
    z := Walked(g', walk, counters);
    t := Everything(g');
    bound := (l: Label) => l;
    count := (s: nat, h: Label) => Seen(walk, CounterLabel(h), s);
    CoarseIsSound(walk, counters);
    WalkIsVerified(z, walk, g, Range(heads));
    assert z.init(0);
    forall n: nat ensures HasRun(z, n) {
      WalkIsReached(z, walk, n);
    }
    WalkCounts(g, w, g', walk, z, count, bound);
    forall origin, l, d ensures !Fails(z.prog, z.dom, origin, l, d) {
      WalkChecks(z, walk, origin, l, d);
    }
  }

  lemma {:induction false} WalkChecks(z: Setup<bool, nat, Label>, walk: nat -> Label, origin: bool, l: Label, d: bool)
    requires z == Walked(z.prog.cfg, walk, z.prog.counters)
    ensures !Fails(z.prog, z.dom, origin, l, d)
  {
  }

  lemma {:induction false} EndlessParts(g: Cfg, w: WeakOrder.Wto, g': Cfg) returns (p: seq<Label>, r: seq<Label>)
    requires g.WellFormed() && WeakOrder.Valid(g, w) && !Flat(w.components)
    requires Counted(g, Range(LoopHeads(w.components)), g')
    ensures Walk(g', p) && Walk(g', r) && |p| >= 1 && |r| >= 2 && r[0] == r[|r| - 1] == p[|p| - 1] && NoDup(p)
            && p[0] == g'.entry
    ensures forall c :: c in CounterLabels(Range(LoopHeads(w.components))) ==> c !in r
  {
    hide WeakOrder.Valid, Flat, LoopHeads, Reachable, Cfg.WellFormed;
    var heads := Range(LoopHeads(w.components));
    r := NestedLoopAvoids(g, w, 1);
    assert IsPath(g, g.Labels(), r);
    p := WalkFromEntry(g, heads, g', r[0]);
    forall i, j | 0 <= i && j == i + 1 && j < |r| ensures g'.Edge(r[i], r[j]) {
      assert g.Edge(r[i], r[j]);
      assert CountedEdge(g, heads, r[i], r[j]);
    }
    assert Walk(g', r);
  }

  lemma {:induction false} WalkCounts(g: Cfg, w: WeakOrder.Wto, g': Cfg, walk: nat -> Label, z: Setup<bool, nat, Label>,
                                      count: (nat, Label) -> int, bound: Label -> Label)
    requires g.WellFormed() && WeakOrder.Valid(g, w) && Counted(g, Range(LoopHeads(w.components)), g')
    requires z == Walked(g', walk, CounterLabels(Range(LoopHeads(w.components))))
    requires bound == ((l: Label) => l) && forall s: nat, h :: count(s, h) == Seen(walk, CounterLabel(h), s)
    ensures CountedProgram(g, LoopHeads(w.components), z.prog, bound)
    ensures CountsLoops(z.dom, Range(LoopHeads(w.components)), count, bound)
  {
    hide WeakOrder.Valid, Cfg.WellFormed, LoopHeads;
    var heads := LoopHeads(w.components);
    HeadsAreLabels(g, w);
    forall h | h in heads
      ensures CounterLabel(h) in z.prog.assertions && z.prog.assertions[CounterLabel(h)] == [bound(CounterLabel(h))] {
      assert h in Range(heads);
    }
  }
}
