/** Bounded loops: what an accepted program's counters say about the length of its runs
    (src/crab/ebpf_checker.cpp:172-178, src/crab/ebpf_transformer.cpp:1332-1342,
    src/ir/cfg_builder.cpp:288-311, src/fwd_analyzer.cpp:102-123). */
module Termination {
  import opened ControlFlow
  import opened WtoTree
  import opened WtoTheorem
  import WeakOrder
  import opened LoopCuts
  import opened Counters
  import opened CountedWto
  import opened AbstractDomain
  import opened Coverage
  import opened Derivation
  import opened FixpointEngine
  import opened Analyzer

  /** The largest counter value that a bound assertion admits. */
  const LIMIT: int := 100000

  /** The step at a counter adds one to the counter of its head, no other step changes it, and the
      bound assertion of a counter compares it with the limit. */
  ghost predicate CountsLoops<D, S(!new), A>(
    dom: Domain<D, S, A>, heads: set<Label>, count: (S, Label) -> int, bound: Label -> A) {
    && (forall l, s, s', h {:trigger dom.step(l, s, s'), count(s', h)} ::
          dom.step(l, s, s') && h in heads ==> count(s', h) == count(s, h) + (if l == CounterLabel(h) then 1 else 0))
    && (forall h, s :: h in heads ==> (dom.holds(bound(CounterLabel(h)), s) <==> count(s, h) <= LIMIT))
  }

  /** The counter labels of `heads` are distinct and carry their bound. */
  ghost predicate BoundedCounters<A>(heads: seq<Label>, prog: Program<A>, bound: Label -> A) {
    && NoDup(heads)
    && (forall h, k :: h in heads && k in heads && CounterLabel(h) == CounterLabel(k) ==> h == k)
    && forall h :: h in heads ==>
                     CounterLabel(h) in prog.assertions && prog.assertions[CounterLabel(h)] == [bound(CounterLabel(h))]
  }

  /** A program whose heads are counted and whose counters carry their bound. */
  ghost predicate CountedProgram<A>(g: Cfg, heads: seq<Label>, prog: Program<A>, bound: Label -> A) {
    && Counted(g, Range(heads), prog.cfg)
    && prog.counters == CounterLabels(Range(heads))
    && BoundedCounters(heads, prog, bound)
  }

  /** The same program started in one state. */
  ghost function From<D, S(!new), A>(z: Setup<D, S, A>, s0: S): Setup<D, S, A> {
    z.(init := s => s == s0)
  }

  /** How often the counter of a head can still be passed. */
  ghost function Room(value: int): nat {
    if value <= LIMIT then LIMIT + 1 - value else 0
  }

  ghost function TotalRoom<S>(count: (S, Label) -> int, s0: S, heads: seq<Label>): nat {
    if heads == [] then 0
    else TotalRoom(count, s0, heads[..|heads| - 1]) + Room(count(s0, heads[|heads| - 1]))
  }

  /** The length that no run from `s0` exceeds in a graph of `n` labels. */
  ghost function RunLimit<S>(count: (S, Label) -> int, s0: S, heads: seq<Label>, n: nat): nat {
    TotalRoom(count, s0, heads) * (n + 2) + n + 1
  }

  /** How often counters have been passed since `s0`. */
  ghost function Passed<S>(count: (S, Label) -> int, s0: S, s: S, heads: seq<Label>): int {
    if heads == [] then 0
    else
      var h := heads[|heads| - 1];
      Passed(count, s0, s, heads[..|heads| - 1]) + count(s, h) - count(s0, h)
  }

  lemma {:induction false} PassedNone<S>(count: (S, Label) -> int, s0: S, heads: seq<Label>)
    ensures Passed(count, s0, s0, heads) == 0
  {
    if heads != [] {
      PassedNone(count, s0, heads[..|heads| - 1]);
    }
  }

  lemma {:induction false} PassedFits<S>(count: (S, Label) -> int, s0: S, s: S, heads: seq<Label>)
    requires forall h :: h in heads ==> 0 <= count(s, h) - count(s0, h) <= Room(count(s0, h))
    ensures 0 <= Passed(count, s0, s, heads) <= TotalRoom(count, s0, heads)
  {
    if heads != [] {
      PassedFits(count, s0, s, heads[..|heads| - 1]);
    }
  }

  /** A step that changes no counter but possibly that of `c` by one. */
  lemma {:induction false} PassedStep<S>(count: (S, Label) -> int, s0: S, s: S, s': S, heads: seq<Label>, c: Label)
    requires NoDup(heads)
    requires forall h, k :: h in heads && k in heads && CounterLabel(h) == CounterLabel(k) ==> h == k
    requires forall h :: h in heads ==> count(s', h) == count(s, h) + if c == CounterLabel(h) then 1 else 0
    ensures Passed(count, s0, s', heads) ==
            Passed(count, s0, s, heads) + if c in CounterLabels(Range(heads)) then 1 else 0
  {
    if heads != [] {
      var n := |heads| - 1;
      var h, init := heads[n], heads[..n];
      assert heads == init + [h];
      assert forall k :: k in init ==> k in heads;
      PassedStep(count, s0, s, s', init, c);
      assert c in CounterLabels(Range(heads)) <==> c in CounterLabels(Range(init)) || c == CounterLabel(h) by {
        assert Range(heads) == Range(init) + {h};
      }
      if c == CounterLabel(h) {
        assert c !in CounterLabels(Range(init)) by {
          assert h !in init;
        }
      }
    }
  }

  // ----- the potential of a run -----

  /** How far a label is from using up the steps between two counters. */
  ghost function Level(order: seq<Label>, heads: set<Label>, v: Label): nat {
    if v in CounterLabels(heads) then |order| + 1
    else if v in heads then |order|
    else Position(order, v)
  }

  lemma {:induction false} LevelBounded(order: seq<Label>, heads: set<Label>, v: Label)
    ensures Level(order, heads, v) <= |order| + 1
  {
  }

  /** Edges that leave no counter climb. */
  ghost predicate Climbing(order: seq<Label>, heads: set<Label>, g: Cfg) {
    && (g.entry in order || g.entry in CounterLabels(heads))
    && forall u, v :: g.Edge(u, v) && (u in order || u in CounterLabels(heads)) ==> Climbs(order, heads, u, v)
  }

  ghost predicate Climbs(order: seq<Label>, heads: set<Label>, u: Label, v: Label) {
    && (v in order || v in CounterLabels(heads))
    && (u !in CounterLabels(heads) ==> Level(order, heads, u) < Level(order, heads, v))
  }

  // ----- two ways to be climbing -----

  /** Every head leads to its counter and nowhere else, and no counter is a head. */
  ghost predicate HeadsCounted(g: Cfg, heads: set<Label>) {
    && (forall h :: h in heads ==> g.Edge(h, CounterLabel(h)) && CounterLabel(h) !in heads)
    && (forall h, x :: h in heads && g.Edge(h, x) ==> x == CounterLabel(h))
  }

  /** A graph that has counters after heads which cut all its loops. */
  lemma {:induction false} CountersInPlaceClimb(g: Cfg, order: seq<Label>, heads: set<Label>)
    requires NoDup(order) && g.entry in order && heads <= Range(order) && Cuts(g, order, heads)
             && HeadsCounted(g, heads)
    ensures Climbing(order, heads, g)
  {
    hide NoDup, Precedes, Cfg.Edge;
    forall u, v | g.Edge(u, v) && (u in order || u in CounterLabels(heads)) ensures Climbs(order, heads, u, v) {
      if u in CounterLabels(heads) {
        var h :| h in heads && u == CounterLabel(h);
        assert h in order && g.Edge(h, u);
        assert u in order;
      } else if u !in heads && v !in heads {
        PrecedesByPosition(order, u, v);
      }
    }
  }

  /** What the order of a graph without counters and the heads to be counted have to do with each other. */
  ghost predicate CountedOrder(g: Cfg, order: seq<Label>, heads: set<Label>) {
    g.WellFormed() && NoDup(order) && g.entry in order && heads <= Range(order) && Cuts(g, order, heads)
  }

  /** A graph into which counters have been inserted. */
  lemma {:induction false} InsertedCountersClimb(g: Cfg, order: seq<Label>, heads: set<Label>, g': Cfg)
    requires CountedOrder(g, order, heads) && Counted(g, heads, g')
    ensures Climbing(order, heads, g')
  {
    hide Counted, Cfg.WellFormed, NoDup, Precedes;
    assert g'.entry == g.entry by {
      SameEntry(g, heads, g');
    }
    forall u, v | g'.Edge(u, v) && (u in order || u in CounterLabels(heads)) ensures Climbs(order, heads, u, v) {
      EdgeSource(g, heads, g', u, v);
      if u in CounterLabels(heads) {
        var h :| h in heads && u == CounterLabel(h) && g.Edge(h, v);
        assert h in order;
      } else if u !in heads {
        assert g.Edge(u, v);
        if v !in heads {
          PrecedesByPosition(order, u, v);
        }
      }
    }
  }

  lemma {:induction false} SameEntry(g: Cfg, heads: set<Label>, g': Cfg)
    requires Counted(g, heads, g')
    ensures g'.entry == g.entry
  {
  }

  lemma {:induction false} EdgeSource(g: Cfg, heads: set<Label>, g': Cfg, u: Label, v: Label)
    requires g.WellFormed() && Counted(g, heads, g') && g'.Edge(u, v)
    ensures u in CounterLabels(heads) ==> exists h :: h in heads && u == CounterLabel(h) && g.Edge(h, v)
    ensures u !in CounterLabels(heads) && u in heads ==> v == CounterLabel(u)
    ensures u !in CounterLabels(heads) && u !in heads ==> g.Edge(u, v) && v !in CounterLabels(heads)
  {
    TargetIsLabel(g, u, v);
    hide Cfg.WellFormed;
    assert CountedEdge(g, heads, u, v);
    assert forall c :: c in CounterLabels(heads) ==> c !in g.children;
  }

  lemma {:induction false} TargetIsLabel(g: Cfg, u: Label, v: Label)
    requires g.WellFormed()
    ensures g.Edge(u, v) ==> v in g.children
  {
  }

  /** What holds of every state `s` that a run from `s0` brings to `v` after `n` steps. */
  ghost predicate Progress<S>(
    count: (S, Label) -> int, order: seq<Label>, heads: seq<Label>, s0: S, n: nat, v: Label, s: S) {
    && (v in order || v in CounterLabels(Range(heads)))
    && (forall h :: h in heads ==> 0 <= count(s, h) - count(s0, h) <= Room(count(s0, h)))
    && n <= Passed(count, s0, s, heads) * (|order| + 2) + Level(order, Range(heads), v)
  }

  lemma {:induction false} StepProgress<S>(count: (S, Label) -> int, g: Cfg, order: seq<Label>, heads: seq<Label>,
                                           s0: S, n: nat, u: Label, s: S, v: Label, s': S)
    requires NoDup(heads) && forall h, k :: h in heads && k in heads && CounterLabel(h) == CounterLabel(k) ==> h == k
    requires Climbing(order, Range(heads), g) && g.Edge(u, v)
    requires Progress(count, order, heads, s0, n, u, s)
    requires forall h :: h in heads ==> count(s', h) == count(s, h) + if u == CounterLabel(h) then 1 else 0
    requires forall h :: h in heads && u == CounterLabel(h) ==> count(s, h) <= LIMIT
    ensures Progress(count, order, heads, s0, n + 1, v, s')
  {
    hide NoDup, Level, CounterLabels, Passed, Cfg.Edge;
    assert Climbs(order, Range(heads), u, v);
    PassedStep(count, s0, s, s', heads, u);
    LevelBounded(order, Range(heads), u);
    assert n + 1 <= Passed(count, s0, s', heads) * (|order| + 2) + Level(order, Range(heads), v) by {
      Climb(n, Passed(count, s0, s, heads), Passed(count, s0, s', heads), |order|,
            Level(order, Range(heads), u), Level(order, Range(heads), v), u in CounterLabels(Range(heads)));
    }
  }

  lemma {:induction false} Climb(n: nat, passed: int, passed': int, size: nat, level: nat, level': nat, counter: bool)
    requires n <= passed * (size + 2) + level && level <= size + 1
    requires if counter then passed' == passed + 1 else passed' == passed && level < level'
    ensures n + 1 <= passed' * (size + 2) + level'
  {
    if counter {
      assert passed' * (size + 2) == passed * (size + 2) + size + 2;
    }
  }

  lemma {:induction false} RunProgress<D, S(!new), A(!new)>(
    z: Setup<D, S, A>, t: Table<D>, order: seq<Label>, heads: seq<Label>, count: (S, Label) -> int, bound: Label -> A,
    s0: S, n: nat, v: Label, s: S)
    requires Climbing(order, Range(heads), z.prog.cfg) && BoundedCounters(heads, z.prog, bound)
    requires CountsLoops(z.dom, Range(heads), count, bound) && Verified(z, t, true)
    requires z.init(s0) && Reach(From(z, s0), n, v, s)
    ensures Progress(count, order, heads, s0, n, v, s) && Reach(z, n, v, s)
    decreases n
  {
    hide Verified, NoDup, Level, CountsLoops, Climbs;
    var z0 := From(z, s0);
    if n == 0 {
      PassedNone(count, s0, heads);
    } else {
      var u, r :| Reach(z0, n - 1, u, r) && z.prog.cfg.Edge(u, v) && z.dom.step(u, r, s);
      RunProgress(z, t, order, heads, count, bound, s0, n - 1, u, r);
      StepCounts(z, t, heads, count, bound, n - 1, u, r, s);
      hide Climbing;
      StepProgress(count, z.prog.cfg, order, heads, s0, n - 1, u, r, v, s);
    }
  }

  lemma {:induction false} StepCounts<D, S(!new), A(!new)>(
    z: Setup<D, S, A>, t: Table<D>, heads: seq<Label>, count: (S, Label) -> int, bound: Label -> A, n: nat,
    u: Label, r: S, s: S)
    requires BoundedCounters(heads, z.prog, bound) && CountsLoops(z.dom, Range(heads), count, bound)
             && Verified(z, t, true)
    requires Reach(z, n, u, r) && z.dom.step(u, r, s)
    ensures forall h :: h in heads ==> count(s, h) == count(r, h) + if u == CounterLabel(h) then 1 else 0
    ensures forall h :: h in heads && u == CounterLabel(h) ==> count(r, h) <= LIMIT
  {
    hide NoDup, Reach;
    assert AllHold(z, u, r);
    forall h | h in heads ensures count(s, h) == count(r, h) + if u == CounterLabel(h) then 1 else 0 {
      assert h in Range(heads);
    }
    forall h | h in heads && u == CounterLabel(h) ensures count(r, h) <= LIMIT {
      assert h in Range(heads) && bound(CounterLabel(h)) in z.prog.assertions[u];
    }
  }

  /** An accepted program whose counters cut every loop has no run beyond its limit. */
  lemma {:induction false} RunsAreBounded<D, S(!new), A(!new)>(
    z: Setup<D, S, A>, t: Table<D>, order: seq<Label>, heads: seq<Label>, count: (S, Label) -> int, bound: Label -> A)
    requires Climbing(order, Range(heads), z.prog.cfg) && BoundedCounters(heads, z.prog, bound)
    requires CountsLoops(z.dom, Range(heads), count, bound) && Verified(z, t, true)
    ensures forall s0, n: nat, v, s ::
              z.init(s0) && Reach(From(z, s0), n, v, s) ==> n <= RunLimit(count, s0, heads, |order|)
  {
    hide Verified, NoDup, CountsLoops, BoundedCounters, Climbing, Level;
    forall s0, n: nat, v, s | z.init(s0) && Reach(From(z, s0), n, v, s)
      ensures n <= RunLimit(count, s0, heads, |order|) {
      RunProgress(z, t, order, heads, count, bound, s0, n, v, s);
      PassedFits(count, s0, s, heads);
      LevelBounded(order, Range(heads), v);
      WithinRoom(n, Passed(count, s0, s, heads), TotalRoom(count, s0, heads), |order|, Level(order, Range(heads), v));
    }
  }

  lemma {:induction false} WithinRoom(n: nat, passed: int, room: nat, size: nat, level: nat)
    requires n <= passed * (size + 2) + level && level <= size + 1 && passed <= room
    ensures n <= room * (size + 2) + size + 1
  {
    assert passed * (size + 2) <= room * (size + 2);
  }

  /** With counters that start at zero the limit depends on the sizes only. */
  lemma {:induction false} RoomFromZero<S>(count: (S, Label) -> int, s0: S, heads: seq<Label>)
    requires forall h :: h in heads ==> count(s0, h) == 0
    ensures TotalRoom(count, s0, heads) == |heads| * (LIMIT + 1)
  {
    if heads != [] {
      RoomFromZero(count, s0, heads[..|heads| - 1]);
    }
  }

  // ----- accepted programs stop -----

  /** Setting the counter of one head to zero leaves the others alone. */
  ghost predicate ZeroesCounters<D, S(!new), A>(dom: Domain<D, S, A>, heads: set<Label>, count: (S, Label) -> int) {
    forall s, h, k :: h in heads && k in heads ==> count(dom.zero(s, h), k) == if k == h then 0 else count(s, k)
  }

  lemma {:induction false} ZeroAllIsZero<D, S(!new), A>(
    dom: Domain<D, S, A>, heads: seq<Label>, all: set<Label>, count: (S, Label) -> int, s: S)
    requires ZeroesCounters(dom, all, count) && Range(heads) <= all
    ensures forall h :: h in heads ==> count(ZeroAll(dom, heads, s), h) == 0
  {
    if heads != [] {
      var n := |heads| - 1;
      assert heads == heads[..n] + [heads[n]];
      assert Range(heads[..n]) <= all;
      ZeroAllIsZero(dom, heads[..n], all, count, s);
      var s1 := ZeroAll(dom, heads[..n], s);
      forall h | h in heads ensures count(ZeroAll(dom, heads, s), h) == 0 {
        assert h in Range(heads) && heads[n] in Range(heads);
        assert count(dom.zero(s1, heads[n]), h) == if h == heads[n] then 0 else count(s1, h);
      }
    }
  }

  lemma {:induction false} ReachFromSome<D, S(!new), A(!new)>(z: Setup<D, S, A>, n: nat, v: Label, s: S) returns (s0: S)
    requires Reach(z, n, v, s)
    ensures z.init(s0) && Reach(From(z, s0), n, v, s)
    decreases n
  {
    if n == 0 {
      s0 := s;
    } else {
      var u, r :| Reach(z, n - 1, u, r) && z.prog.cfg.Edge(u, v) && z.dom.step(u, r, s);
      s0 := ReachFromSome(z, n - 1, u, r);
    }
  }

  /** The length that no run exceeds, from the sizes of the order. */
  ghost function SizeLimit(cs: seq<Component>): nat {
    |LoopHeads(cs)| * (LIMIT + 1) * (|Order(cs)| + 2) + |Order(cs)| + 1
  }

  /** Each head can be passed 100001 times, and between two such passes lie no more steps than there are labels. */
  lemma {:induction false} SizeLimitInNumbers(cs: seq<Component>)
    ensures SizeLimit(cs) == |LoopHeads(cs)| * 100001 * (|Order(cs)| + 2) + |Order(cs)| + 1
  {
  }

  /** An accepted program without nested cycles whose heads are followed by their counters has no run
      longer than what the limit, its heads and its labels allow. */
  lemma {:induction false} AcceptedRunsStop<D, S(!new), A(!new)>(
    prog: Program<A>, dom: Domain<D, S, A>, entryInv: D, w: WeakOrder.Wto, t: Table<D>, count: (S, Label) -> int,
    bound: Label -> A,
    n: nat, v: Label, s: S)
    requires prog.WellFormed() && WeakOrder.Valid(prog.cfg, w) && Flat(w.components)
    requires HeadsCounted(prog.cfg, Range(LoopHeads(w.components)))
             && BoundedCounters(LoopHeads(w.components), prog, bound)
    requires CountsLoops(dom, Range(LoopHeads(w.components)), count, bound)
    requires ZeroesCounters(dom, Range(LoopHeads(w.components)), count)
    requires Verified(SetupOf(prog, dom, entryInv, w.components, true), t, true)
    requires Reach(SetupOf(prog, dom, entryInv, w.components, true), n, v, s)
    ensures n <= SizeLimit(w.components)
  {
    hide Verified, Reach, CountsLoops, BoundedCounters, LoopHeads, Flat, HeadsCounted, ZeroesCounters;
    var z := SetupOf(prog, dom, entryInv, w.components, true);
    var heads := LoopHeads(w.components);
    var s0 := ReachFromSome(z, n, v, s);
    var entry :| dom.gamma(entryInv, entry) && s0 == ZeroAll(dom, heads, entry);
    ZeroAllIsZero(dom, heads, Range(heads), count, entry);
    RoomFromZero(count, s0, heads);
    FlatOrderCounted(prog.cfg, w);
    hide WeakOrder.Valid, Program.WellFormed;
    CountersInPlaceClimb(prog.cfg, Order(w.components), Range(heads));
    hide CountedOrder;
    RunsAreBounded(z, t, Order(w.components), heads, count, bound);
  }

  // ----- building and analysing a program -----

  datatype Built<A> = Taken | Built(wto: WeakOrder.Wto, prog: Program<A>)

  /** Inserts a counter after the head of each outermost cycle and attaches the assertions.  Fails
      exactly if a counter label of the order that is built is already in use. */
  method BuildProgram<A>(g: Cfg, assertionsAt: Label -> seq<A>, bound: Label -> A) returns (built: Built<A>)
    requires g.WellFormed() && forall u :: !g.Edge(u, g.entry)
    ensures built.Built? ==> WeakOrder.Valid(g, built.wto) && WeakOrder.IsBuilt(g, built.wto) && built.prog.WellFormed()
    ensures built.Built? ==> CountedProgram(g, LoopHeads(built.wto.components), built.prog, bound)
    ensures built.Built? && DistinctChildren(g) ==> Threaded(g, Range(LoopHeads(built.wto.components)), built.prog.cfg)
    ensures built.Built? ==> forall l :: l in g.children ==>
                                           l in built.prog.assertions && built.prog.assertions[l] == assertionsAt(l)
    ensures built.Taken? <==> forall w :: WeakOrder.IsBuilt(g, w) ==> !Insertable(g, Range(LoopHeads(w.components)))
  {
    hide Counted, Threaded, DistinctChildren, WeakOrder.Valid, WeakOrder.IsBuilt, LoopHeads, NoDup, Insertable,
      Cfg.WellFormed, Program.WellFormed, CountedProgram;
    var wto := WeakOrder.BuildWto(g);
    var heads := LoopHeads(wto.components);
    HeadsAreLabels(g, wto);
    forall w | WeakOrder.IsBuilt(g, w) ensures w == wto {
      WeakOrder.BuiltIsUnique(g, w, wto);
    }
    var ok, g' := InsertCounters(g, heads);
    if !ok {
      return Taken;
    }
    var counters := set h | h in heads :: CounterLabel(h);
    var assertions := map l | l in g'.children :: if l in counters then [bound(l)] else assertionsAt(l);
    var prog := Program(g', counters, assertions);
    assert counters == CounterLabels(Range(heads));
    ProgramBuilt(g, heads, prog, assertionsAt, bound);
    return Built(wto, prog);
  }

  lemma {:induction false} ProgramBuilt<A>(
    g: Cfg, heads: seq<Label>, prog: Program<A>, assertionsAt: Label -> seq<A>, bound: Label -> A)
    requires g.WellFormed() && (forall u :: !g.Edge(u, g.entry)) && NoDup(heads) && Counted(g, Range(heads), prog.cfg)
    requires prog.counters == CounterLabels(Range(heads)) && prog.assertions.Keys == prog.cfg.children.Keys
    requires forall l ::
               l in prog.cfg.children ==>
                 prog.assertions[l] == if l in prog.counters then [bound(l)] else assertionsAt(l)
    ensures prog.WellFormed() && CountedProgram(g, heads, prog, bound)
    ensures forall l :: l in g.children ==> l in prog.assertions && prog.assertions[l] == assertionsAt(l)
  {
    hide Counted, NoDup;
    CountedFacts(g, Range(heads), prog.cfg);
    CountersDistinct(g, heads, prog.cfg);
    hide Cfg.WellFormed;
    forall h | h in heads ensures CounterLabel(h) in prog.counters {
      assert h in Range(heads);
    }
  }

  lemma {:induction false} CountersDistinct(g: Cfg, heads: seq<Label>, g': Cfg)
    requires Counted(g, Range(heads), g')
    ensures forall h, k :: h in heads && k in heads && CounterLabel(h) == CounterLabel(k) ==> h == k
  {
    assert forall h :: h in heads ==> h in Range(heads);
  }

  lemma {:induction false} HeadsAreLabels(g: Cfg, w: WeakOrder.Wto)
    requires g.WellFormed() && WeakOrder.Valid(g, w)
    ensures NoDup(LoopHeads(w.components)) && forall h ::
              h in LoopHeads(w.components) ==> h in g.children && h in Order(w.components)
  {
    LoopHeadsDistinct(w.components);
    forall h | h in LoopHeads(w.components) ensures h in g.children && h in Order(w.components) {
      LoopHeadsAreMembers(w.components, h);
      LabelReached(g, h);
    }
  }

  lemma {:induction false} CountedFacts(g: Cfg, heads: set<Label>, g': Cfg)
    requires g.WellFormed() && Counted(g, heads, g') && forall u :: !g.Edge(u, g.entry)
    ensures g'.WellFormed() && g'.children.Keys == g.children.Keys + CounterLabels(heads)
    ensures forall l :: l in CounterLabels(heads) ==> l !in g.children
    ensures forall u :: !g'.Edge(u, g'.entry)
  {
    forall u ensures !g'.Edge(u, g'.entry) {
      assert g'.Edge(u, g'.entry) <==> CountedEdge(g, heads, u, g.entry);
    }
  }

  /** The whole path from a graph to a verdict with termination checking on.  If the program is
      accepted and no cycle of its order is nested, every run stops within a limit known from its
      first state, and, as children are sets, within a limit known from the sizes alone. */
  method AnalyzeBounded<D(!new), S(!new), A(!new)>(
    g: Cfg, dom: Domain<D, S, A>, entryInv: D, assertionsAt: Label -> seq<A>, bound: Label -> A,
    ghost count: (S, Label) -> int)
    returns (built: Built<A>, result: AnalysisResult<D>, ghost origin: D, ghost failing: map<Label, D>)
    requires g.WellFormed() && (forall u :: !g.Edge(u, g.entry)) && Sound(dom)
    ensures built.Taken? <==> forall w :: WeakOrder.IsBuilt(g, w) ==> !Insertable(g, Range(LoopHeads(w.components)))
    ensures built.Built? ==>
              && WeakOrder.IsBuilt(g, built.wto)
              && CountedProgram(g, LoopHeads(built.wto.components), built.prog, bound)
              && (forall l :: l in g.children ==>
                                l in built.prog.assertions && built.prog.assertions[l] == assertionsAt(l))
              && WeakOrder.IsBuilt(built.prog.cfg, result.wto)
              && origin == ResetAll(dom, entryInv, LoopHeads(result.wto.components))
              && (result.failed <==> HasError(result.invariants))
              && FailuresCaused(built.prog, dom, origin, result.invariants, failing)
    ensures built.Built? && !result.failed ==>
              Verified(SetupOf(built.prog, dom, entryInv, result.wto.components, true), result.invariants, true)
    ensures built.Built? && !result.failed && Flat(built.wto.components)
            && CountsLoops(dom, Range(LoopHeads(built.wto.components)), count, bound) ==>
              forall s0, n: nat, v, s ::
                var z := SetupOf(built.prog, dom, entryInv, result.wto.components, true);
                z.init(s0) && Reach(From(z, s0), n, v, s)
                ==> n <= RunLimit(count, s0, LoopHeads(built.wto.components), |Order(built.wto.components)|)
    ensures built.Built? && !result.failed && Flat(built.wto.components) && DistinctChildren(g)
            && CountsLoops(dom, Range(LoopHeads(built.wto.components)), count, bound)
            && ZeroesCounters(dom, Range(LoopHeads(built.wto.components)), count) ==>
              forall n: nat, v, s ::
                Reach(SetupOf(built.prog, dom, entryInv, result.wto.components, true), n, v, s)
                ==> n <= SizeLimit(built.wto.components)
    ensures built.Taken? ==> result.failed
  {
    hide Reach, SetupOf, HasError, Cfg.WellFormed, Program.WellFormed, DistinctChildren, Insertable,
      FailuresCaused, ResetAll, ZeroesCounters, SizeLimit, Threaded, WeakOrder.IsBuilt, Verified, Sound,
      WeakOrder.Valid, CountedProgram, CountsLoops, CountedOrder, Flat, LoopHeads, Order,
      Range, RunLimit, Initials, Counted, BoundedCounters, Climbing;
    built := BuildProgram(g, assertionsAt, bound);
    if built.Taken? {
      result := AnalysisResult(WeakOrder.Wto([], map[], map[]), map[], true);
      origin, failing := entryInv, map[];
      return;
    }
    result, origin, failing := Analyze(built.prog, dom, entryInv, true);
    if !result.failed && Flat(built.wto.components)
       && CountsLoops(dom, Range(LoopHeads(built.wto.components)), count, bound) {
      AcceptedBounds(g, built.wto, built.prog, result.wto, dom, entryInv, result.invariants, count, bound);
    }
  }

  /** What acceptance of a program with a flat order says about its runs. */
  lemma {:induction false} AcceptedBounds<D(!new), S(!new), A(!new)>(
    g: Cfg, w: WeakOrder.Wto, prog: Program<A>, w': WeakOrder.Wto, dom: Domain<D, S, A>, entryInv: D, t: Table<D>,
    count: (S, Label) -> int, bound: Label -> A)
    requires g.WellFormed() && WeakOrder.Valid(g, w) && WeakOrder.IsBuilt(g, w) && WeakOrder.IsBuilt(prog.cfg, w')
    requires CountedProgram(g, LoopHeads(w.components), prog, bound) && Flat(w.components)
    requires DistinctChildren(g) ==> Threaded(g, Range(LoopHeads(w.components)), prog.cfg)
    requires CountsLoops(dom, Range(LoopHeads(w.components)), count, bound)
    requires Verified(SetupOf(prog, dom, entryInv, w'.components, true), t, true)
    ensures forall s0, n: nat, v, s ::
              var z := SetupOf(prog, dom, entryInv, w'.components, true);
              z.init(s0) && Reach(From(z, s0), n, v, s)
              ==> n <= RunLimit(count, s0, LoopHeads(w.components), |Order(w.components)|)
    ensures DistinctChildren(g) && ZeroesCounters(dom, Range(LoopHeads(w.components)), count) ==>
              forall n: nat, v, s ::
                Reach(SetupOf(prog, dom, entryInv, w'.components, true), n, v, s) ==> n <= SizeLimit(w.components)
  {
    hide DistinctChildren, ZeroesCounters, SizeLimit, Threaded, WeakOrder.IsBuilt, Verified, WeakOrder.Valid,
      CountedProgram, CountsLoops, CountedOrder, Flat, LoopHeads, Order, Range, RunLimit, Initials, Counted,
      BoundedCounters, Climbing, Reach;
    var cs := w.components;
    FlatOrderCounted(g, w);
    CountedFactsOf(g, LoopHeads(cs), prog, bound);
    InsertedCountersClimb(g, Order(cs), Range(LoopHeads(cs)), prog.cfg);
    RunsAreBounded(SetupOf(prog, dom, entryInv, w'.components, true), t, Order(cs), LoopHeads(cs), count, bound);
    if DistinctChildren(g) && ZeroesCounters(dom, Range(LoopHeads(cs)), count) {
      CountedOrderIsBuilt(g, w, prog.cfg, w');
      forall n: nat, v, s | Reach(SetupOf(prog, dom, entryInv, w'.components, true), n, v, s)
        ensures n <= SizeLimit(cs) {
        BoundBySizes(prog, dom, entryInv, cs, w'.components, count, n, v, s);
      }
    }
  }

  /** The counters that the analysis sets to zero are those of the heads that were counted. */
  lemma {:induction false} BoundBySizes<D, S(!new), A(!new)>(
    prog: Program<A>, dom: Domain<D, S, A>, entryInv: D, cs: seq<Component>, cs': seq<Component>,
    count: (S, Label) -> int, n: nat, v: Label, s: S)
    requires LoopHeads(cs') == LoopHeads(cs) && ZeroesCounters(dom, Range(LoopHeads(cs)), count)
    requires Reach(SetupOf(prog, dom, entryInv, cs', true), n, v, s)
    requires forall s0, m: nat, u, r ::
               var z := SetupOf(prog, dom, entryInv, cs', true);
               z.init(s0) && Reach(From(z, s0), m, u, r) ==> m <= RunLimit(count, s0, LoopHeads(cs), |Order(cs)|)
    ensures n <= SizeLimit(cs)
  {
    hide Reach, LoopHeads, ZeroesCounters, Order;
    var z := SetupOf(prog, dom, entryInv, cs', true);
    var s0 := ReachFromSome(z, n, v, s);
    var entry :| dom.gamma(entryInv, entry) && s0 == ZeroAll(dom, LoopHeads(cs), entry);
    ZeroAllIsZero(dom, LoopHeads(cs), Range(LoopHeads(cs)), count, entry);
    RoomFromZero(count, s0, LoopHeads(cs));
  }

  lemma {:induction false} CountedFactsOf<A>(g: Cfg, heads: seq<Label>, prog: Program<A>, bound: Label -> A)
    requires CountedProgram(g, heads, prog, bound)
    ensures Counted(g, Range(heads), prog.cfg) && BoundedCounters(heads, prog, bound)
  {
  }

  lemma {:induction false} FlatOrderCounted(g: Cfg, w: WeakOrder.Wto)
    requires g.WellFormed() && WeakOrder.Valid(g, w) && Flat(w.components)
    ensures CountedOrder(g, Order(w.components), Range(LoopHeads(w.components)))
  {
    FlatCuts(g, w);
    HeadsAreLabels(g, w);
  }

  /** Were the heads of all cycles counted, at every depth, nesting would not matter: every accepted
      program would have its runs bounded. */
  lemma {:induction false} AllHeadsCounted<D, S(!new), A(!new)>(
    g: Cfg, w: WeakOrder.Wto, heads: seq<Label>, z: Setup<D, S, A>, t: Table<D>, count: (S, Label) -> int,
    bound: Label -> A)
    requires g.WellFormed() && WeakOrder.Valid(g, w) && Range(heads) == AllHeads(w.components)
    requires CountedProgram(g, heads, z.prog, bound)
    requires CountsLoops(z.dom, Range(heads), count, bound) && Verified(z, t, true)
    ensures forall s0, n: nat, v, s :: z.init(s0) && Reach(From(z, s0), n, v, s) ==>
                                         n <= RunLimit(count, s0, heads, |Order(w.components)|)
  {
    hide CountsLoops, Verified, Counted, BoundedCounters, Reach, RunLimit;
    AllHeadsCut(g, w);
    InsertedCountersClimb(g, Order(w.components), Range(heads), z.prog.cfg);
    hide WeakOrder.Valid, Cfg.WellFormed, Climbing, Cuts;
    RunsAreBounded(z, t, Order(w.components), heads, count, bound);
  }
}
