/** A program that the analysis accepts with termination checking on, and that never stops.

    On the graph of NestedLoop the outer loop is counted, but its way back is never taken; the inner loop
    is not counted, and runs for ever. */
module EndlessProgram {
  import opened ControlFlow
  import opened WtoTree
  import opened LoopCuts
  import opened Counters
  import opened Intervals
  import opened AbstractDomain
  import opened Coverage
  import opened Derivation
  import opened FixpointEngine
  import opened Analyzer
  import opened Termination
  import opened EbpfDomains
  import opened NestedLoop
  import WeakOrder
  import Nontermination

  const C := CounterLabel(A)
  const R := Register(0)
  const LOOPS := LoopCounter(A)

  /** Register 0 is set to zero at the start; the way back from `D` asks for one. */
  function Ins(l: Label): Instruction {
    if l == E then Assign(R, 0)
    else if l == C then IncrementLoopCounter(A)
    else if l == D then AssumeAtLeast(R, 1)
    else Assign(Register(1), 0)
  }

  function Bound(l: Label): Assertion {
    AtMost(LOOPS, LIMIT)
  }

  function NoAssertions(l: Label): seq<Assertion> {
    []
  }

  function Entry(): EbpfDomain {
    Exactly(LOOPS, 0)
  }

  function Dom(): Domain<EbpfDomain, Machine, Assertion> {
    Instance(Ins, {A})
  }

  // ----- what the analysis can find -----

  const ZERO := Interval(At(0), At(0))

  /** The variable is known to be zero, if anything is possible at all. */
  ghost predicate Zero(d: EbpfDomain, v: Variable) {
    d.rcp.Values? ==> Get(d.rcp.bounds, v) == ZERO
  }

  /** The counter is zero up to its own increment; register 0 is zero once it has been set. */
  ghost predicate Kept(l: Label, d: EbpfDomain) {
    && (l == E || l == A || l == C ==> Zero(d, LOOPS))
    && (l == A || l == C || l == B || l == D ==> Zero(d, R))
  }

  lemma {:induction false} ZeroJoins(a: EbpfDomain, b: EbpfDomain, v: Variable)
    requires Zero(a, v) && Zero(b, v)
    ensures Zero(Join(a, b), v) && Zero(Meet(a, b), v) && Zero(Narrow(a, b), v)
  {
  }

  lemma {:induction false} ZeroWidens(limits: EbpfDomain, a: EbpfDomain, b: EbpfDomain, v: Variable, c: bool)
    requires Zero(a, v) && Zero(b, v)
    requires limits.rcp.Values? ==> Common(ZERO, Get(limits.rcp.bounds, v)) == ZERO
    ensures Zero(Widen(limits, a, b, c), v)
  {
  }

  lemma {:induction false} LimitsAllowZero()
    ensures var m := ConstantLimits({A}).rcp.bounds;
            Common(ZERO, Get(m, R)) == ZERO && Common(ZERO, Get(m, LOOPS)) == ZERO
  {
    LimitsHave({A}, R);
    LimitsHave({A}, LOOPS);
    assert 0 in BytesBelow(10);
    hide Limited, BytesBelow, ConstantLimits;
  }

  lemma {:induction false} LimitsHave(counters: set<Label>, v: Variable)
    ensures v in Limited(counters) ==> Get(ConstantLimits(counters).rcp.bounds, v) == LimitOf(v)
    ensures v == Register(0) || (v.LoopCounter? && v.name in counters) ==> v in Limited(counters)
  {
    hide LimitOf;
    assert 0 in BytesBelow(10);
    hide BytesBelow;
  }

  lemma {:induction false} ZeroKept(ins: Instruction, d: EbpfDomain, v: Variable)
    requires Zero(d, v) && v !in Target(ins)
    ensures Zero(Transform(ins, d), v)
  {
    match ins
    case AssumeAtMost(u, k) => NotWorse(d, Interval(Infinite, At(k)), u, v);
    case AssumeAtLeast(u, k) => NotWorse(d, Interval(At(k), Infinite), u, v);
    case _ =>
  }

  /** A constraint on another variable, or one that zero satisfies, leaves zero; any other leaves nothing. */
  lemma {:induction false} NotWorse(d: EbpfDomain, i: Interval, u: Variable, v: Variable)
    requires Zero(d, v)
    ensures Zero(Meet(d, EbpfDomain(Values(map[u := i]), EveryByte())), v)
  {
    if d.rcp.Values? && u == v {
      var m := map x | x in d.rcp.bounds.Keys + {u} :: Common(Get(d.rcp.bounds, x), Get(map[u := i], x));
      assert m[v] == Common(ZERO, i);
      assert m[v] == ZERO || m[v].Empty();
    }
  }

  /** The way back is closed. */
  lemma {:induction false} Blocked(d: EbpfDomain)
    requires Zero(d, R)
    ensures IsBottom(Transform(AssumeAtLeast(R, 1), d))
  {
    if d.rcp.Values? {
      var i := Interval(At(1), Infinite);
      var m := map x | x in d.rcp.bounds.Keys + {R} :: Common(Get(d.rcp.bounds, x), Get(map[R := i], x));
      assert m[R] == Interval(At(1), At(0)) && m[R].Empty();
    }
  }

  /** The edges of the counted graph. */
  ghost predicate CountedEdges(g: Cfg) {
    g.entry == E && forall u, v :: g.Edge(u, v) <==>
                                   (u == E && v == A) || (u == A && v == C) || (u == C && v == B)
                                   || (u == B && (v == B || v == D)) || (u == D && v == A)
  }

  lemma {:induction false} EdgesCounted(g: Cfg)
    requires Counted(G(), {A}, g)
    ensures CountedEdges(g)
  {
    hide Cfg.WellFormed;
    forall u, v ensures g.Edge(u, v) <==>
                        (u == E && v == A) || (u == A && v == C) || (u == C && v == B)
                        || (u == B && (v == B || v == D)) || (u == D && v == A)
    {
      assert g.Edge(u, v) <==> CountedEdge(G(), {A}, u, v);
      assert A in {A} && G().Edge(A, B);
    }
  }

  lemma {:induction false} StepKeeps(u: Label, v: Label, d: EbpfDomain)
    requires (u == E && v == A) || (u == A && v == C) || (u == C && v == B) || (u == B && (v == B || v == D))
             || (u == D && v == A)
    requires Kept(u, d)
    ensures Kept(v, Transform(Ins(u), d))
  {
    hide Transform;
    if u == D {
      Blocked(d);
    } else {
      if v == A || v == C {
        ZeroKept(Ins(u), d, LOOPS);
      }
      if u == E {
        SetToZero(d);
      } else {
        ZeroKept(Ins(u), d, R);
      }
    }
  }

  lemma {:induction false} SetToZero(d: EbpfDomain)
    ensures Zero(Transform(Assign(R, 0), d), R)
  {
  }

  lemma {:induction false} KeptIsInductive(prog: Program<Assertion>, origin: EbpfDomain)
    requires CountedEdges(prog.cfg) && Kept(E, origin)
    ensures Inductive(prog, Dom(), origin, (l: Label, d: EbpfDomain) => Kept(l, d))
  {
    hide Zero, Join, Meet, Narrow, Widen, Transform, Cfg.Edge;
    var keep := (l: Label, d: EbpfDomain) => Kept(l, d);
    var dom := Dom();
    forall l ensures keep(l, dom.bottom) {
      BottomIsZero(LOOPS);
      BottomIsZero(R);
    }
    forall l, a, b | keep(l, a) && keep(l, b)
      ensures keep(l, dom.join(a, b)) && keep(l, dom.meet(a, b)) && keep(l, dom.narrow(a, b)) {
      KeptJoins(l, a, b);
    }
    forall l, a, b, c | keep(l, a) && keep(l, b) ensures keep(l, dom.widen(a, b, c)) {
      KeptWidens(l, a, b, c);
    }
    forall u, v, a | prog.cfg.Edge(u, v) && keep(u, a) ensures keep(v, dom.transform(u, a)) {
      StepKeeps(u, v, a);
    }
  }

  lemma {:induction false} BottomIsZero(v: Variable)
    ensures Zero(BottomValue(), v)
  {
  }

  lemma {:induction false} KeptJoins(l: Label, a: EbpfDomain, b: EbpfDomain)
    requires Kept(l, a) && Kept(l, b)
    ensures Kept(l, Join(a, b)) && Kept(l, Meet(a, b)) && Kept(l, Narrow(a, b))
  {
    hide Zero, Join, Meet, Narrow;
    if Zero(a, LOOPS) && Zero(b, LOOPS) {
      ZeroJoins(a, b, LOOPS);
    }
    if Zero(a, R) && Zero(b, R) {
      ZeroJoins(a, b, R);
    }
  }

  lemma {:induction false} KeptWidens(l: Label, a: EbpfDomain, b: EbpfDomain, c: bool)
    requires Kept(l, a) && Kept(l, b)
    ensures Kept(l, Widen(ConstantLimits({A}), a, b, c))
  {
    LimitsAllowZero();
    hide Zero, Widen, ConstantLimits;
    if Zero(a, LOOPS) && Zero(b, LOOPS) {
      ZeroWidens(ConstantLimits({A}), a, b, LOOPS, c);
    }
    if Zero(a, R) && Zero(b, R) {
      ZeroWidens(ConstantLimits({A}), a, b, R, c);
    }
  }

  // ----- acceptance -----

  /** What the analysed program looks like. */
  ghost predicate Expected(prog: Program<Assertion>) {
    && CountedEdges(prog.cfg) && prog.counters == {C}
    && (forall l :: l in prog.assertions ==> prog.assertions[l] == if l == C then [Bound(C)] else [])
  }

  lemma {:induction false} NothingToRefute(prog: Program<Assertion>, origin: EbpfDomain, l: Label, d: EbpfDomain)
    requires Expected(prog) && Kept(E, origin)
    ensures !Fails(prog, Dom(), origin, l, d)
  {
    hide Inductive, Fails;
    KeptIsInductive(prog, origin);
    forall x, a, e | x in prog.assertions && a in prog.assertions[x] && Kept(x, e) ensures Dom().check(x, a, e) {
      assert a == Bound(C);
    }
    NothingFails(prog, Dom(), origin, (l: Label, d: EbpfDomain) => Kept(l, d), l, d);
  }

  lemma {:induction false} ResetsKeepZero(heads: seq<Label>)
    ensures Zero(ResetAll(Dom(), Entry(), heads), LOOPS)
  {
    if heads != [] {
      ResetsKeepZero(heads[..|heads| - 1]);
    }
  }

  lemma {:induction false} ProgramKeys(prog: Program<Assertion>)
    requires prog.WellFormed() && Counted(G(), {A}, prog.cfg)
    ensures prog.assertions.Keys == G().children.Keys + CounterLabels({A})
  {
  }

  lemma {:induction false} OneCounter()
    ensures CounterLabels({A}) == {C} && Range([A]) == {A}
  {
  }

  lemma {:induction false} ProgramExpected(w: WeakOrder.Wto, prog: Program<Assertion>)
    requires WeakOrder.IsBuilt(G(), w) && CountedProgram(G(), LoopHeads(w.components), prog, Bound) && prog.WellFormed()
    requires forall l :: l in G().children && l in prog.assertions ==> prog.assertions[l] == []
    ensures Expected(prog) && !Flat(w.components)
  {
    hide G, Flat, WeakOrder.IsBuilt, Program.WellFormed, LoopHeads, Counted, CountedEdges, CounterLabels, Range;
    NestedOrder(w);
    OneCounter();
    EdgesCounted(prog.cfg);
    ProgramKeys(prog);
  }

  lemma {:induction false} CounterIsFree()
    ensures Insertable(G(), {A}) && Range([A]) == {A}
  {
  }

  lemma {:induction false} NotTaken(taken: bool)
    requires taken <==> forall w :: WeakOrder.IsBuilt(G(), w) ==> !Insertable(G(), Range(LoopHeads(w.components)))
    ensures !taken
  {
    hide G, LoopHeads, Insertable, WeakOrder.IsBuilt, Flat;
    GraphIsBuilt();
    NestedOrder(OrderOfG());
    CounterIsFree();
  }

  // ----- runs -----

  ghost function Runs(prog: Program<Assertion>, heads: seq<Label>): Setup<EbpfDomain, Machine, Assertion> {
    Setup(prog, Dom(), Initials(Dom(), Entry(), heads))
  }

  lemma {:induction false} Steps(prog: Program<Assertion>, heads: seq<Label>, s: Machine)
    ensures var z := Runs(prog, heads);
            && z.dom.step(E, s, s.Set(R, 0)) && z.dom.step(A, s, s.Set(Register(1), 0))
            && z.dom.step(B, s, s.Set(Register(1), 0))
            && z.dom.step(C, s, s.Set(LOOPS, s.Value(LOOPS) + 1))
  {
    assert A != C && B != C && E != C by {
      assert C.special == "counter" && |C.special| == 7 && |A.special| == 0;
    }
    assert Step(Ins(E), s, s.Set(R, 0)) && Step(Ins(A), s, s.Set(Register(1), 0))
           && Step(Ins(B), s, s.Set(Register(1), 0));
    assert Step(Ins(C), s, s.Set(LOOPS, s.Value(LOOPS) + 1));
    hide Step, Ins, Machine.Set, Machine.Value;
    assert Runs(prog, heads).dom == Instance(Ins, {A});
  }

  /** A run that goes round the inner loop any number of times. */
  lemma {:induction false} InnerRun(prog: Program<Assertion>, heads: seq<Label>, n: nat)
    requires CountedEdges(prog.cfg) && n >= 3
    ensures exists s :: Reach(Runs(prog, heads), n, B, s)
    decreases n
  {
    hide Cfg.Edge, Initials, Machine.Set, Machine.Value, Ins, Step, Instance;
    var z := Runs(prog, heads);
    if n == 3 {
      var s0 := StartsSomewhere(prog, heads);
      var s1 := s0.Set(R, 0);
      var s2 := s1.Set(Register(1), 0);
      Steps(prog, heads, s0);
      Steps(prog, heads, s1);
      Steps(prog, heads, s2);
      var s3 := s2.Set(LOOPS, s2.Value(LOOPS) + 1);
      assert prog.cfg.Edge(E, A) && prog.cfg.Edge(A, C) && prog.cfg.Edge(C, B);
      assert Reach(z, 1, A, s1);
      assert Reach(z, 2, C, s2);
      assert Reach(z, 3, B, s3);
    } else {
      InnerRun(prog, heads, n - 1);
      var s :| Reach(z, n - 1, B, s);
      Steps(prog, heads, s);
      assert prog.cfg.Edge(B, B);
      assert Reach(z, n, B, s.Set(Register(1), 0));
    }
  }

  lemma {:induction false} StartsSomewhere(prog: Program<Assertion>, heads: seq<Label>) returns (s: Machine)
    requires CountedEdges(prog.cfg)
    ensures Reach(Runs(prog, heads), 0, E, s)
  {
    var m := Machine(imap[LOOPS := 0], {});
    assert Has(Entry(), m);
    s := ZeroAll(Dom(), heads, m);
    assert Initials(Dom(), Entry(), heads)(s);
  }

  lemma {:induction false} ShorterRun(prog: Program<Assertion>, heads: seq<Label>, n: nat)
    requires Nontermination.HasRun(Runs(prog, heads), n + 1)
    ensures Nontermination.HasRun(Runs(prog, heads), n)
  {
    var z := Runs(prog, heads);
    var v, s :| Reach(z, n + 1, v, s);
    var u, r :| Reach(z, n, u, r) && prog.cfg.Edge(u, v) && z.dom.step(u, r, s);
  }

  lemma {:induction false} RunsOfEveryLength(prog: Program<Assertion>, heads: seq<Label>)
    requires CountedEdges(prog.cfg)
    ensures forall n: nat :: Nontermination.HasRun(Runs(prog, heads), n)
  {
    hide Reach, CountedEdges;
    forall n: nat ensures Nontermination.HasRun(Runs(prog, heads), n) {
      InnerRun(prog, heads, n + 3);
      ShorterRun(prog, heads, n + 2);
      ShorterRun(prog, heads, n + 1);
      ShorterRun(prog, heads, n);
    }
  }

  /** The analysis cannot fail. */
  lemma {:induction false} Accepted(
    prog: Program<Assertion>, origin: EbpfDomain, t: Table<EbpfDomain>, failing: map<Label, EbpfDomain>)
    requires Expected(prog) && Zero(origin, LOOPS)
    requires FailuresCaused(prog, Dom(), origin, t, failing)
    ensures !HasError(t)
  {
    hide Expected, Fails, Kept;
    OriginIsKept(origin);
    forall l | l in t ensures !t[l].error {
      if t[l].error {
        NothingToRefute(prog, origin, l, failing[l]);
      }
    }
  }

  method BuildEndless() returns (built: Built<Assertion>)
    ensures built.Built? && WeakOrder.IsBuilt(G(), built.wto) && !Flat(built.wto.components)
    ensures CountedProgram(G(), LoopHeads(built.wto.components), built.prog, Bound)
    ensures built.prog.WellFormed() && Expected(built.prog)
  {
    hide Expected, WeakOrder.Valid, WeakOrder.IsBuilt, CountedProgram, Flat, G, Insertable, LoopHeads,
      Program.WellFormed, Cfg.WellFormed;
    GraphFacts();
    built := BuildProgram(G(), NoAssertions, Bound);
    NotTaken(built.Taken?);
    ProgramExpected(built.wto, built.prog);
  }

  lemma {:induction false} SameSetup(prog: Program<Assertion>, cs: seq<Component>)
    ensures SetupOf(prog, Dom(), Entry(), cs, true) == Runs(prog, LoopHeads(cs))
  {
    hide Instance, LoopHeads, Initials;
  }

  /** The analysis with termination checking on accepts the program, although it has runs of every length:
      it records no failure, and the bound of its only counter holds in every run. */
  method AcceptsEndlessProgram() returns (built: Built<Assertion>, result: AnalysisResult<EbpfDomain>)
    ensures built.Built? && WeakOrder.IsBuilt(G(), built.wto) && !Flat(built.wto.components)
    ensures CountedProgram(G(), LoopHeads(built.wto.components), built.prog, Bound)
    ensures !result.failed
    ensures var z := SetupOf(built.prog, Dom(), Entry(), result.wto.components, true);
            Verified(z, result.invariants, true) && forall n: nat :: Nontermination.HasRun(z, n)
  {
    hide Sound, Verified, Expected, WeakOrder.Valid, WeakOrder.IsBuilt, CountedProgram, Flat, G, FailuresCaused,
      LoopHeads,
      ResetAll,
      Nontermination.HasRun, Instance, Entry, CountedEdges, Program.WellFormed, Zero, SetupOf, Runs;
    InstanceIsSound(Ins, {A});
    built := BuildEndless();
    ghost var origin, failing;
    result, origin, failing := Analyze(built.prog, Dom(), Entry(), true);
    ResetsKeepZero(LoopHeads(result.wto.components));
    Accepted(built.prog, origin, result.invariants, failing);
    ExpectedEdges(built.prog);
    SameSetup(built.prog, result.wto.components);
    RunsOfEveryLength(built.prog, LoopHeads(result.wto.components));
  }

  lemma {:induction false} OriginIsKept(origin: EbpfDomain)
    requires Zero(origin, LOOPS)
    ensures Kept(E, origin)
  {
  }

  lemma {:induction false} ExpectedEdges(prog: Program<Assertion>)
    requires Expected(prog)
    ensures CountedEdges(prog.cfg)
  {
  }
}
