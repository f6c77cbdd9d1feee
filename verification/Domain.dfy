/** What the fixpoint engine asks of programs and of an abstract domain. */
module AbstractDomain {
  import opened ControlFlow

  /** A program: its graph, the labels that increment a loop counter, and the assertions checked
      at each label. */
  datatype Program<A> = Program(cfg: Cfg, counters: set<Label>, assertions: map<Label, seq<A>>)
  {
    /** Every label has its assertions, a counter label exactly one, and no edge enters the entry
        (src/ir/cfg_builder.cpp:66-71, src/fwd_analyzer.cpp:105-108). */
    ghost predicate WellFormed() {
      && cfg.WellFormed()
      && assertions.Keys == cfg.children.Keys
      && counters <= cfg.children.Keys
      && (forall l :: l in counters ==> |assertions[l]| == 1)
      && (forall u :: !cfg.Edge(u, cfg.entry))
    }
  }

  /** The operations of an abstract domain over values `D`, and, for their meaning only, the concrete
      states `S`, steps and assertions that they speak about. */
  datatype Domain<!D, !S, !A> = Domain(
    bottom: D,
    isBottom: D -> bool,
    leq: (D, D) -> bool,
    join: (D, D) -> D,
    meet: (D, D) -> D,
    widen: (D, D, bool) -> D,
    narrow: (D, D) -> D,
    transform: (Label, D) -> D,
    check: (Label, A, D) -> bool,
    resetCounter: (D, Label) -> D,
    ghost rank: D -> (nat, nat),
    ghost gamma: (D, S) -> bool,
    ghost step: (Label, S, S) -> bool,
    ghost holds: (A, S) -> bool,
    ghost zero: (S, Label) -> S)

  /** The order is sound, joins cover both sides, meets and narrowings cover the common part. */
  ghost predicate LatticeSound<D(!new), S(!new), A>(dom: Domain<D, S, A>) {
    && (forall a, b, s :: dom.leq(a, b) && dom.gamma(a, s) ==> dom.gamma(b, s))
    && (forall a, b, s :: dom.gamma(a, s) || dom.gamma(b, s) ==> dom.gamma(dom.join(a, b), s))
    && (forall a, b, s :: dom.gamma(a, s) && dom.gamma(b, s) ==> dom.gamma(dom.meet(a, b), s))
    && (forall a, b, s :: dom.gamma(a, s) && dom.gamma(b, s) ==> dom.gamma(dom.narrow(a, b), s))
    && (forall a, s :: dom.isBottom(a) ==> !dom.gamma(a, s))
  }

  /** Transformers cover every concrete step and passed checks hold of every covered state. */
  ghost predicate SemanticsSound<D(!new), S(!new), A(!new)>(dom: Domain<D, S, A>) {
    && (forall l, a, s, s' :: dom.gamma(a, s) && dom.step(l, s, s') ==> dom.gamma(dom.transform(l, a), s'))
    && (forall l, p, a, s :: dom.check(l, p, a) && dom.gamma(a, s) ==> dom.holds(p, s))
    && (forall l, a, s :: dom.gamma(a, s) ==> dom.gamma(dom.resetCounter(a, l), dom.zero(s, l)))
  }

  ghost predicate RankBelow(a: (nat, nat), b: (nat, nat)) {
    a.0 < b.0 || (a.0 == b.0 && a.1 < b.1)
  }

  /** A widening that was needed lowers the rank. */
  ghost predicate WideningTerminates<D(!new), S, A>(dom: Domain<D, S, A>) {
    forall a, b :: !dom.leq(b, a) ==> RankBelow(dom.rank(dom.widen(a, b, false)), dom.rank(a))
  }

  ghost predicate Sound<D(!new), S(!new), A(!new)>(dom: Domain<D, S, A>) {
    LatticeSound(dom) && SemanticsSound(dom) && WideningTerminates(dom)
  }

  /** What keeps values from growing beyond need: a join is below every common upper bound, meets and
      narrowings add nothing to their first argument and meets nothing to their second, and a widening that
      is cut stays within the limits. */
  ghost predicate Precise<D(!new), S(!new), A>(dom: Domain<D, S, A>, limits: S -> bool) {
    && (forall a, b, c {:trigger dom.leq(dom.join(a, b), c)} ::
          dom.leq(a, c) && dom.leq(b, c) ==> dom.leq(dom.join(a, b), c))
    && (forall a, b, s :: dom.gamma(dom.meet(a, b), s) ==> dom.gamma(a, s) && dom.gamma(b, s))
    && (forall a, b, s :: dom.gamma(dom.narrow(a, b), s) ==> dom.gamma(a, s))
    && (forall a, b, s :: dom.gamma(dom.widen(a, b, true), s) ==> limits(s))
    && (forall a, b, s :: dom.gamma(a, s) || dom.gamma(b, s) ==> dom.gamma(dom.widen(a, b, false), s))
  }
}
