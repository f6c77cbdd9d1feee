/** How much the domain keeps: joins, widenings and transformers lose no more than they have to
    (src/crab/ebpf_domain.cpp:50-167). */
module EbpfPrecision {
  import opened ControlFlow
  import opened Intervals
  import opened MachineIntegers
  import opened AbstractDomain
  import opened FixpointEngine
  import opened EbpfDomains

  /** Some state has the value. */
  ghost predicate Inhabited(d: EbpfDomain) {
    exists s :: Has(d, s)
  }

  // ----- intervals -----

  lemma {:induction false} HullIsLeast(a: Interval, b: Interval, c: Interval)
    requires Within(a, c) && Within(b, c)
    ensures Within(Hull(a, b), c)
  {
  }

  /** The hull of two bounded intervals, in numbers. */
  lemma {:induction false} HullOf(a: int, b: int, c: int, d: int, x: int)
    ensures Hull(Interval(At(a), At(b)), Interval(At(c), At(d))).Has(x) <==> (a <= x || c <= x) && (x <= b || x <= d)
  {
  }

  /** A widened interval keeps the bounds that the second interval respects and no others. */
  lemma {:induction false} WidenedKeepsStable(a: Interval, b: Interval, k: int)
    ensures Widened(a, b).lo == At(k) <==> a.lo == At(k) && b.lo.At? && k <= b.lo.value
    ensures Widened(a, b).hi == At(k) <==> a.hi == At(k) && b.hi.At? && b.hi.value <= k
  {
  }

  // ----- values -----

  /** The join is below every common upper bound. */
  lemma {:induction false} JoinIsLeast(a: EbpfDomain, b: EbpfDomain, c: EbpfDomain)
    requires Leq(a, c) && Leq(b, c)
    ensures Leq(Join(a, b), c)
  {
    hide Hull, Within;
    if !IsBottom(a) && !IsBottom(b) {
      var j := Join(a, b).rcp.bounds;
      forall v | v in c.rcp.bounds ensures Within(Get(j, v), c.rcp.bounds[v]) {
        assert Within(Get(a.rcp.bounds, v), c.rcp.bounds[v]) && Within(Get(b.rcp.bounds, v), c.rcp.bounds[v]);
        JoinAt(a, b, v, c.rcp.bounds[v]);
      }
    }
  }

  lemma {:induction false} JoinAt(a: EbpfDomain, b: EbpfDomain, v: Variable, i: Interval)
    requires !IsBottom(a) && !IsBottom(b) && Within(Get(a.rcp.bounds, v), i) && Within(Get(b.rcp.bounds, v), i)
    ensures Within(Get(Join(a, b).rcp.bounds, v), i)
  {
    HullIsLeast(Get(a.rcp.bounds, v), Get(b.rcp.bounds, v), i);
  }

  /** The order is exact: one value is below another exactly if it has no state that the other lacks. */
  lemma {:induction false} LeqIsInclusion(a: EbpfDomain, b: EbpfDomain)
    requires Inhabited(a)
    ensures Leq(a, b) <==> forall s :: Has(a, s) ==> Has(b, s)
  {
    hide Has, Leq;
    forall s | Leq(a, b) && Has(a, s) ensures Has(b, s) {
      LeqSound(a, b, s);
    }
    if !Leq(a, b) {
      var s := StateBeyond(a, b);
    }
  }

  /** A state of the one value that is not one of the other. */
  lemma {:induction false} StateBeyond(a: EbpfDomain, b: EbpfDomain) returns (s: Machine)
    requires Inhabited(a) && !Leq(a, b)
    ensures Has(a, s) && !Has(b, s)
  {
    var m :| Has(a, m);
    if !(a.stack <= b.stack) {
      var i :| i in a.stack && i !in b.stack;
      s := Machine(m.values, {i});
    } else if b.rcp.Bottom? {
      s := m;
    } else {
      var v :| v in b.rcp.bounds && !Within(Get(a.rcp.bounds, v), b.rcp.bounds[v]);
      var x := NumberBeyond(Get(a.rcp.bounds, v), b.rcp.bounds[v], m.Value(v));
      s := m.Set(v, x);
      StateWith(a, m, v, x);
    }
  }

  lemma {:induction false} StateWith(a: EbpfDomain, m: Machine, v: Variable, x: int)
    requires Has(a, m) && Get(a.rcp.bounds, v).Has(x)
    ensures Has(a, m.Set(v, x))
  {
  }

  lemma {:induction false} NumberBeyond(a: Interval, b: Interval, y: int) returns (x: int)
    requires a.Has(y) && !Within(a, b)
    ensures a.Has(x) && !b.Has(x)
  {
    if b.lo.At? && !(a.lo.At? && b.lo.value <= a.lo.value) {
      x := if a.lo.At? then a.lo.value else if y < b.lo.value then y else b.lo.value - 1;
    } else {
      x := if a.hi.At? then a.hi.value else if y > b.hi.value then y else b.hi.value + 1;
    }
  }

  /** Bottom is below another value only if that takes every stack byte for a pointer: the order looks at the
      stack first, and the stack of bottom is not empty. */
  lemma {:induction false} BottomBelowIff(b: EbpfDomain)
    ensures Leq(BottomValue(), b) <==> b.stack == EveryByte()
  {
  }

  /** A widening that is not cut keeps exactly the bounds that the second value respects, and the numeric bytes
      of both. */
  lemma {:induction false} WidenKeepsStable(limits: EbpfDomain, a: EbpfDomain, b: EbpfDomain, v: Variable, k: int)
    requires !IsBottom(a) && !IsBottom(b)
    ensures var w := Widen(limits, a, b, false);
            && !IsBottom(w) && (forall i :: i !in w.stack <==> i !in a.stack && i !in b.stack)
            && (Bounds(w, v).lo == At(k) <==>
                Bounds(a, v).lo == At(k) && Bounds(b, v).lo.At? && k <= Bounds(b, v).lo.value)
            && (Bounds(w, v).hi == At(k) <==>
                Bounds(a, v).hi == At(k) && Bounds(b, v).hi.At? && Bounds(b, v).hi.value <= k)
  {
    WidenedKeepsStable(Bounds(a, v), Bounds(b, v), k);
  }

  /** Narrowing refines bounds that are not finite and leaves the others alone. */
  lemma {:induction false} NarrowKeepsFinite(a: EbpfDomain, b: EbpfDomain, v: Variable)
    requires !IsBottom(a) && !IsBottom(b)
    ensures var n := Narrow(a, b);
            && !IsBottom(n)
            && Bounds(n, v).lo == (if Bounds(a, v).lo.At? then Bounds(a, v).lo else Bounds(b, v).lo)
            && Bounds(n, v).hi == (if Bounds(a, v).hi.At? then Bounds(a, v).hi else Bounds(b, v).hi)
  {
  }

  lemma {:induction false} NarrowWithin(a: EbpfDomain, b: EbpfDomain, s: Machine)
    requires Has(Narrow(a, b), s)
    ensures Has(a, s)
  {
    hide Narrowed, Within;
    forall v | v in a.rcp.bounds ensures a.rcp.bounds[v].Has(s.Value(v)) {
      NarrowKeepsFinite(a, b, v);
      assert v in Narrow(a, b).rcp.bounds;
    }
  }

  /** The instance keeps to what is asked of precise domains, with the limits that its cut has. */
  lemma {:induction false} InstanceIsPrecise(ins: Label -> Instruction, counters: set<Label>)
    ensures Precise(Instance(ins, counters), s => Has(ConstantLimits(counters), s))
  {
    hide Has, Leq, Join, Meet, Narrow, Widen, ConstantLimits;
    var dom := Instance(ins, counters);
    forall a, b, c | dom.leq(a, c) && dom.leq(b, c) ensures dom.leq(dom.join(a, b), c) {
      JoinIsLeast(a, b, c);
    }
    forall a, b, s | dom.gamma(dom.meet(a, b), s) ensures dom.gamma(a, s) && dom.gamma(b, s) {
      MeetExact(a, b, s);
    }
    forall a, b, s | dom.gamma(dom.narrow(a, b), s) ensures dom.gamma(a, s) {
      NarrowWithin(a, b, s);
    }
    forall a, b, s | dom.gamma(dom.widen(a, b, true), s) ensures Has(ConstantLimits(counters), s) {
      CutIsMeet(ConstantLimits(counters), a, b, s);
    }
    forall a, b, s | dom.gamma(a, s) || dom.gamma(b, s) ensures dom.gamma(dom.widen(a, b, false), s) {
      WidenSound(ConstantLimits(counters), a, b, s);
    }
  }

  /** From the second refinement on, bounds that are finite stay. */
  lemma {:induction false} RefinementKeepsFinite(
    ins: Label -> Instruction, counters: set<Label>, start: EbpfDomain, tried: seq<EbpfDomain>, x: EbpfDomain,
    v: Variable)
    requires |tried| >= 1
    ensures var before := DescendTo(Instance(ins, counters), start, tried);
            var after := DescendTo(Instance(ins, counters), start, tried + [x]);
            !IsBottom(before) && !IsBottom(x) ==>
              && !IsBottom(after)
              && (Bounds(before, v).lo.At? ==> Bounds(after, v).lo == Bounds(before, v).lo)
              && (Bounds(before, v).hi.At? ==> Bounds(after, v).hi == Bounds(before, v).hi)
  {
    hide Narrow;
    assert (tried + [x])[..|tried|] == tried;
    var before := DescendTo(Instance(ins, counters), start, tried);
    if !IsBottom(before) && !IsBottom(x) {
      NarrowKeepsFinite(before, x, v);
    }
  }

  // ----- instructions and assertions -----

  /** Two states that no value tells apart. */
  ghost predicate Alike(s: Machine, t: Machine) {
    && (forall v :: s.Value(v) == t.Value(v))
    && (forall i :: i < STACK_SIZE ==> (i in s.pointers <==> i in t.pointers))
  }

  /** A check passes exactly if the assertion holds in every state. */
  lemma {:induction false} CheckIsExact(p: Assertion, d: EbpfDomain)
    requires Inhabited(d)
    ensures Check(p, d) <==> forall s :: Has(d, s) ==> Holds(p, s)
  {
    hide Has, Holds, Check;
    forall s | Check(p, d) && Has(d, s) ensures Holds(p, s) {
      CheckSound(p, d, s);
    }
    if !Check(p, d) {
      var s := Counterexample(p, d);
    }
  }

  lemma {:induction false} Counterexample(p: Assertion, d: EbpfDomain) returns (s: Machine)
    requires Inhabited(d) && !Check(p, d)
    ensures Has(d, s) && !Holds(p, s)
  {
    var m :| Has(d, m);
    match p
    case AtMost(v, k) =>
      var x := NumberBeyond(Bounds(d, v), Interval(Infinite, At(k)), m.Value(v));
      StateWith(d, m, v, x);
      s := m.Set(v, x);
    case AtLeast(v, k) =>
      var x := NumberBeyond(Bounds(d, v), Interval(At(k), Infinite), m.Value(v));
      StateWith(d, m, v, x);
      s := m.Set(v, x);
    case IsNumber(i) =>
      s := Machine(m.values, {i} * d.stack);
  }

  /** What steps do that values cannot say: the byte of a stored pointer is one for certain, and a copy equals
      its source. */
  ghost predicate Unsaid(ins: Instruction, t: Machine) {
    match ins
    case StorePointer(i) => i < STACK_SIZE ==> i in t.pointers
    case Copy(v, u) => t.Value(v) == t.Value(u)
    case _ => true
  }

  /** Every state of the transformed value comes, up to what values can tell, from a step of a state of the
      value before. */
  lemma {:induction false} TransformIsExact(ins: Instruction, d: EbpfDomain, t: Machine)
    returns (s: Machine, s': Machine)
    requires Inhabited(d) && Has(Transform(ins, d), t) && Unsaid(ins, t)
    ensures Has(d, s) && Step(ins, s, s') && Alike(s', t)
  {
    var m :| Has(d, m);
    hide Meet, Alike, Has, Updated;
    match ins
    case Forget(v) =>
      s, s' := Overwritten(d, m, t, v, ALL);
      assert s' == s.Set(v, t.Value(v));
    case Assign(v, k) =>
      s, s' := Overwritten(d, m, t, v, Interval(At(k), At(k)));
    case Copy(v, u) =>
      s, s' := Copied(d, m, t, v, u);
    case Add(v, k) =>
      s, s' := Shifted(d, t, v, k);
    case AssumeAtMost(v, k) =>
      MeetExact(d, EbpfDomain(Values(map[v := Interval(Infinite, At(k))]), EveryByte()), t);
      s, s' := t, t;
      SameAlike(t);
    case AssumeAtLeast(v, k) =>
      MeetExact(d, EbpfDomain(Values(map[v := Interval(At(k), Infinite)]), EveryByte()), t);
      s, s' := t, t;
      SameAlike(t);
    case StoreNumber(i) =>
      s, s' := Unmarked(d, t, i, false);
    case StorePointer(i) =>
      s, s' := Unmarked(d, t, i, true);
    case IncrementLoopCounter(name) =>
      s, s' := Shifted(d, t, LoopCounter(name), 1);
  }

  lemma {:induction false} SameAlike(t: Machine)
    ensures Alike(t, t)
  {
  }

  lemma {:induction false} Overwritten(d: EbpfDomain, m: Machine, t: Machine, v: Variable, i: Interval)
    returns (s: Machine, s': Machine)
    requires Has(d, m) && Has(Updated(d, v, i), t)
    ensures Has(d, s) && s' == s.Set(v, t.Value(v)) && Alike(s', t) && i.Has(t.Value(v))
  {
    s := t.Set(v, m.Value(v));
    s' := s.Set(v, t.Value(v));
    BoundsKept(d, t, v, i);
  }

  lemma {:induction false} Copied(d: EbpfDomain, m: Machine, t: Machine, v: Variable, u: Variable)
    returns (s: Machine, s': Machine)
    requires Has(d, m) && Has(Updated(d, v, Bounds(d, u)), t) && t.Value(v) == t.Value(u)
    ensures Has(d, s) && s' == s.Set(v, s.Value(u)) && Alike(s', t)
  {
    s, s' := Overwritten(d, m, t, v, Bounds(d, u));
    if u == v {
      s := s';
    }
    BoundsKept(d, t, v, Bounds(d, u));
  }

  lemma {:induction false} BoundsKept(d: EbpfDomain, t: Machine, v: Variable, i: Interval)
    requires !IsBottom(d) && Has(Updated(d, v, i), t)
    ensures i.Has(t.Value(v)) && forall u :: u in d.rcp.bounds && u != v ==> d.rcp.bounds[u].Has(t.Value(u))
    ensures forall j :: j in t.pointers && j < STACK_SIZE ==> j in d.stack
  {
    var b := Updated(d, v, i).rcp.bounds;
    assert b[v] == i;
    forall u | u in d.rcp.bounds && u != v ensures d.rcp.bounds[u].Has(t.Value(u)) {
      assert b[u] == d.rcp.bounds[u];
    }
  }

  lemma {:induction false} Shifted(d: EbpfDomain, t: Machine, v: Variable, k: int) returns (s: Machine, s': Machine)
    requires !IsBottom(d)
    requires Has(Updated(d, v, Interval(Shift(Bounds(d, v).lo, k), Shift(Bounds(d, v).hi, k))), t)
    ensures Has(d, s) && s' == s.Set(v, s.Value(v) + k) && Alike(s', t)
  {
    s := t.Set(v, t.Value(v) - k);
    s' := s.Set(v, s.Value(v) + k);
    BoundsKept(d, t, v, Interval(Shift(Bounds(d, v).lo, k), Shift(Bounds(d, v).hi, k)));
  }

  lemma {:induction false} Unmarked(d: EbpfDomain, t: Machine, i: nat, pointer: bool) returns (s: Machine, s': Machine)
    requires !IsBottom(d) && (pointer && i < STACK_SIZE ==> i in t.pointers)
    requires Has(EbpfDomain(d.rcp,
                            if pointer then if i < STACK_SIZE then d.stack + {i} else d.stack else d.stack - {i}), t)
    ensures Has(d, s) && s' == Machine(s.values, if pointer then s.pointers + {i} else s.pointers - {i}) && Alike(s', t)
  {
    s := Machine(t.values, t.pointers - {i});
    s' := Machine(s.values, if pointer then s.pointers + {i} else s.pointers - {i});
  }
}
