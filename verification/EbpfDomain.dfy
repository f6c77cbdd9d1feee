/** The shape of the eBPF domain (src/crab/ebpf_domain.cpp:29-167, src/crab/bitset_domain.hpp:43-71):
    numeric values paired with the set of stack bytes that may hold something other than a number.
    The values are kept as intervals here. */
module EbpfDomains {
  import opened ControlFlow
  import Bitset
  import opened Intervals
  import opened MachineIntegers
  import opened AbstractDomain
  import opened Counters
  import opened Termination
  import opened WtoTree
  import opened LoopCuts
  import opened Coverage
  import opened Analyzer
  import WeakOrder

  const STACK_SIZE: nat := Bitset.STACK_SIZE

  /** What is known of a register, signed, unsigned and as a pointer, and the loop counters. */
  datatype Variable =
    | Register(index: nat)
    | Unsigned(index: nat)
    | StackOffset(index: nat)
    | SharedOffset(index: nat)
    | PacketOffset(index: nat)
    | LoopCounter(name: Label)

  // ----- values -----

  /** Intervals of variables; a variable without one may have any value. */
  datatype Values = Bottom | Values(bounds: map<Variable, Interval>)

  function Get(m: map<Variable, Interval>, v: Variable): Interval {
    if v in m then m[v] else ALL
  }

  type Bytes = s: set<nat> | forall i :: i in s ==> i < STACK_SIZE

  datatype EbpfDomain = EbpfDomain(rcp: Values, stack: Bytes)

  function BytesBelow(n: nat): (r: set<nat>)
    ensures forall i: nat :: i in r <==> i < n
  {
    if n == 0 then {} else BytesBelow(n - 1) + {n - 1}
  }

  function EveryByte(): Bytes {
    BytesBelow(STACK_SIZE)
  }

  function BottomValue(): EbpfDomain {
    EbpfDomain(Bottom, EveryByte())
  }

  function IsBottom(d: EbpfDomain): bool {
    d.rcp.Bottom?
  }

  predicate ValuesLeq(a: Values, b: Values) {
    a.Bottom? || (b.Values? && forall v :: v in b.bounds ==> Within(Get(a.bounds, v), b.bounds[v]))
  }

  predicate Leq(a: EbpfDomain, b: EbpfDomain) {
    if !(a.stack <= b.stack) then false else ValuesLeq(a.rcp, b.rcp)
  }

  function ValuesJoin(a: Values, b: Values): Values {
    if a.Bottom? then b
    else if b.Bottom? then a
    else Values(map v | v in a.bounds && v in b.bounds :: Hull(a.bounds[v], b.bounds[v]))
  }

  function Join(a: EbpfDomain, b: EbpfDomain): EbpfDomain {
    if IsBottom(b) then a
    else if IsBottom(a) then b
    else EbpfDomain(ValuesJoin(a.rcp, b.rcp), a.stack + b.stack)
  }

  function ValuesMeet(a: Values, b: Values): Values {
    if a.Bottom? || b.Bottom? then Bottom
    else
      var m := map v | v in a.bounds.Keys + b.bounds.Keys :: Common(Get(a.bounds, v), Get(b.bounds, v));
      if exists v :: v in m && m[v].Empty() then Bottom else Values(m)
  }

  function Meet(a: EbpfDomain, b: EbpfDomain): EbpfDomain {
    var res := ValuesMeet(a.rcp, b.rcp);
    if !res.Bottom? then EbpfDomain(res, a.stack * b.stack) else BottomValue()
  }

  function WidenedAll(a: map<Variable, Interval>, b: map<Variable, Interval>): map<Variable, Interval> {
    map v | v in a :: Widened(a[v], Get(b, v))
  }

  function ValuesWiden(a: Values, b: Values): Values {
    if a.Bottom? then b
    else if b.Bottom? then a
    else Values(WidenedAll(a.bounds, b.bounds))
  }

  /** Widening, optionally cut to constant limits. */
  function Widen(limits: EbpfDomain, a: EbpfDomain, b: EbpfDomain, toConstants: bool): EbpfDomain {
    var res := EbpfDomain(ValuesWiden(a.rcp, b.rcp), a.stack + b.stack);
    if toConstants then Meet(res, limits) else res
  }

  /** The limits of one variable: registers hold 32-bit numbers, loop counters none below zero. */
  function LimitOf(v: Variable): Interval {
    match v
    case Register(_) => Interval(At(INT32_MIN), At(INT32_MAX))
    case Unsigned(_) => Interval(At(0), At(UINT32_MAX))
    case StackOffset(_) => Interval(At(0), At(STACK_SIZE))
    case SharedOffset(_) => Interval(At(0), Infinite)
    case PacketOffset(_) => Interval(At(0), Infinite)
    case LoopCounter(_) => Interval(At(0), At(INT32_MAX))
  }

  /** The variables of the ten registers that have limits, and the counters. */
  function Limited(counters: set<Label>): set<Variable> {
    (set i | i in BytesBelow(10) :: Register(i)) + (set i | i in BytesBelow(10) :: Unsigned(i))
    + (set i | i in BytesBelow(10) :: StackOffset(i)) + (set i | i in BytesBelow(10) :: SharedOffset(i))
    + (set i | i in BytesBelow(10) :: PacketOffset(i)) + (set l | l in counters :: LoopCounter(l))
  }

  function ConstantLimits(counters: set<Label>): EbpfDomain {
    EbpfDomain(Values(map v | v in Limited(counters) :: LimitOf(v)), EveryByte())
  }

  function ValuesNarrow(a: Values, b: Values): Values {
    if a.Bottom? || b.Bottom? then Bottom
    else Values(map v | v in a.bounds.Keys + b.bounds.Keys :: Narrowed(Get(a.bounds, v), Get(b.bounds, v)))
  }

  function Narrow(a: EbpfDomain, b: EbpfDomain): EbpfDomain {
    EbpfDomain(ValuesNarrow(a.rcp, b.rcp), a.stack * b.stack)
  }

  // ----- concrete states -----

  /** Variable values, and the stack bytes that do not hold numbers. */
  datatype Machine = Machine(values: imap<Variable, int>, pointers: set<nat>)
  {
    ghost function Value(v: Variable): int {
      if v in values then values[v] else 0
    }

    ghost function Set(v: Variable, x: int): Machine {
      Machine(values[v := x], pointers)
    }
  }

  ghost predicate ValuesHave(a: Values, s: Machine) {
    a.Values? && forall v :: v in a.bounds ==> a.bounds[v].Has(s.Value(v))
  }

  ghost predicate Has(d: EbpfDomain, s: Machine) {
    ValuesHave(d.rcp, s) && forall i :: i in s.pointers && i < STACK_SIZE ==> i in d.stack
  }

  lemma {:induction false} LeqSound(a: EbpfDomain, b: EbpfDomain, s: Machine)
    requires Leq(a, b) && Has(a, s)
    ensures Has(b, s)
  {
  }

  lemma {:induction false} JoinSound(a: EbpfDomain, b: EbpfDomain, s: Machine)
    requires Has(a, s) || Has(b, s)
    ensures Has(Join(a, b), s)
  {
  }

  lemma {:induction false} MeetSound(a: EbpfDomain, b: EbpfDomain, s: Machine)
    requires Has(a, s) && Has(b, s)
    ensures Has(Meet(a, b), s)
  {
    var m := map v | v in a.rcp.bounds.Keys + b.rcp.bounds.Keys :: Common(Get(a.rcp.bounds, v), Get(b.rcp.bounds, v));
    forall v | v in m ensures m[v].Has(s.Value(v)) && !m[v].Empty() {
      assert Get(a.rcp.bounds, v).Has(s.Value(v)) && Get(b.rcp.bounds, v).Has(s.Value(v));
    }
  }

  lemma {:induction false} NarrowSound(a: EbpfDomain, b: EbpfDomain, s: Machine)
    requires Has(a, s) && Has(b, s)
    ensures Has(Narrow(a, b), s)
  {
    forall v | v in a.rcp.bounds.Keys + b.rcp.bounds.Keys
      ensures Narrowed(Get(a.rcp.bounds, v), Get(b.rcp.bounds, v)).Has(s.Value(v)) {
      assert Get(a.rcp.bounds, v).Has(s.Value(v)) && Get(b.rcp.bounds, v).Has(s.Value(v));
    }
  }

  /** The meet has no other states. */
  lemma {:induction false} MeetExact(a: EbpfDomain, b: EbpfDomain, s: Machine)
    ensures Has(Meet(a, b), s) <==> Has(a, s) && Has(b, s)
  {
    if Has(a, s) && Has(b, s) {
      MeetSound(a, b, s);
    }
    if Has(Meet(a, b), s) {
      MeetWithin(a, b, s);
    }
  }

  lemma {:induction false} MeetWithin(a: EbpfDomain, b: EbpfDomain, s: Machine)
    requires Has(Meet(a, b), s)
    ensures Has(a, s) && Has(b, s)
  {
    var m := Meet(a, b).rcp.bounds;
    forall v | v in a.rcp.bounds.Keys + b.rcp.bounds.Keys
      ensures Get(a.rcp.bounds, v).Has(s.Value(v)) && Get(b.rcp.bounds, v).Has(s.Value(v))
    {
      assert v in m && m[v] == Common(Get(a.rcp.bounds, v), Get(b.rcp.bounds, v));
      CommonExact(Get(a.rcp.bounds, v), Get(b.rcp.bounds, v), s.Value(v));
    }
  }

  lemma {:induction false} CommonExact(a: Interval, b: Interval, x: int)
    ensures Common(a, b).Has(x) <==> a.Has(x) && b.Has(x)
  {
  }

  /** The cut aside, widening covers both sides. */
  lemma {:induction false} WidenSound(limits: EbpfDomain, a: EbpfDomain, b: EbpfDomain, s: Machine)
    requires Has(a, s) || Has(b, s)
    ensures Has(Widen(limits, a, b, false), s)
  {
  }

  /** The cut loses exactly the states beyond the limits. */
  lemma {:induction false} CutIsMeet(limits: EbpfDomain, a: EbpfDomain, b: EbpfDomain, s: Machine)
    ensures Has(Widen(limits, a, b, true), s) <==> Has(Widen(limits, a, b, false), s) && Has(limits, s)
  {
    MeetExact(Widen(limits, a, b, false), limits, s);
  }

  /** Every state of `d` lies within the limits. */
  ghost predicate WithinLimits(limits: EbpfDomain, d: EbpfDomain) {
    forall s :: Has(d, s) ==> Has(limits, s)
  }

  /** A widening that is cut still covers both sides exactly if both lie within the limits. */
  lemma {:induction false} CutCoversIffWithin(limits: EbpfDomain, a: EbpfDomain, b: EbpfDomain)
    ensures (forall s :: Has(a, s) || Has(b, s) ==> Has(Widen(limits, a, b, true), s))
       <==> WithinLimits(limits, a) && WithinLimits(limits, b)
  {
    hide Has, Widen;
    forall s ensures Has(Widen(limits, a, b, true), s) <==> Has(Widen(limits, a, b, false), s) && Has(limits, s) {
      CutIsMeet(limits, a, b, s);
    }
    forall s | Has(a, s) || Has(b, s) ensures Has(Widen(limits, a, b, false), s) {
      WidenSound(limits, a, b, s);
    }
  }

  /** With the limits of the domain this fails as soon as a register exceeds 32 bits. */
  lemma {:induction false} CutMayBreakTheChain(counters: set<Label>)
    ensures exists a, b, s :: Has(a, s) && !Leq(b, a) && !Has(Widen(ConstantLimits(counters), a, b, true), s)
  {
    hide Has, Leq, ConstantLimits, Widen, Exactly, BytesBelow;
    var r, big := Register(0), INT32_MAX + 1;
    var limits := ConstantLimits(counters);
    var a, b := Exactly(r, big), Exactly(r, big + 1);
    var s := Machine(imap[r := big], {});
    ExactlyDiffers(r, big, s);
    CutIsMeet(limits, a, b, s);
    BeyondLimits(counters, 0, s);
  }

  function Exactly(v: Variable, x: int): EbpfDomain {
    EbpfDomain(Values(map[v := Interval(At(x), At(x))]), EveryByte())
  }

  lemma {:induction false} ExactlyDiffers(v: Variable, x: int, s: Machine)
    requires s.Value(v) == x
    ensures Has(Exactly(v, x), s) && !Leq(Exactly(v, x + 1), Exactly(v, x))
  {
    var m := Exactly(v, x).rcp.bounds;
    assert v in m && !Within(Get(Exactly(v, x + 1).rcp.bounds, v), m[v]);
  }

  lemma {:induction false} BeyondLimits(counters: set<Label>, i: nat, s: Machine)
    requires i < 10 && s.Value(Register(i)) > INT32_MAX
    ensures !Has(ConstantLimits(counters), s)
  {
    var m := ConstantLimits(counters).rcp.bounds;
    assert Register(i) in m && m[Register(i)] == Interval(At(INT32_MIN), At(INT32_MAX)) by {
      assert i in BytesBelow(10);
    }
    assert !m[Register(i)].Has(s.Value(Register(i)));
  }

  // ----- widening terminates -----

  /** A finite bound of a variable, on its lower or its upper side. */
  datatype Fact = LowerBound(v: Variable) | UpperBound(v: Variable)

  function Facts(m: map<Variable, Interval>): set<Fact> {
    (set v | v in m && m[v].lo.At? :: LowerBound(v)) + (set v | v in m && m[v].hi.At? :: UpperBound(v))
  }

  function Numeric(stack: Bytes): set<nat> {
    EveryByte() - stack
  }

  /** Whether the value can leave bottom, and how many bounds and numeric bytes widening can give up. */
  function Rank(d: EbpfDomain): (nat, nat) {
    if d.rcp.Bottom? then (1, |Numeric(d.stack)|) else (0, |Facts(d.rcp.bounds)| + |Numeric(d.stack)|)
  }

  lemma {:induction false} SubsetSmaller<T>(a: set<T>, b: set<T>)
    requires a <= b
    ensures |a| <= |b| && (a != b ==> |a| < |b|)
  {
    assert |b| == |a| + |b - a| by {
      assert b == a + (b - a);
    }
    if a != b {
      assert b - a != {};
    }
  }

  lemma {:induction false} FactsShrink(a: map<Variable, Interval>, b: map<Variable, Interval>)
    ensures Facts(WidenedAll(a, b)) <= Facts(a)
  {
  }

  lemma {:induction false} FactLost(a: map<Variable, Interval>, b: map<Variable, Interval>, v: Variable)
    requires v in a && !Within(Get(b, v), a[v])
    ensures Facts(WidenedAll(a, b)) != Facts(a)
  {
    var w := WidenedAll(a, b);
    if a[v].lo.At? && !(Get(b, v).lo.At? && a[v].lo.value <= Get(b, v).lo.value) {
      assert w[v].lo == Infinite;
      assert LowerBound(v) in Facts(a) && LowerBound(v) !in Facts(w);
    } else {
      assert w[v].hi == Infinite;
      assert UpperBound(v) in Facts(a) && UpperBound(v) !in Facts(w);
    }
  }

  lemma {:induction false} FactsDrop(a: map<Variable, Interval>, b: map<Variable, Interval>)
    ensures |Facts(WidenedAll(a, b))| <= |Facts(a)|
    ensures (exists v :: v in a && !Within(Get(b, v), a[v])) ==> |Facts(WidenedAll(a, b))| < |Facts(a)|
  {
    hide Facts, WidenedAll, Within;
    FactsShrink(a, b);
    SubsetSmaller(Facts(WidenedAll(a, b)), Facts(a));
    if v :| v in a && !Within(Get(b, v), a[v]) {
      FactLost(a, b, v);
    }
  }

  lemma {:induction false} NumericDrops(a: Bytes, b: Bytes)
    ensures |Numeric(a + b)| <= |Numeric(a)|
    ensures !(b <= a) ==> |Numeric(a + b)| < |Numeric(a)|
  {
    hide BytesBelow;
    SubsetSmaller(Numeric(a + b), Numeric(a));
    if !(b <= a) {
      var i :| i in b && i !in a;
      assert i in EveryByte();
      assert i in Numeric(a) && i !in Numeric(a + b);
    }
  }

  /** A widening that was needed gives up a bound or a numeric byte, or leaves bottom. */
  lemma {:induction false} WidenDrops(limits: EbpfDomain, a: EbpfDomain, b: EbpfDomain)
    requires !Leq(b, a)
    ensures RankBelow(Rank(Widen(limits, a, b, false)), Rank(a))
  {
    hide Facts, Within, WidenedAll, Numeric, Meet;
    NumericDrops(a.stack, b.stack);
    if a.rcp.Values? && b.rcp.Values? {
      FactsDrop(a.rcp.bounds, b.rcp.bounds);
    }
  }

  // ----- a small instruction set -----

  datatype Instruction =
    | Forget(dst: Variable)
    | Assign(dst: Variable, constant: int)
    | Copy(dst: Variable, src: Variable)
    | Add(dst: Variable, constant: int)
    | AssumeAtMost(src: Variable, constant: int)
    | AssumeAtLeast(src: Variable, constant: int)
    | StoreNumber(offset: nat)
    | StorePointer(offset: nat)
    | IncrementLoopCounter(name: Label)

  datatype Assertion = AtMost(v: Variable, constant: int) | AtLeast(v: Variable, constant: int) | IsNumber(offset: nat)

  function Shift(b: Bound, k: int): Bound {
    if b.At? then At(b.value + k) else Infinite
  }

  function Updated(d: EbpfDomain, v: Variable, i: Interval): EbpfDomain {
    if d.rcp.Bottom? then d else EbpfDomain(Values(d.rcp.bounds[v := i]), d.stack)
  }

  function Bounds(d: EbpfDomain, v: Variable): Interval
    requires !IsBottom(d)
  {
    Get(d.rcp.bounds, v)
  }

  function Transform(ins: Instruction, d: EbpfDomain): EbpfDomain {
    if IsBottom(d) then d
    else
      match ins
      case Forget(v) => Updated(d, v, ALL)
      case Assign(v, k) => Updated(d, v, Interval(At(k), At(k)))
      case Copy(v, u) => Updated(d, v, Bounds(d, u))
      case Add(v, k) => Updated(d, v, Interval(Shift(Bounds(d, v).lo, k), Shift(Bounds(d, v).hi, k)))
      case AssumeAtMost(v, k) => Meet(d, EbpfDomain(Values(map[v := Interval(Infinite, At(k))]), EveryByte()))
      case AssumeAtLeast(v, k) => Meet(d, EbpfDomain(Values(map[v := Interval(At(k), Infinite)]), EveryByte()))
      case StoreNumber(i) => EbpfDomain(d.rcp, d.stack - {i})
      case StorePointer(i) => EbpfDomain(d.rcp, if i < STACK_SIZE then d.stack + {i} else d.stack)
      case IncrementLoopCounter(name) =>
        var c := LoopCounter(name);
        Updated(d, c, Interval(Shift(Bounds(d, c).lo, 1), Shift(Bounds(d, c).hi, 1)))
  }

  ghost predicate Step(ins: Instruction, s: Machine, s': Machine) {
    match ins
    case Forget(v) => exists x :: s' == s.Set(v, x)
    case Assign(v, k) => s' == s.Set(v, k)
    case Copy(v, u) => s' == s.Set(v, s.Value(u))
    case Add(v, k) => s' == s.Set(v, s.Value(v) + k)
    case AssumeAtMost(v, k) => s.Value(v) <= k && s' == s
    case AssumeAtLeast(v, k) => k <= s.Value(v) && s' == s
    case StoreNumber(i) => s' == Machine(s.values, s.pointers - {i})
    case StorePointer(i) => s' == Machine(s.values, s.pointers + {i})
    case IncrementLoopCounter(name) => s' == s.Set(LoopCounter(name), s.Value(LoopCounter(name)) + 1)
  }

  predicate Check(p: Assertion, d: EbpfDomain) {
    IsBottom(d) ||
    match p
    case AtMost(v, k) => Bounds(d, v).hi.At? && Bounds(d, v).hi.value <= k
    case AtLeast(v, k) => Bounds(d, v).lo.At? && k <= Bounds(d, v).lo.value
    case IsNumber(i) => i < STACK_SIZE && i !in d.stack
  }

  ghost predicate Holds(p: Assertion, s: Machine) {
    match p
    case AtMost(v, k) => s.Value(v) <= k
    case AtLeast(v, k) => k <= s.Value(v)
    case IsNumber(i) => i < STACK_SIZE && i !in s.pointers
  }

  lemma {:induction false} UpdatedSound(d: EbpfDomain, s: Machine, v: Variable, i: Interval, x: int)
    requires Has(d, s) && i.Has(x)
    ensures Has(Updated(d, v, i), s.Set(v, x))
  {
  }

  lemma {:induction false} TransformSound(ins: Instruction, d: EbpfDomain, s: Machine, s': Machine)
    requires Has(d, s) && Step(ins, s, s')
    ensures Has(Transform(ins, d), s')
  {
    hide Updated, Meet, Machine.Set;
    match ins
    case Forget(v) =>
      var x :| s' == s.Set(v, x);
      UpdatedSound(d, s, v, ALL, x);
    case Assign(v, k) =>
      UpdatedSound(d, s, v, Interval(At(k), At(k)), k);
    case Copy(v, u) =>
      UpdatedSound(d, s, v, Bounds(d, u), s.Value(u));
    case Add(v, k) =>
      UpdatedSound(d, s, v, Interval(Shift(Bounds(d, v).lo, k), Shift(Bounds(d, v).hi, k)), s.Value(v) + k);
    case AssumeAtMost(v, k) =>
      MeetSound(d, EbpfDomain(Values(map[v := Interval(Infinite, At(k))]), EveryByte()), s);
    case AssumeAtLeast(v, k) =>
      MeetSound(d, EbpfDomain(Values(map[v := Interval(At(k), Infinite)]), EveryByte()), s);
    case StoreNumber(_) =>
    case StorePointer(_) =>
    case IncrementLoopCounter(name) =>
      var c := LoopCounter(name);
      UpdatedSound(d, s, c, Interval(Shift(Bounds(d, c).lo, 1), Shift(Bounds(d, c).hi, 1)), s.Value(c) + 1);
  }

  lemma {:induction false} CheckSound(p: Assertion, d: EbpfDomain, s: Machine)
    requires Check(p, d) && Has(d, s)
    ensures Holds(p, s)
  {
  }

  /** The domain for a program whose instruction at each label is given by `ins`. */
  function Instance(ins: Label -> Instruction, counters: set<Label>): Domain<EbpfDomain, Machine, Assertion> {
    Domain(
      BottomValue(),
      (d: EbpfDomain) => IsBottom(d),
      (a: EbpfDomain, b: EbpfDomain) => Leq(a, b),
      (a: EbpfDomain, b: EbpfDomain) => Join(a, b),
      (a: EbpfDomain, b: EbpfDomain) => Meet(a, b),
      (a: EbpfDomain, b: EbpfDomain, toConstants: bool) => Widen(ConstantLimits(counters), a, b, toConstants),
      (a: EbpfDomain, b: EbpfDomain) => Narrow(a, b),
      (l: Label, d: EbpfDomain) => Transform(ins(l), d),
      (l: Label, p: Assertion, d: EbpfDomain) => Check(p, d),
      (d: EbpfDomain, l: Label) => Transform(Assign(LoopCounter(l), 0), d),
      (d: EbpfDomain) => Rank(d),
      (d: EbpfDomain, s: Machine) => Has(d, s),
      (l: Label, s: Machine, s': Machine) => Step(ins(l), s, s'),
      (p: Assertion, s: Machine) => Holds(p, s),
      (s: Machine, l: Label) => s.Set(LoopCounter(l), 0))
  }

  /** The instance meets everything that the engine asks of a domain. */
  lemma {:induction false} InstanceIsSound(ins: Label -> Instruction, counters: set<Label>)
    ensures Sound(Instance(ins, counters))
  {
    var dom := Instance(ins, counters);
    InstanceLattice(ins, counters);
    InstanceSemantics(ins, counters);
    forall a, b | !dom.leq(b, a) ensures RankBelow(dom.rank(dom.widen(a, b, false)), dom.rank(a)) {
      WidenDrops(ConstantLimits(counters), a, b);
    }
  }

  lemma {:induction false} InstanceLattice(ins: Label -> Instruction, counters: set<Label>)
    ensures LatticeSound(Instance(ins, counters))
  {
    hide Leq, Join, Meet, Narrow, Has;
    var dom := Instance(ins, counters);
    forall a, b, s | dom.leq(a, b) && dom.gamma(a, s) ensures dom.gamma(b, s) {
      LeqSound(a, b, s);
    }
    forall a, b, s | dom.gamma(a, s) || dom.gamma(b, s) ensures dom.gamma(dom.join(a, b), s) {
      JoinSound(a, b, s);
    }
    forall a, b, s | dom.gamma(a, s) && dom.gamma(b, s)
      ensures dom.gamma(dom.meet(a, b), s) && dom.gamma(dom.narrow(a, b), s) {
      MeetSound(a, b, s);
      NarrowSound(a, b, s);
    }
    forall a, s ensures dom.isBottom(a) ==> !dom.gamma(a, s) {
      BottomIsEmpty(a, s);
    }
  }

  lemma {:induction false} BottomIsEmpty(d: EbpfDomain, s: Machine)
    ensures IsBottom(d) ==> !Has(d, s)
  {
  }

  lemma {:induction false} InstanceSemantics(ins: Label -> Instruction, counters: set<Label>)
    ensures SemanticsSound(Instance(ins, counters))
  {
    hide Transform, Step, Check, Holds, Has;
    var dom := Instance(ins, counters);
    forall l, a, s, s' | dom.gamma(a, s) && dom.step(l, s, s') ensures dom.gamma(dom.transform(l, a), s') {
      TransformSound(ins(l), a, s, s');
    }
    forall l, p, a, s | dom.check(l, p, a) && dom.gamma(a, s) ensures dom.holds(p, s) {
      CheckSound(p, a, s);
    }
    forall l, a, s | dom.gamma(a, s) ensures dom.gamma(dom.resetCounter(a, l), dom.zero(s, l)) {
      ResetSound(l, a, s);
    }
  }

  lemma {:induction false} ResetSound(l: Label, a: EbpfDomain, s: Machine)
    requires Has(a, s)
    ensures Has(Transform(Assign(LoopCounter(l), 0), a), s.Set(LoopCounter(l), 0))
  {
    assert Step(Assign(LoopCounter(l), 0), s, s.Set(LoopCounter(l), 0));
    TransformSound(Assign(LoopCounter(l), 0), a, s, s.Set(LoopCounter(l), 0));
  }

  function Target(ins: Instruction): set<Variable> {
    match ins
    case Forget(v) => {v}
    case Assign(v, _) => {v}
    case Copy(v, _) => {v}
    case Add(v, _) => {v}
    case IncrementLoopCounter(name) => {LoopCounter(name)}
    case _ => {}
  }

  /** The increments of `heads` are where they belong, carry their bound, and no other instruction changes
      the counters. */
  ghost predicate CountedByInstructions(ins: Label -> Instruction, heads: set<Label>, bound: Label -> Assertion) {
    && (forall h, k :: h in heads && k in heads && CounterLabel(h) == CounterLabel(k) ==> h == k)
    && (forall h :: h in heads ==>
                      && ins(CounterLabel(h)) == IncrementLoopCounter(h)
                      && bound(CounterLabel(h)) == AtMost(LoopCounter(h), LIMIT))
    && (forall h, l :: h in heads && LoopCounter(h) in Target(ins(l)) ==> l in CounterLabels(heads))
  }

  /** Programs whose instructions leave loop counters to the inserted increments count their loops. */
  lemma {:induction false} InstanceCountsLoops(
    ins: Label -> Instruction, counters: set<Label>, heads: set<Label>, bound: Label -> Assertion)
    requires CountedByInstructions(ins, heads, bound)
    ensures CountsLoops(Instance(ins, counters), heads, (s: Machine, h: Label) => s.Value(LoopCounter(h)), bound)
  {
    hide Step, Machine.Value, Instance;
    forall l, s: Machine, s': Machine
      ensures Instance(ins, counters).step(l, s, s') <==> Step(ins(l), s, s')
    {
      InstanceMeaning(ins, counters, l, s, s', AtMost(Register(0), 0));
    }
    forall p, s: Machine ensures Instance(ins, counters).holds(p, s) <==> Holds(p, s) {
      InstanceMeaning(ins, counters, Label(0, 0, "", ""), s, s, p);
    }
    forall l, s: Machine, s': Machine, h | Step(ins(l), s, s') && h in heads
      ensures s'.Value(LoopCounter(h)) == s.Value(LoopCounter(h)) + if l == CounterLabel(h) then 1 else 0
    {
      if l == CounterLabel(h) {
        CounterIncreases(h, s, s');
      } else {
        if l in CounterLabels(heads) {
          var k :| k in heads && l == CounterLabel(k);
          assert Target(ins(l)) == {LoopCounter(k)};
        }
        OnlyTargetChanges(ins(l), s, s', LoopCounter(h));
      }
    }
  }

  lemma {:induction false} InstanceMeaning(
    ins: Label -> Instruction, counters: set<Label>, l: Label, s: Machine, s': Machine, p: Assertion)
    ensures Instance(ins, counters).step(l, s, s') <==> Step(ins(l), s, s')
    ensures Instance(ins, counters).holds(p, s) <==> Holds(p, s)
  {
    hide Step, Holds;
  }

  lemma {:induction false} InstanceZeroesCounters(ins: Label -> Instruction, counters: set<Label>, heads: set<Label>)
    ensures ZeroesCounters(Instance(ins, counters), heads, (s: Machine, h: Label) => s.Value(LoopCounter(h)))
  {
  }

  /** Programs of these instructions that are accepted, whose order is flat and whose heads are followed by
      their counters, stop within a number of steps known from the sizes. */
  lemma {:induction false} InstanceRunsStop(
    ins: Label -> Instruction, counters: set<Label>, prog: Program<Assertion>, entryInv: EbpfDomain, w: WeakOrder.Wto,
    t: Table<EbpfDomain>, bound: Label -> Assertion, n: nat, v: Label, s: Machine)
    requires prog.WellFormed() && WeakOrder.Valid(prog.cfg, w) && Flat(w.components)
    requires HeadsCounted(prog.cfg, Range(LoopHeads(w.components)))
             && BoundedCounters(LoopHeads(w.components), prog, bound)
    requires CountedByInstructions(ins, Range(LoopHeads(w.components)), bound)
    requires Verified(SetupOf(prog, Instance(ins, counters), entryInv, w.components, true), t, true)
    requires Reach(SetupOf(prog, Instance(ins, counters), entryInv, w.components, true), n, v, s)
    ensures n <= SizeLimit(w.components)
  {
    hide WeakOrder.Valid, Flat, HeadsCounted, BoundedCounters, CountedByInstructions, Verified, Reach, CountsLoops,
      ZeroesCounters,
      Instance, LoopHeads, Program.WellFormed;
    var heads := Range(LoopHeads(w.components));
    var count := (m: Machine, h: Label) => m.Value(LoopCounter(h));
    InstanceCountsLoops(ins, counters, heads, bound);
    InstanceZeroesCounters(ins, counters, heads);
    AcceptedRunsStop(prog, Instance(ins, counters), entryInv, w, t, count, bound, n, v, s);
  }

  lemma {:induction false} CounterIncreases(h: Label, s: Machine, s': Machine)
    requires Step(IncrementLoopCounter(h), s, s')
    ensures s'.Value(LoopCounter(h)) == s.Value(LoopCounter(h)) + 1
  {
  }

  lemma {:induction false} OnlyTargetChanges(ins: Instruction, s: Machine, s': Machine, v: Variable)
    requires Step(ins, s, s')
    ensures v !in Target(ins) ==> s'.Value(v) == s.Value(v)
  {
  }
}
