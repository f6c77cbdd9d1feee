/** Intervals of integers with finite or infinite bounds, as the domains use them. */
module Intervals {

  datatype Bound = Infinite | At(value: int)

  /** All integers between two bounds. */
  datatype Interval = Interval(lo: Bound, hi: Bound)
  {
    ghost predicate Has(x: int) {
      (lo.At? ==> lo.value <= x) && (hi.At? ==> x <= hi.value)
    }

    predicate Empty() {
      lo.At? && hi.At? && lo.value > hi.value
    }
  }

  const ALL := Interval(Infinite, Infinite)

  function Lower(a: Bound, b: Bound): Bound {
    if a.At? && b.At? then At(if a.value < b.value then a.value else b.value) else Infinite
  }

  function Upper(a: Bound, b: Bound): Bound {
    if a.At? && b.At? then At(if a.value > b.value then a.value else b.value) else Infinite
  }

  /** The tighter of two bounds, where `low` tells which side they are on. */
  function Tighter(a: Bound, b: Bound, low: bool): Bound {
    if a.Infinite? then b
    else if b.Infinite? then a
    else if low == (a.value > b.value) then a
    else b
  }

  predicate Within(a: Interval, b: Interval) {
    (b.lo.At? ==> a.lo.At? && b.lo.value <= a.lo.value) && (b.hi.At? ==> a.hi.At? && a.hi.value <= b.hi.value)
  }

  function Hull(a: Interval, b: Interval): Interval {
    Interval(Lower(a.lo, b.lo), Upper(a.hi, b.hi))
  }

  function Common(a: Interval, b: Interval): Interval {
    Interval(Tighter(a.lo, b.lo, true), Tighter(a.hi, b.hi, false))
  }

  /** Gives up the bounds of `a` that `b` exceeds. */
  function Widened(a: Interval, b: Interval): Interval {
    Interval(
      if a.lo.At? && b.lo.At? && a.lo.value <= b.lo.value then a.lo else Infinite,
      if a.hi.At? && b.hi.At? && b.hi.value <= a.hi.value then a.hi else Infinite)
  }

  /** Refines only the infinite bounds of `a`. */
  function Narrowed(a: Interval, b: Interval): Interval {
    Interval(if a.lo.At? then a.lo else b.lo, if a.hi.At? then a.hi else b.hi)
  }

  function Plus(a: Bound, b: Bound): Bound {
    if a.At? && b.At? then At(a.value + b.value) else Infinite
  }

  /** All sums of a member of `a` and a member of `b`. */
  function Sum(a: Interval, b: Interval): Interval {
    Interval(Plus(a.lo, b.lo), Plus(a.hi, b.hi))
  }

  /** The only member, if there is just one. */
  predicate Singleton(i: Interval) {
    i.lo.At? && i.hi.At? && i.lo.value == i.hi.value
  }
}
