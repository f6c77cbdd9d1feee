/** Finite-width readings of unbounded numbers (src/arith/num_big.hpp:117-190,
    src/arith/num_big.hpp:308-314). */
module Numbers {

  function Pow2(k: nat): (r: nat)
    ensures r > 0
  {
    if k == 0 then 1 else 2 * Pow2(k - 1)
  }

  /** The last `width` bits of `n` in two's complement; width 0 means no limit. */
  function ZeroExtend(n: int, width: nat): int {
    if width == 0 then n else n % Pow2(width)
  }

  /** The last `width` bits of `n` with the highest of them as sign. */
  function SignExtend(n: int, width: nat): int {
    if width == 0 then n
    else
      var truncated := n % Pow2(width);
      if truncated >= Pow2(width - 1) then truncated - Pow2(width) else truncated
  }

  /** `a` and `b` differ by a multiple of `m`. */
  ghost predicate Congruent(a: int, b: int, m: int) {
    exists k: int :: a - b == k * m
  }

  lemma {:induction false} CongruentBy(a: int, b: int, k: int, m: int)
    requires a - b == k * m
    ensures Congruent(a, b, m)
  {
  }

  lemma {:induction false} Division(n: int, m: nat)
    requires m > 0
    ensures n == (n / m) * m + n % m && 0 <= n % m < m && Congruent(n % m, n, m)
  {
    assert n % m - n == (-(n / m)) * m;
    CongruentBy(n % m, n, -(n / m), m);
  }

  lemma {:induction false} CongruentTrans(a: int, b: int, c: int, m: int)
    requires Congruent(a, b, m) && Congruent(c, b, m)
    ensures Congruent(a, c, m)
  {
    var k: int :| a - b == k * m;
    var l: int :| c - b == l * m;
    assert a - c == (k - l) * m;
  }

  /** Two congruent numbers in a range of `m` numbers are equal. */
  lemma {:induction false} CongruentUnique(a: int, b: int, lo: int, m: nat)
    requires Congruent(a, b, m) && lo <= a < lo + m && lo <= b < lo + m
    ensures a == b
  {
    var k: int :| a - b == k * m;
    assert k >= 1 ==> (k - 1) * m >= 0;
    assert k <= -1 ==> (-1 - k) * m >= 0;
  }

  /** Zero extension gives the only congruent number in the unsigned range. */
  lemma {:induction false} ZeroExtendIsUnique(n: int, width: nat, r: int)
    requires width > 0
    ensures r == ZeroExtend(n, width) <==> 0 <= r < Pow2(width) && Congruent(r, n, Pow2(width))
  {
    Division(n, Pow2(width));
    if 0 <= r < Pow2(width) && Congruent(r, n, Pow2(width)) {
      CongruentTrans(r, n, n % Pow2(width), Pow2(width));
      CongruentUnique(r, n % Pow2(width), 0, Pow2(width));
    }
  }

  lemma {:induction false} SignExtendInRange(n: int, width: nat)
    requires width > 0
    ensures 0 <= SignExtend(n, width) + Pow2(width - 1) < Pow2(width) && Congruent(SignExtend(n, width), n, Pow2(width))
  {
    var m, t := Pow2(width), n % Pow2(width);
    Division(n, m);
    if t >= Pow2(width - 1) {
      assert t - m - n == (-(n / m) - 1) * m;
      CongruentBy(t - m, n, -(n / m) - 1, m);
    }
  }

  /** Sign extension gives the only congruent number in the signed range. */
  lemma {:induction false} SignExtendIsUnique(n: int, width: nat, r: int)
    requires width > 0
    ensures r == SignExtend(n, width) <==> 0 <= r + Pow2(width - 1) < Pow2(width) && Congruent(r, n, Pow2(width))
  {
    SignExtendInRange(n, width);
    if 0 <= r + Pow2(width - 1) < Pow2(width) && Congruent(r, n, Pow2(width)) {
      CongruentTrans(r, n, SignExtend(n, width), Pow2(width));
      CongruentUnique(r, SignExtend(n, width), 0 - Pow2(width - 1), Pow2(width));
    }
  }

  /** Congruent numbers extend alike, so either extension absorbs the other. */
  lemma {:induction false} ExtendCongruent(a: int, b: int, width: nat)
    requires width > 0 && Congruent(a, b, Pow2(width))
    ensures ZeroExtend(a, width) == ZeroExtend(b, width) && SignExtend(a, width) == SignExtend(b, width)
  {
    var k: int :| a - b == k * Pow2(width);
    CongruentBy(b, a, -k, Pow2(width));
    ZeroExtendIsUnique(a, width, ZeroExtend(a, width));
    SignExtendIsUnique(a, width, SignExtend(a, width));
    CongruentTrans(ZeroExtend(a, width), a, b, Pow2(width));
    CongruentTrans(SignExtend(a, width), a, b, Pow2(width));
    ZeroExtendIsUnique(b, width, ZeroExtend(a, width));
    SignExtendIsUnique(b, width, SignExtend(a, width));
  }

  lemma {:induction false} ExtensionsAbsorb(n: int, width: nat)
    ensures SignExtend(ZeroExtend(n, width), width) == SignExtend(n, width)
    ensures ZeroExtend(SignExtend(n, width), width) == ZeroExtend(n, width)
  {
    if width > 0 {
      Division(n, Pow2(width));
      SignExtendInRange(n, width);
      ExtendCongruent(ZeroExtend(n, width), n, width);
      ExtendCongruent(SignExtend(n, width), n, width);
    }
  }

  /** Wrapped addition and multiplication may use any representatives of their operands. */
  lemma {:induction false} ExtensionCommutes(a: int, b: int, a': int, b': int, width: nat)
    requires width > 0 && Congruent(a', a, Pow2(width)) && Congruent(b', b, Pow2(width))
    ensures SignExtend(a' + b', width) == SignExtend(a + b, width)
            && ZeroExtend(a' + b', width) == ZeroExtend(a + b, width)
    ensures SignExtend(a' * b', width) == SignExtend(a * b, width)
            && ZeroExtend(a' * b', width) == ZeroExtend(a * b, width)
  {
    var m := Pow2(width);
    var k: int :| a' - a == k * m;
    var l: int :| b' - b == l * m;
    assert a' + b' - (a + b) == (k + l) * m;
    CongruentBy(a' + b', a + b, k + l, m);
    ProductDifference(a, b, a', b', k, l, m);
    CongruentBy(a' * b', a * b, k * b' + a * l, m);
    ExtendCongruent(a' + b', a + b, width);
    ExtendCongruent(a' * b', a * b, width);
  }

  lemma {:induction false} ProductDifference(a: int, b: int, a': int, b': int, k: int, l: int, m: int)
    requires a' == a + k * m && b' == b + l * m
    ensures a' * b' - a * b == (k * b' + a * l) * m
  {
    assert a' * b' == a * b' + (k * m) * b';
    assert a * b' == a * b + a * (l * m);
    assert (k * m) * b' == (k * b') * m;
    assert a * (l * m) == (a * l) * m;
    assert (k * b') * m + (a * l) * m == (k * b' + a * l) * m;
  }

  // ----- filling with ones -----

  /** The position of the highest bit that is set. */
  function Msb(n: nat): nat
    requires n > 0
  {
    if n == 1 then 0 else 1 + Msb(n / 2)
  }

  function FillOnes(n: nat): nat {
    if n == 0 then 0 else Pow2(Msb(n) + 1) - 1
  }

  function BitOr(a: nat, b: nat): nat
    decreases a + b
  {
    if a == 0 then b else if b == 0 then a
    else 2 * BitOr(a / 2, b / 2) + if a % 2 == 1 || b % 2 == 1 then 1 else 0
  }

  lemma {:induction false} MsbBounds(n: nat)
    requires n > 0
    ensures Pow2(Msb(n)) <= n < Pow2(Msb(n) + 1)
  {
    if n > 1 {
      MsbBounds(n / 2);
    }
  }

  lemma {:induction false} Pow2Grows(j: nat, k: nat)
    requires j <= k
    ensures Pow2(j) <= Pow2(k)
    decreases k
  {
    if j < k {
      Pow2Grows(j, k - 1);
    }
  }

  /** Filling gives the least number of the form 2^k - 1 that is not below `n`. */
  lemma {:induction false} FillOnesIsLeast(n: nat, k: nat)
    ensures FillOnes(n) >= n && exists j :: FillOnes(n) == Pow2(j) - 1
    ensures Pow2(k) - 1 >= n ==> Pow2(k) - 1 >= FillOnes(n)
  {
    if n == 0 {
      assert FillOnes(n) == Pow2(0) - 1;
    } else {
      MsbBounds(n);
      assert FillOnes(n) == Pow2(Msb(n) + 1) - 1;
      if k <= Msb(n) {
        Pow2Grows(k, Msb(n));
      } else {
        Pow2Grows(Msb(n) + 1, k);
      }
    }
  }

  lemma {:induction false} OrStaysBelow(a: nat, b: nat, k: nat)
    requires a < Pow2(k) && b < Pow2(k)
    ensures BitOr(a, b) < Pow2(k)
    decreases k
  {
    if a != 0 && b != 0 {
      OrStaysBelow(a / 2, b / 2, k - 1);
    }
  }

  /** It bounds the bitwise or of any two numbers up to `n`. */
  lemma {:induction false} FillOnesBoundsOr(a: nat, b: nat, n: nat)
    requires a <= n && b <= n
    ensures BitOr(a, b) <= FillOnes(n)
  {
    if n > 0 {
      MsbBounds(n);
      OrStaysBelow(a, b, Msb(n) + 1);
    }
  }
}
