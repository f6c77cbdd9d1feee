/** Which stack bytes are known to hold numbers (src/crab/bitset_domain.hpp, src/crab/bitset_domain.cpp,
    src/crab/array_domain.cpp:551-560). */
module Bitset {
  import opened Intervals
  import opened MachineIntegers

  const STACK_SIZE: nat := 4096

  /** Bytes `first` to `last`, both included. */
  datatype ByteRange = ByteRange(first: nat, last: nat)

  ghost predicate InRange(r: ByteRange, i: int) {
    r.first <= i <= r.last
  }

  /** A run of numeric bytes that cannot be extended. */
  ghost predicate MaximalRun(bits: seq<bool>, r: ByteRange) {
    && r.first <= r.last < |bits|
    && (forall i :: r.first <= i <= r.last ==> !bits[i])
    && (r.first > 0 ==> bits[r.first - 1])
    && (r.last + 1 < |bits| ==> bits[r.last + 1])
  }

  ghost predicate NumericAt(bits: seq<bool>, i: int) {
    0 <= i < |bits| && !bits[i]
  }

  ghost predicate Listed(ranges: seq<ByteRange>, i: int) {
    exists k :: 0 <= k < |ranges| && InRange(ranges[k], i)
  }

  /** The bits with those of a range cleared, or set. */
  ghost predicate Assigned(before: seq<bool>, after: seq<bool>, lb: nat, n: int, bit: bool) {
    |after| == |before| && forall i :: 0 <= i < |before| ==> after[i] == if lb <= i < lb + n then bit else before[i]
  }

  class BitsetDomain {
    const nonNumerical: array<bool>

    ghost predicate Valid() {
      nonNumerical.Length == STACK_SIZE
    }

    /** No byte is known to be a number. */
    constructor ()
      ensures Valid() && fresh(nonNumerical) && forall i :: 0 <= i < STACK_SIZE ==> nonNumerical[i]
    {
      nonNumerical := new bool[STACK_SIZE](i => true);
    }

    /** Records numbers in `n` bytes from `lb` on. */
    method Reset(lb: nat, n: int)
      requires Valid()
      modifies nonNumerical
      ensures Assigned(old(nonNumerical[..]), nonNumerical[..], lb, n, false)
    {
      if lb >= STACK_SIZE {
        return;
      }
      var m := if n < STACK_SIZE - lb then n else STACK_SIZE - lb;
      var i := 0;
      while i < m
        invariant 0 <= i && (i == 0 || i <= m)
        invariant forall k ::
                    0 <= k < STACK_SIZE ==> nonNumerical[k] == if lb <= k < lb + i then false else old(nonNumerical[k])
      {
        nonNumerical[lb + i] := false;
        i := i + 1;
      }
    }

    /** Forgets what `width` bytes from `lb` on hold. */
    method Havoc(lb: nat, width: int)
      requires Valid()
      modifies nonNumerical
      ensures Assigned(old(nonNumerical[..]), nonNumerical[..], lb, width, true)
    {
      if lb >= STACK_SIZE {
        return;
      }
      var m := if width < STACK_SIZE - lb then width else STACK_SIZE - lb;
      var i := 0;
      while i < m
        invariant 0 <= i && (i == 0 || i <= m)
        invariant forall k ::
                    0 <= k < STACK_SIZE ==> nonNumerical[k] == if lb <= k < lb + i then true else old(nonNumerical[k])
      {
        nonNumerical[lb + i] := true;
        i := i + 1;
      }
    }

    /** Whether the bytes of a range are all numbers, and whether none is. */
    method Uniformity(lb: nat, width: int) returns (onlyNum: bool, onlyNonNum: bool)
      requires Valid()
      ensures onlyNum <==> forall i :: lb <= i < lb + width && i < STACK_SIZE ==> !nonNumerical[i]
      ensures onlyNonNum <==> forall i :: lb <= i < lb + width && i < STACK_SIZE ==> nonNumerical[i]
    {
      if lb >= STACK_SIZE {
        return true, true;
      }
      var w := if width < STACK_SIZE - lb then width else STACK_SIZE - lb;
      onlyNum, onlyNonNum := true, true;
      var j := 0;
      while j < w
        invariant 0 <= j && (j == 0 || j <= w)
        invariant onlyNum <==> forall i :: lb <= i < lb + j ==> !nonNumerical[i]
        invariant onlyNonNum <==> forall i :: lb <= i < lb + j ==> nonNumerical[i]
      {
        var b := nonNumerical[lb + j];
        onlyNum := onlyNum && !b;
        onlyNonNum := onlyNonNum && b;
        j := j + 1;
      }
    }

    /** How many bytes from `lb` on are known to be numbers. */
    method AllNumWidth(lb: nat) returns (n: nat)
      requires Valid()
      ensures lb >= STACK_SIZE ==> n == 0
      ensures lb < STACK_SIZE ==> lb + n <= STACK_SIZE
      ensures forall i :: lb <= i < lb + n ==> !nonNumerical[i]
      ensures lb + n < STACK_SIZE ==> nonNumerical[lb + n]
    {
      if lb >= STACK_SIZE {
        return 0;
      }
      var ub := lb;
      while ub < STACK_SIZE && !nonNumerical[ub]
        invariant lb <= ub <= STACK_SIZE && forall i :: lb <= i < ub ==> !nonNumerical[i]
      {
        ub := ub + 1;
      }
      return ub - lb;
    }

    /** Whether all bytes from `lb` up to but not including `ub` are numbers. */
    method AllNum(lb: int, ub: int) returns (r: bool)
      requires Valid() && (lb != ub ==> lb <= STACK_SIZE && 0 <= ub && lb <= ub)
      ensures r <==> forall i :: lb <= i < ub && 0 <= i < STACK_SIZE ==> !nonNumerical[i]
    {
      if lb == ub {
        return true;
      }
      var low, high := if lb > 0 then lb else 0, if ub < STACK_SIZE then ub else STACK_SIZE;
      var i := low;
      while i < high
        invariant low <= i <= high && forall k :: low <= k < i ==> !nonNumerical[k]
      {
        if nonNumerical[i] {
          return false;
        }
        i := i + 1;
      }
      return true;
    }

    /** The runs of numeric bytes. */
    method ToRanges() returns (ranges: seq<ByteRange>)
      requires Valid()
      ensures forall k :: 0 <= k < |ranges| ==> MaximalRun(nonNumerical[..], ranges[k])
      ensures forall k, l :: 0 <= k < l < |ranges| ==> ranges[k].last + 1 < ranges[l].first
      ensures forall i :: 0 <= i < STACK_SIZE ==> (Listed(ranges, i) <==> !nonNumerical[i])
    {
      ranges := [];
      var i := 0 - STACK_SIZE;
      while i < 0
        invariant 0 - STACK_SIZE <= i <= 1
        invariant i == 1 || i == 0 - STACK_SIZE || nonNumerical[STACK_SIZE + i - 1]
        invariant forall k ::
                    0 <= k < |ranges| ==> MaximalRun(nonNumerical[..], ranges[k]) && ranges[k].last + 1 < STACK_SIZE + i
        invariant forall k, l :: 0 <= k < l < |ranges| ==> ranges[k].last + 1 < ranges[l].first
        invariant forall b :: 0 <= b < STACK_SIZE + i && b < STACK_SIZE ==> (Listed(ranges, b) <==> !nonNumerical[b])
      {
        if nonNumerical[STACK_SIZE + i] {
          i := i + 1;
          continue;
        }
        var j := i + 1;
        while j < 0 && !nonNumerical[STACK_SIZE + j]
          invariant i < j <= 0 && forall b :: STACK_SIZE + i <= b < STACK_SIZE + j ==> !nonNumerical[b]
        {
          j := j + 1;
        }
        var run := ByteRange(STACK_SIZE + i, STACK_SIZE + j - 1);
        ListedMore(ranges, run);
        ranges := ranges + [run];
        i := j + 1;
      }
    }

    /** Records numbers in each of the ranges. */
    method ResetAll(ranges: seq<ByteRange>)
      requires Valid() && forall k :: 0 <= k < |ranges| ==> ranges[k].first <= ranges[k].last
      modifies nonNumerical
      ensures forall i :: 0 <= i < STACK_SIZE ==> nonNumerical[i] == (old(nonNumerical[i]) && !Listed(ranges, i))
    {
      var k := 0;
      assert ranges[..0] == [];
      while k < |ranges|
        invariant 0 <= k <= |ranges|
        invariant forall i ::
                    0 <= i < STACK_SIZE ==> nonNumerical[i] == (old(nonNumerical[i]) && !Listed(ranges[..k], i))
      {
        ghost var before := nonNumerical[..];
        Reset(ranges[k].first, 1 + (ranges[k].last - ranges[k].first));
        assert ranges[..k + 1] == ranges[..k] + [ranges[k]];
        ListedMore(ranges[..k], ranges[k]);
        forall i | 0 <= i < STACK_SIZE ensures nonNumerical[i] == (before[i] && !InRange(ranges[k], i)) {
          assert nonNumerical[..][i]
              == if ranges[k].first <= i < ranges[k].first + (1 + (ranges[k].last - ranges[k].first)) then false
                 else before[i];
        }
        k := k + 1;
      }
      assert ranges[..k] == ranges;
    }

    /** Byte `i` is on the stack and known to be a number. */
    ghost predicate IsNumber(i: int)
      reads nonNumerical
      requires Valid()
    {
      0 <= i < STACK_SIZE && !nonNumerical[i]
    }

    /** How many bytes are numbers from whichever offset in an interval one starts: for a 32-bit interval
        the largest such number. */
    method MinAllNumSize(offset: Interval) returns (n: nat)
      requires Valid()
      ensures forall o, i :: n > 0 && offset.Has(o) && o <= i < o + n ==> IsNumber(i)
      ensures n > 0 ==> offset.lo.At? && offset.hi.At?
      ensures offset.lo.At? && offset.hi.At? && INT32_MIN <= offset.lo.value <= offset.hi.value <= INT32_MAX
              ==> exists o, i :: offset.Has(o) && o <= i <= o + n && !IsNumber(i)
    {
      if offset.lo.Infinite? || offset.hi.Infinite? {
        return 0;
      }
      var lb, ub := offset.lo.value, offset.hi.value;
      if !(INT32_MIN <= lb <= INT32_MAX) || !(INT32_MIN <= ub <= INT32_MAX) {
        return 0;
      }
      var width: nat := 0;
      if lb >= 0 {
        width := AllNumWidth(lb);
      }
      assert !IsNumber(lb + width);
      assert forall i :: lb <= i < lb + width ==> IsNumber(i);
      n := if width - (ub - lb) > 0 then width - (ub - lb) else 0;
      if lb <= ub {
        var o := if n > 0 then ub else lb + width;
        assert offset.Has(o) && o <= lb + width <= o + n;
      }
    }
  }

  lemma {:induction false} ListedMore(ranges: seq<ByteRange>, r: ByteRange)
    ensures forall i :: Listed(ranges + [r], i) <==> Listed(ranges, i) || InRange(r, i)
  {
    var longer := ranges + [r];
    forall i ensures Listed(longer, i) <==> Listed(ranges, i) || InRange(r, i) {
      if Listed(ranges, i) {
        var k :| 0 <= k < |ranges| && InRange(ranges[k], i);
        assert InRange(longer[k], i);
      }
      if InRange(r, i) {
        assert InRange(longer[|ranges|], i);
      }
    }
  }

  // ----- the text of a run -----

  /** A run as it is written: a single byte, or the first and the last of several. */
  datatype Text = Single(at: nat) | Several(first: nat, last: nat)

  function Written(r: ByteRange): Text {
    if r.first < r.last then Several(r.first, r.last) else Single(r.first)
  }

  /** No numeric byte stands between bytes that are not. */
  ghost predicate NoLoneByte(bits: seq<bool>) {
    forall i :: NumericAt(bits, i) ==> NumericAt(bits, i - 1) || NumericAt(bits, i + 1)
  }

  method ToSet(d: BitsetDomain) returns (texts: seq<Text>, ghost ranges: seq<ByteRange>)
    requires d.Valid()
    ensures forall k :: 0 <= k < |ranges| ==> MaximalRun(d.nonNumerical[..], ranges[k])
    ensures forall k, l :: 0 <= k < l < |ranges| ==> ranges[k].last + 1 < ranges[l].first
    ensures forall i :: 0 <= i < STACK_SIZE ==> (Listed(ranges, i) <==> !d.nonNumerical[i])
    ensures |texts| == |ranges| && forall k :: 0 <= k < |texts| ==> texts[k] == Written(ranges[k])
  {
    var runs := d.ToRanges();
    texts := [];
    var k := 0;
    while k < |runs|
      invariant 0 <= k <= |runs| && |texts| == k && forall j :: 0 <= j < k ==> texts[j] == Written(runs[j])
    {
      texts := texts + [Written(runs[k])];
      k := k + 1;
    }
    ranges := runs;
  }

  /** The reader of constraints knows ranges of the second form only. */
  method FromSet(texts: seq<Text>) returns (ok: bool, ranges: seq<ByteRange>)
    ensures ok <==> forall k :: 0 <= k < |texts| ==> texts[k].Several?
    ensures ok ==> |ranges| == |texts| && forall k ::
                     0 <= k < |texts| ==> ranges[k] == ByteRange(texts[k].first, texts[k].last)
  {
    ranges := [];
    var k := 0;
    while k < |texts|
      invariant 0 <= k <= |texts| && |ranges| == k
      invariant forall j :: 0 <= j < k ==> texts[j].Several? && ranges[j] == ByteRange(texts[j].first, texts[j].last)
    {
      if texts[k].Single? {
        return false, ranges;
      }
      ranges := ranges + [ByteRange(texts[k].first, texts[k].last)];
      k := k + 1;
    }
    return true, ranges;
  }

  lemma {:induction false} LoneByteIsRun(bits: seq<bool>, ranges: seq<ByteRange>)
    requires forall k :: 0 <= k < |ranges| ==> MaximalRun(bits, ranges[k])
    requires forall i :: 0 <= i < |bits| ==> (Listed(ranges, i) <==> !bits[i])
    ensures NoLoneByte(bits) <==> forall k :: 0 <= k < |ranges| ==> ranges[k].first < ranges[k].last
  {
    if NoLoneByte(bits) {
      forall k | 0 <= k < |ranges| ensures ranges[k].first < ranges[k].last {
        var r := ranges[k];
        assert NumericAt(bits, r.first) && !NumericAt(bits, r.first - 1) && !NumericAt(bits, r.last + 1);
      }
    }
    if forall k :: 0 <= k < |ranges| ==> ranges[k].first < ranges[k].last {
      forall i | NumericAt(bits, i) ensures NumericAt(bits, i - 1) || NumericAt(bits, i + 1) {
        assert Listed(ranges, i);
        var k :| 0 <= k < |ranges| && InRange(ranges[k], i);
        assert NumericAt(bits, if i < ranges[k].last then i + 1 else i - 1);
      }
    }
  }

  /** Reading back the text succeeds exactly if no numeric byte stands alone, and then rebuilds the bytes. */
  method TextRoundTrip(d: BitsetDomain) returns (ok: bool, copy: BitsetDomain)
    requires d.Valid()
    ensures ok <==> NoLoneByte(d.nonNumerical[..])
    ensures copy.Valid() && fresh(copy.nonNumerical)
    ensures ok ==> copy.nonNumerical[..] == d.nonNumerical[..]
  {
    var texts;
    ghost var runs;
    texts, runs := ToSet(d);
    LoneByteIsRun(d.nonNumerical[..], runs);
    var ranges;
    ok, ranges := FromSet(texts);
    copy := new BitsetDomain();
    if ok {
      assert ranges == runs;
      copy.ResetAll(ranges);
    }
  }

  /** A stack of which only the first byte is a number cannot be read back. */
  lemma {:induction false} FirstByteAlone(bits: seq<bool>)
    requires |bits| == STACK_SIZE && forall i :: 0 <= i < STACK_SIZE ==> bits[i] == (i != 0)
    ensures !NoLoneByte(bits) && MaximalRun(bits, ByteRange(0, 0)) && Written(ByteRange(0, 0)) == Single(0)
  {
    assert NumericAt(bits, 0) && !NumericAt(bits, 0 - 1) && !NumericAt(bits, 0 + 1);
  }

  /** Listing the runs and recording them anew gives back the same bytes. */
  method RoundTrip(d: BitsetDomain) returns (copy: BitsetDomain)
    requires d.Valid()
    ensures copy.Valid() && fresh(copy.nonNumerical) && copy.nonNumerical[..] == d.nonNumerical[..]
  {
    var ranges := d.ToRanges();
    copy := new BitsetDomain();
    copy.ResetAll(ranges);
  }

  /** Maximal runs that share a byte are the same, so there is only one list of them. */
  lemma {:induction false} RunsMeetOrAgree(bits: seq<bool>, r: ByteRange, s: ByteRange, i: int)
    requires MaximalRun(bits, r) && MaximalRun(bits, s) && InRange(r, i) && InRange(s, i)
    ensures r == s
  {
    StartsNoLater(bits, r, s, i);
    StartsNoLater(bits, s, r, i);
  }

  lemma {:induction false} StartsNoLater(bits: seq<bool>, r: ByteRange, s: ByteRange, i: int)
    requires MaximalRun(bits, r) && MaximalRun(bits, s) && InRange(r, i) && InRange(s, i)
    ensures s.first <= r.first && r.last <= s.last
  {
    assert InRange(r, s.first - 1) ==> NumericAt(bits, s.first - 1);
    assert InRange(r, s.last + 1) ==> NumericAt(bits, s.last + 1);
  }
}
