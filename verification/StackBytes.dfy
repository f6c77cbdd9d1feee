/** Rebuilding loaded values from the bytes of constant cells (src/crab/array_domain.cpp:562-686). */
module StackBytes {
  import opened Options
  import opened Remainders
  import opened Intervals
  import opened MachineIntegers
  import opened Cells

  // ----- bytes of numbers -----

  function Pow256(w: nat): (r: nat)
    ensures r > 0
  {
    if w == 0 then 1 else 256 * Pow256(w - 1)
  }

  predicate AreBytes(bs: seq<nat>) {
    forall i :: 0 <= i < |bs| ==> bs[i] < 256
  }

  /** The last `w` bytes of `n`, lowest first. */
  function LittleBytes(n: nat, w: nat): (bs: seq<nat>)
    ensures |bs| == w && AreBytes(bs)
  {
    if w == 0 then [] else [n % 256] + LittleBytes(n / 256, w - 1)
  }

  function LittleValue(bs: seq<nat>): nat {
    if bs == [] then 0 else bs[0] + 256 * LittleValue(bs[1..])
  }

  function Reversed(bs: seq<nat>): (r: seq<nat>)
    ensures |r| == |bs|
    ensures forall i :: 0 <= i < |bs| ==> r[i] == bs[|bs| - 1 - i]
  {
    if bs == [] then [] else Reversed(bs[1..]) + [bs[0]]
  }

  lemma {:induction false} ReversedTwice(bs: seq<nat>)
    ensures Reversed(Reversed(bs)) == bs
  {
  }

  lemma {:induction false} ValueOfBytes(n: nat, w: nat)
    ensures LittleValue(LittleBytes(n, w)) == n % Pow256(w)
    decreases w
  {
    if w > 0 {
      ValueOfBytes(n / 256, w - 1);
      assert LittleBytes(n, w)[1..] == LittleBytes(n / 256, w - 1);
      SplitModulo(n, Pow256(w - 1));
    }
  }

  lemma {:induction false} SplitModulo(n: nat, m: nat)
    requires m > 0
    ensures n % (256 * m) == n % 256 + 256 * ((n / 256) % m)
    ensures n / 256 / m == n / (256 * m)
  {
    var q, r := (n / 256) / m, (n / 256) % m;
    var low := n % 256 + 256 * r;
    assert n / 256 == q * m + r;
    assert n == q * (256 * m) + low;
    assert low < 256 * m by {
      assert 256 * r <= 256 * (m - 1);
    }
    UniqueRemainder(n, 256 * m, q, low);
  }

  lemma {:induction false} BytesOfValue(bs: seq<nat>)
    requires AreBytes(bs)
    ensures LittleBytes(LittleValue(bs), |bs|) == bs && LittleValue(bs) < Pow256(|bs|)
  {
    if bs != [] {
      BytesOfValue(bs[1..]);
      var n := LittleValue(bs);
      assert n % 256 == bs[0] && n / 256 == LittleValue(bs[1..]);
    }
  }

  lemma {:induction false} BytesAreShort(n: nat, w: nat, v: nat)
    requires w <= v
    ensures LittleBytes(n, v)[..w] == LittleBytes(n, w)
    decreases w
  {
    if w > 0 {
      BytesAreShort(n / 256, w - 1, v - 1);
    }
  }

  lemma {:induction false} BytesOfRemainder(n: nat, w: nat)
    ensures LittleBytes(n % Pow256(w), w) == LittleBytes(n, w)
  {
    ValueOfBytes(n, w);
    BytesOfValue(LittleBytes(n, w));
  }

  // ----- byte order -----

  /** What a conversion to big or little endian does to a `w`-byte number on a little-endian host. */
  function Converted(n: nat, w: nat, big: bool): nat {
    if big then LittleValue(Reversed(LittleBytes(n, w))) else n % Pow256(w)
  }

  /** The bytes in memory of the number `v` stored in `w` bytes. */
  function StoredBytes(v: int, w: nat, big: bool): (r: seq<nat>)
    ensures |r| == w
  {
    var bs := LittleBytes(v % Pow256(w), w);
    if big then Reversed(bs) else bs
  }

  /** Byte `j` of a number counts multiples of a power of 256: of the `j`-th from below, or from above. */
  lemma {:induction false} StoredByteIs(v: int, w: nat, big: bool, j: nat)
    requires j < w
    ensures StoredBytes(v, w, big)[j] == (v % Pow256(w)) / Pow256(if big then w - 1 - j else j) % 256
  {
    LittleByteIs(v % Pow256(w), w, if big then w - 1 - j else j);
  }

  lemma {:induction false} LittleByteIs(n: nat, w: nat, j: nat)
    requires j < w
    ensures LittleBytes(n, w)[j] == n / Pow256(j) % 256
  {
    if j > 0 {
      LittleByteIs(n / 256, w - 1, j - 1);
      SplitModulo(n, Pow256(j - 1));
    }
  }

  /** The unsigned number that the bytes in memory stand for. */
  function ReadBytes(bs: seq<nat>, big: bool): nat {
    LittleValue(if big then Reversed(bs) else bs)
  }

  /** Reading back what was stored gives the number modulo its width, and storing what was read gives
      the bytes. */
  lemma {:induction false} StoreThenRead(v: int, w: nat, big: bool)
    ensures ReadBytes(StoredBytes(v, w, big), big) == v % Pow256(w)
  {
    hide LittleBytes, LittleValue, Pow256, Reversed;
    var n := v % Pow256(w);
    ReversedTwice(LittleBytes(n, w));
    ValueOfBytes(n, w);
    UniqueRemainder(n, Pow256(w), 0, n);
  }

  lemma {:induction false} ReadThenStore(bs: seq<nat>, big: bool)
    requires AreBytes(bs)
    ensures StoredBytes(ReadBytes(bs, big), |bs|, big) == bs
  {
    hide LittleBytes, LittleValue, Pow256, Reversed;
    var ordered := if big then Reversed(bs) else bs;
    BytesOfValue(ordered);
    ReversedTwice(bs);
    UniqueRemainder(LittleValue(ordered), Pow256(|bs|), 0, LittleValue(ordered));
  }

  /** The host's own reading of a buffer, converted, is the number that the buffer stands for. */
  lemma {:induction false} ConvertedIsRead(bs: seq<nat>, big: bool)
    requires AreBytes(bs)
    ensures Converted(LittleValue(bs), |bs|, big) == ReadBytes(bs, big)
  {
    hide LittleBytes, LittleValue, Pow256, Reversed;
    BytesOfValue(bs);
    UniqueRemainder(LittleValue(bs), Pow256(|bs|), 0, LittleValue(bs));
  }

  /** Byte `j` of the converted number is byte `j` in memory. */
  lemma {:induction false} ConvertedByte(v: int, w: nat, j: nat, big: bool)
    requires j < w <= 8
    ensures LittleBytes(Converted(v % Pow256(8), w, big), 8)[j] == StoredBytes(v, w, big)[j]
  {
    hide LittleBytes, LittleValue, Pow256, Reversed;
    var n := v % Pow256(8);
    var stored := StoredBytes(v, w, big);
    TruncatedBytes(v, w);
    ValueOfBytes(n, w);
    BytesOfValue(stored);
    assert Converted(n, w, big) == LittleValue(stored);
    BytesAreShort(LittleValue(stored), w, 8);
    assert LittleBytes(LittleValue(stored), 8)[..w][j] == stored[j];
  }

  lemma {:induction false} TruncatedBytes(v: int, w: nat)
    requires w <= 8
    ensures LittleBytes(v % Pow256(8), w) == LittleBytes(v % Pow256(w), w)
  {
    BytesOfRemainder(v % Pow256(8), w);
    PowProduct(w, 8 - w);
    ModuloModulo(v, Pow256(w), Pow256(8 - w));
  }

  lemma {:induction false} PowProduct(a: nat, b: nat)
    ensures Pow256(a) * Pow256(b) == Pow256(a + b)
  {
    if a > 0 {
      PowProduct(a - 1, b);
    }
  }

  lemma {:induction false} ModuloModulo(v: int, m: nat, k: nat)
    requires m > 0 && k > 0
    ensures v % (m * k) % m == v % m
  {
    var q, n := v / (m * k), v % (m * k);
    assert v == (q * k) * m + n;
    var c, r := n / m, n % m;
    assert v == (q * k + c) * m + r by {
      assert n == c * m + r;
    }
    UniqueRemainder(v, m, q * k + c, r);
  }

  // ----- cells with constant values -----

  predicate IsWidth(w: nat) {
    w == 1 || w == 2 || w == 4 || w == 8
  }

  /** The aligned cell of width `w` around byte `o`. */
  function Around(o: nat, w: nat): Cell
    requires w > 0
  {
    Cell((o / w) * w, w)
  }

  /** A number that a 64-bit integer, signed or unsigned, can hold. */
  predicate FitsIndex(x: int) {
    -TWO_TO_64 <= 2 * x && x < TWO_TO_64
  }

  /** A byte of a value, if there is a value, and if it is not too large to be cast. */
  datatype Byte = Absent | TooLarge | Present(value: nat)

  /** One byte of the constant value of an aligned cell. */
  function ValueByte(known: map<Cell, int>, o: nat, w: nat, big: bool): (b: Byte)
    requires IsWidth(w)
    ensures b.Absent? <==> Around(o, w) !in known
    ensures b.TooLarge? <==> Around(o, w) in known && !FitsIndex(known[Around(o, w)])
    ensures b.Present? ==> b.value < 256
  {
    if Around(o, w) !in known then Absent
    else if !FitsIndex(known[Around(o, w)]) then TooLarge
    else
      var n := known[Around(o, w)] % Pow256(8);
      Present(LittleBytes(Converted(n, w, big), 8)[o % w])
  }

  /** Memory holds the value of every aligned constant cell. */
  ghost predicate Agrees(known: map<Cell, int>, mem: nat -> nat, big: bool) {
    forall c, j :: c in known && IsWidth(c.size) && c.offset % c.size == 0 && 0 <= j < c.size ==>
                     mem(c.offset + j) == StoredBytes(known[c], c.size, big)[j]
  }

  lemma {:induction false} AroundByte(o: nat, w: nat)
    requires w > 0
    ensures Around(o, w).size == w && Around(o, w).offset % w == 0 && Around(o, w).offset + o % w == o
    ensures Around(o, w).Covers(o)
  {
    assert o == (o / w) * w + o % w;
    UniqueRemainder((o / w) * w, w, o / w, 0);
  }

  lemma {:induction false} ValueByteIsMemory(known: map<Cell, int>, o: nat, w: nat, big: bool, mem: nat -> nat)
    requires IsWidth(w) && Agrees(known, mem, big)
    ensures ValueByte(known, o, w, big).Present? ==> ValueByte(known, o, w, big).value == mem(o)
  {
    hide StoredBytes, LittleBytes, Converted, Pow256;
    if ValueByte(known, o, w, big).Present? {
      AroundByte(o, w);
      var c := Around(o, w);
      ConvertedByte(known[c], w, o % w, big);
      assert mem(c.offset + o % w) == StoredBytes(known[c], c.size, big)[o % w];
    }
  }

  /** Some aligned cell around byte `o` has a constant value. */
  ghost predicate ByteKnown(known: map<Cell, int>, o: nat) {
    exists w: nat :: IsWidth(w) && Around(o, w) in known
  }

  /** The constant of the widest such cell is too large to be cast. */
  ghost predicate ByteOverflows(known: map<Cell, int>, o: nat) {
    exists w: nat :: IsWidth(w) && Around(o, w) in known && !FitsIndex(known[Around(o, w)])
                     && forall v: nat :: IsWidth(v) && v > w ==> Around(o, v) !in known
  }

  /** Byte `o` lies in some aligned constant cell that loads use. */
  ghost predicate Supplied(known: map<Cell, int>, o: nat) {
    exists c :: c in known && c.Covers(o) && (c.size == 1 || c.size == 2 || c.size == 4 || c.size == 8)
                && c.offset % c.size == 0
  }

  /** A byte is known exactly if it is so supplied. */
  lemma {:induction false} SuppliedIsKnown(known: map<Cell, int>, o: nat)
    ensures ByteKnown(known, o) <==> Supplied(known, o)
  {
    hide Around;
    if ByteKnown(known, o) {
      var w: nat :| IsWidth(w) && Around(o, w) in known;
      AroundByte(o, w);
      assert Around(o, w).size == w;
    }
    if c :| c in known && c.Covers(o) && IsWidth(c.size) && c.offset % c.size == 0 {
      AroundCovering(c, o);
    }
  }

  lemma {:induction false} AroundCovering(c: Cell, o: nat)
    requires c.size > 0 && c.offset % c.size == 0 && c.Covers(o)
    ensures Around(o, c.size) == c
  {
    var w, q := c.size, c.offset / c.size;
    assert c.offset == q * w;
    UniqueRemainder(o, w, q, o - c.offset);
  }

  /** Byte `i` from `o` on; addresses wrap around after 64 bits. */
  function ByteAt(o: nat, i: nat): nat {
    (o + i) % TWO_TO_64
  }

  ghost predicate AllKnown(known: map<Cell, int>, o: nat, size: nat) {
    forall i: nat :: i < size ==> ByteKnown(known, ByteAt(o, i))
  }

  /** Before any byte is missing one comes from a constant that is too large. */
  ghost predicate Overflows(known: map<Cell, int>, o: nat, size: nat) {
    exists i: nat :: i < size && ByteOverflows(known, ByteAt(o, i)) && AllKnown(known, o, i)
  }

  /** The byte at `o` from the widest aligned constant cell around it. */
  method GetByte(known: map<Cell, int>, o: nat, big: bool, ghost mem: nat -> nat) returns (b: Byte)
    ensures b.Absent? <==> !ByteKnown(known, o)
    ensures b.TooLarge? <==> ByteOverflows(known, o)
    ensures b.Present? ==> b.value < 256
    ensures b.Present? && Agrees(known, mem, big) ==> b.value == mem(o)
  {
    hide Agrees, FitsIndex;
    if Agrees(known, mem, big) {
      ValueByteIsMemory(known, o, 8, big, mem);
      ValueByteIsMemory(known, o, 4, big, mem);
      ValueByteIsMemory(known, o, 2, big, mem);
      ValueByteIsMemory(known, o, 1, big, mem);
    }
    hide ValueByte;
    b := ValueByte(known, o, 8, big);
    if b.Absent? {
      b := ValueByte(known, o, 4, big);
      if b.Absent? {
        b := ValueByte(known, o, 2, big);
        if b.Absent? {
          b := ValueByte(known, o, 1, big);
        }
      }
    }
  }

  /** Copies the bytes from `o` on into `buffer`, if all of them are known and none is taken from a constant
      that is too large. */
  method CopyBytes(known: map<Cell, int>, o: nat, size: nat, big: bool, buffer: array<nat>, ghost mem: nat -> nat)
    returns (ok: bool, found: bool)
    requires size <= buffer.Length
    modifies buffer
    ensures !ok <==> Overflows(known, o, size)
    ensures ok ==> (found <==> AllKnown(known, o, size))
    ensures ok && found ==> forall i :: 0 <= i < size ==> buffer[i] < 256
    ensures ok && found && Agrees(known, mem, big) ==> forall i :: 0 <= i < size ==> buffer[i] == mem(ByteAt(o, i))
  {
    hide ByteKnown, ByteOverflows, Agrees, ByteAt;
    var index := 0;
    while index < size
      invariant 0 <= index <= size
      invariant AllKnown(known, o, index)
      invariant forall i: nat :: i < index ==> !ByteOverflows(known, ByteAt(o, i))
      invariant forall i :: 0 <= i < index ==> buffer[i] < 256
      invariant Agrees(known, mem, big) ==> forall i :: 0 <= i < index ==> buffer[i] == mem(ByteAt(o, i))
    {
      var b := GetByte(known, ByteAt(o, index), big, mem);
      if b.TooLarge? {
        return false, false;
      }
      if b.Absent? {
        return true, false;
      }
      buffer[index] := b.value;
      index := index + 1;
    }
    return true, true;
  }

  // ----- loads -----

  datatype DataKind = SValues | UValues | Other

  datatype LoadResult = Thrown | Unknown | Scalar(cell: Cell) | Number(value: int)

  function ToSigned(n: nat): int {
    if n < Pow256(8) / 2 then n else n - Pow256(8)
  }

  /** What the bytes in memory mean for a load: eight bytes are signed for signed values. */
  function Meaning(kind: DataKind, bs: seq<nat>, big: bool): int {
    var n := ReadBytes(bs, big);
    if |bs| == 8 && kind == SValues then ToSigned(n) else n
  }

  function MemoryBytes(mem: nat -> nat, o: nat, size: nat): (bs: seq<nat>)
    ensures |bs| == size && forall i :: 0 <= i < size ==> bs[i] == mem(ByteAt(o, i))
  {
    seq<nat>(size, i requires 0 <= i < size => mem(ByteAt(o, i)))
  }

  /** What was stored is what a load of the same width means: eight bytes give back any signed value,
      fewer any unsigned one. */
  lemma {:induction false} StoredMeaning(v: int, w: nat, big: bool, kind: DataKind)
    requires if w == 8 && kind == SValues then -(Pow256(8) / 2) <= v < Pow256(8) / 2 else 0 <= v < Pow256(w)
    ensures Meaning(kind, StoredBytes(v, w, big), big) == v
  {
    hide LittleBytes, LittleValue, Reversed;
    StoreThenRead(v, w, big);
    hide StoredBytes, ReadBytes;
    var m := Pow256(w);
    if v >= 0 {
      UniqueRemainder(v, m, 0, v);
    } else {
      NegativeRemainder(v, m);
      HalfOfPower();
    }
  }

  lemma {:induction false} NegativeRemainder(v: int, m: nat)
    requires v < 0 <= v + m
    ensures v % m == v + m
  {
    UniqueRemainder(v, m, -1, v + m);
  }

  lemma {:induction false} HalfOfPower()
    ensures Pow256(8) / 2 * 2 == Pow256(8)
  {
    assert Pow256(8) == 256 * Pow256(7);
  }

  /** The number that the host builds from the buffer. */
  function FromBuffer(kind: DataKind, bs: seq<nat>, big: bool): int {
    var n := Converted(LittleValue(bs), |bs|, big);
    if |bs| == 8 && kind == SValues then ToSigned(n) else n
  }

  lemma {:induction false} FromBufferIsMeaning(kind: DataKind, bs: seq<nat>, big: bool)
    requires AreBytes(bs)
    ensures FromBuffer(kind, bs, big) == Meaning(kind, bs, big)
  {
    ConvertedIsRead(bs, big);
  }

  lemma {:induction false} BufferFits(kind: DataKind, bs: seq<nat>, big: bool)
    requires AreBytes(bs) && |bs| <= 8
    ensures FitsIndex(FromBuffer(kind, bs, big))
  {
    hide LittleValue, Reversed, LittleBytes, Converted, Pow256;
    ConvertedIsRead(bs, big);
    BytesOfValue(if big then Reversed(bs) else bs);
    HalfOfPower();
    PowMonotone(|bs|);
  }

  lemma {:induction false} PowMonotone(w: nat)
    requires w <= 8
    ensures Pow256(w) <= Pow256(8) == TWO_TO_64
  {
  }

  /** The key under which the index keeps an offset: negative offsets become large numbers. */
  function Key(offset: int): nat {
    offset % TWO_TO_64
  }

  predicate FitsInt64(n: int) {
    -TWO_TO_64 <= 2 * n < TWO_TO_64
  }

  /** What a load of `width` bytes at `offset` yields. */
  ghost predicate Loaded(
    m: Content, known: map<Cell, int>, kind: DataKind, offset: int, width: nat, big: bool, mem: nat -> nat,
    m': Content, r: LoadResult)
  {
    if !FitsInt64(offset) then r == Thrown
    else
      var c := Cell(Key(offset), width);
      if Holds(m, c) then r == Scalar(c) && m' == Touched(m, c.offset)
      else if kind != Other && Overflows(known, c.offset, width) then r == Thrown
      else if kind != Other && IsWidth(width) && AllKnown(known, c.offset, width) then
        && r.Number? && FitsIndex(r.value) && m' == Touched(m, c.offset)
        && (Agrees(known, mem, big) ==> r.value == Meaning(kind, MemoryBytes(mem, c.offset, width), big))
      else if Refuses(m, c.offset, width) then r == Thrown
      else if exists x :: Reported(m, c.offset, width, x) then r == Unknown && m' == Touched(m, c.offset)
      else r == Scalar(c) && m' == WithCell(m, c)
  }

  /** Loads `width` bytes.  A cell of exactly that place is used as it is; otherwise a number is rebuilt
      if every byte is known, and otherwise a cell is made unless another one is in the way. */
  method Load(cells: OffsetMap, known: map<Cell, int>, kind: DataKind, index: Interval, width: nat, big: bool,
              ghost mem: nat -> nat)
    returns (r: LoadResult)
    requires cells.Valid() && width <= 8 && forall o :: mem(o) < 256
    modifies cells
    ensures cells.Valid()
    ensures !Singleton(index) ==> r.Unknown? && cells.M() == old(cells.M())
    ensures Singleton(index) ==> Loaded(old(cells.M()), known, kind, index.lo.value, width, big, mem, cells.M(), r)
  {
    hide AllKnown, Overflows, Agrees, Reported, Refuses, Meaning, FromBuffer, ContentOf, Sorted, Key, FitsIndex;
    if !Singleton(index) {
      return Unknown;
    }
    if !FitsInt64(index.lo.value) {
      return Thrown;
    }
    var o: nat := Key(index.lo.value);
    ghost var before := cells.M();
    var exact := cells.GetCell(o, width);
    if exact {
      return Scalar(Cell(o, width));
    }
    if kind != Other {
      var buffer := new nat[8];
      var ok, found := CopyBytes(known, o, width, big, buffer, mem);
      if !ok {
        return Thrown;
      }
      if found && (width == 1 || width == 2 || width == 4 || width == 8) {
        r := Number(FromBuffer(kind, buffer[..width], big));
        BufferFits(kind, buffer[..width], big);
        if Agrees(known, mem, big) {
          assert buffer[..width] == MemoryBytes(mem, o, width);
          FromBufferIsMeaning(kind, buffer[..width], big);
        }
        return;
      }
    }
    TouchedReports(before, o, width);
    var ok, others := cells.GetOverlapCells(o, width);
    if !ok {
      return Thrown;
    }
    if others == [] {
      var c := cells.MakeCell(o, width);
      TouchedCell(before, c);
      return Scalar(c);
    }
    assert others[0] in others;
    return Unknown;
  }

  lemma {:induction false} TouchedCell(m: Content, c: Cell)
    ensures WithCell(Touched(m, c.offset), c) == WithCell(m, c)
            && Touched(Touched(m, c.offset), c.offset) == Touched(m, c.offset)
  {
  }

  lemma {:induction false} TouchedReports(m: Content, o: nat, n: nat)
    ensures forall x :: Reported(Touched(m, o), o, n, x) <==> Reported(m, o, n, x)
    ensures Refuses(Touched(m, o), o, n) <==> Refuses(m, o, n)
  {
    var m' := Touched(m, o);
    forall k ensures Visible(m', k, o, n) <==> Visible(m, k, o, n) {
      forall l | l != o ensures Meets(m', l, o, n) <==> Meets(m, l, o, n) {
      }
    }
    hide Visible;
    forall x ensures Reported(m', o, n, x) <==> Reported(m, o, n, x) {
    }
  }

  // ----- what this comes to -----

  /** Offsets below zero have the largest keys, and addresses wrap around there. */
  lemma {:induction false} KeysWrap(offset: int, i: nat)
    requires -TWO_TO_64 <= offset < TWO_TO_64 && i < TWO_TO_64
    ensures Key(offset) == if offset < 0 then offset + TWO_TO_64 else offset
    ensures offset >= 0 ==> ByteAt(offset, i) == if offset + i < TWO_TO_64 then offset + i else offset + i - TWO_TO_64
  {
    UniqueRemainder(offset, TWO_TO_64, if offset < 0 then -1 else 0, if offset < 0 then offset + TWO_TO_64 else offset);
    if offset >= 0 {
      var wraps := offset + i >= TWO_TO_64;
      UniqueRemainder(offset + i, TWO_TO_64, if wraps then 1 else 0,
                      if wraps then offset + i - TWO_TO_64 else offset + i);
    }
  }

  /** A load of one, two, four or eight bytes of numbers that have no cell of their own yields a number exactly
      if constant cells supply every byte, provided that constants fit 64 bits. */
  lemma {:induction false} LoadRebuilds(
    m: Content, known: map<Cell, int>, kind: DataKind, offset: nat, width: nat, big: bool, mem: nat -> nat,
    m': Content, r: LoadResult)
    requires Loaded(m, known, kind, offset, width, big, mem, m', r) && kind != Other && !Holds(m, Cell(offset, width))
    requires 2 * (offset + width) < TWO_TO_64 && forall c :: c in known ==> -TWO_TO_64 <= 2 * known[c] < 2 * TWO_TO_64
    ensures (width == 1 || width == 2 || width == 4 || width == 8) ==>
              (r.Number? <==> forall b: nat :: offset <= b < offset + width ==> Supplied(known, b))
  {
    hide Meaning, MemoryBytes, Refuses, Reported, Agrees, ByteKnown, Supplied, Key;
    KeysWrap(offset, 0);
    assert !Overflows(known, offset, width);
    hide ByteOverflows, Overflows;
    AllSupplied(known, offset, width);
  }

  lemma {:induction false} AllSupplied(known: map<Cell, int>, o: nat, n: nat)
    requires o + n < TWO_TO_64
    ensures AllKnown(known, o, n) <==> forall b: nat :: o <= b < o + n ==> Supplied(known, b)
  {
    hide ByteKnown, Supplied, ByteAt;
    if AllKnown(known, o, n) {
      forall b: nat | o <= b < o + n ensures Supplied(known, b) {
        var i := b - o;
        KeysWrap(o, i);
        assert ByteKnown(known, ByteAt(o, i));
        SuppliedIsKnown(known, b);
      }
    }
    if forall b: nat :: o <= b < o + n ==> Supplied(known, b) {
      forall i: nat | i < n ensures ByteKnown(known, ByteAt(o, i)) {
        KeysWrap(o, i);
        SuppliedIsKnown(known, o + i);
      }
    }
  }

  /** A load of numbers that have no cell of their own throws if the widest constant around its first byte does
      not fit 64 bits. */
  lemma {:induction false} LoadThrows(
    m: Content, known: map<Cell, int>, kind: DataKind, offset: nat, width: nat, big: bool, mem: nat -> nat,
    m': Content, r: LoadResult, c: Cell)
    requires Loaded(m, known, kind, offset, width, big, mem, m', r) && kind != Other && !Holds(m, Cell(offset, width))
    requires 2 * offset < TWO_TO_64 && width > 0
    requires c in known && c.Covers(offset) && (c.size == 1 || c.size == 2 || c.size == 4 || c.size == 8)
             && c.offset % c.size == 0
    requires forall d :: d in known && d.Covers(offset) ==> d.size <= c.size
    requires known[c] >= TWO_TO_64 || 2 * known[c] < -TWO_TO_64
    ensures r.Thrown?
  {
    hide Meaning, MemoryBytes, Refuses, Reported, Agrees, ByteKnown, Key;
    KeysWrap(offset, 0);
    AroundCovering(c, offset);
    forall w: nat | IsWidth(w) && w > c.size ensures Around(offset, w) !in known {
      AroundByte(offset, w);
    }
    assert ByteOverflows(known, ByteAt(offset, 0));
    assert AllKnown(known, offset, 0);
  }

  /** A load at a constant offset that does not fit a signed 64-bit integer throws. */
  lemma {:induction false} LoadOutside(
    m: Content, known: map<Cell, int>, kind: DataKind, offset: int, width: nat, big: bool, mem: nat -> nat,
    m': Content, r: LoadResult)
    requires Loaded(m, known, kind, offset, width, big, mem, m', r)
    requires offset < -0x8000_0000_0000_0000 || offset >= 0x8000_0000_0000_0000
    ensures r.Thrown?
  {
  }
}
