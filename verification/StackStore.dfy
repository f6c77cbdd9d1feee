/** Storing a constant on the stack: cells that the store cuts are split, cells under it are removed
    (src/crab/array_domain.cpp:434-531, src/crab/array_domain.cpp:740-760).

    `known` holds the cells whose signed value is a single number. */
module StackStore {
  import opened Intervals
  import opened MachineIntegers
  import opened WtoTree
  import opened Cells
  import opened StackBytes
  import Remainders

  predicate Aligned(c: Cell) {
    IsWidth(c.size) && c.offset % c.size == 0
  }

  /** The bytes of cell `c` are those of the number `x`. */
  ghost predicate HoldsIn(mem: nat -> nat, c: Cell, x: int, big: bool) {
    forall j :: 0 <= j < c.size ==> mem(c.offset + j) == StoredBytes(x, c.size, big)[j]
  }

  /** Memory after `v` has been stored in `n` bytes at `o`. */
  ghost function Written(mem: nat -> nat, o: nat, v: int, n: nat, big: bool): nat -> nat {
    (b: nat) => if o <= b < o + n then StoredBytes(v, n, big)[b - o] else mem(b)
  }

  lemma {:induction false} AgreesCell(known: map<Cell, int>, mem: nat -> nat, big: bool)
    ensures Agrees(known, mem, big) <==> forall c :: c in known && Aligned(c) ==> HoldsIn(mem, c, known[c], big)
  {
    if forall c :: c in known && Aligned(c) ==> HoldsIn(mem, c, known[c], big) {
      forall c, j | c in known && IsWidth(c.size) && c.offset % c.size == 0 && 0 <= j < c.size
        ensures mem(c.offset + j) == StoredBytes(known[c], c.size, big)[j]
      {
        assert Aligned(c);
      }
    }
  }

  // ----- what a store makes of the constants -----

  /** A constant that is there after the store, other than the stored one: it was there before, or was cut
      from a cell and lies outside. */
  ghost predicate Survives(
    m: Content, known: map<Cell, int>, mem: nat -> nat, o: nat, n: nat, big: bool, c: Cell, x: int) {
    && !Reported(m, o, n, c)
    && ((c in known && x == known[c]) || (!c.Overlaps(o, n) && (Aligned(c) ==> HoldsIn(mem, c, x, big))))
  }

  /** The constants after `v` has been stored: cells under the store that the search reports are gone. */
  ghost predicate Stored(
    m: Content, known: map<Cell, int>, mem: nat -> nat, o: nat, n: nat, v: int, big: bool, known': map<Cell, int>) {
    && Cell(o, n) in known' && known'[Cell(o, n)] == v
    && (forall c :: c in known' && c != Cell(o, n) ==> Survives(m, known, mem, o, n, big, c, known'[c]))
    && (forall c :: c in known && c != Cell(o, n) && c.Overlaps(o, n) && !Reported(m, o, n, c) ==>
                      c in known' && known'[c] == known[c])
  }

  /** The search reports every constant cell under the store whose bytes a load may use. */
  ghost predicate NothingMissed(m: Content, known: map<Cell, int>, o: nat, n: nat) {
    forall c :: c in known && Aligned(c) && c != Cell(o, n) && c.Overlaps(o, n) ==> Reported(m, o, n, c)
  }

  lemma {:induction false} WrittenOutside(mem: nat -> nat, o: nat, v: int, n: nat, big: bool, c: Cell, x: int)
    requires !c.Overlaps(o, n) && HoldsIn(mem, c, x, big)
    ensures HoldsIn(Written(mem, o, v, n, big), c, x, big)
  {
  }

  lemma {:induction false} StoreKeeps(
    m: Content, known: map<Cell, int>, mem: nat -> nat, o: nat, n: nat, v: int, big: bool, known': map<Cell, int>)
    requires Agrees(known, mem, big) && NothingMissed(m, known, o, n) && Stored(m, known, mem, o, n, v, big, known')
    ensures Agrees(known', Written(mem, o, v, n, big), big)
  {
    hide Agrees, Reported, StoredBytes, HoldsIn, Written;
    AgreesCell(known, mem, big);
    var mem' := Written(mem, o, v, n, big);
    forall c | c in known' && Aligned(c) ensures HoldsIn(mem', c, known'[c], big) {
      if c == Cell(o, n) {
        WrittenInside(mem, o, v, n, big);
      } else {
        assert Survives(m, known, mem, o, n, big, c, known'[c]);
        WrittenOutside(mem, o, v, n, big, c, known'[c]);
      }
    }
    AgreesCell(known', mem', big);
  }

  lemma {:induction false} WrittenInside(mem: nat -> nat, o: nat, v: int, n: nat, big: bool)
    ensures HoldsIn(Written(mem, o, v, n, big), Cell(o, n), v, big)
  {
  }

  /** A missed cell keeps its number, whatever else becomes of the constants, and some store contradicts it. */
  lemma {:induction false} StoreBreaks(
    m: Content, known: map<Cell, int>, mem: nat -> nat, o: nat, n: nat, big: bool, c: Cell)
    returns (v: int)
    requires c in known && Aligned(c) && c != Cell(o, n) && c.Overlaps(o, n) && !Reported(m, o, n, c)
    ensures forall known' :: Stored(m, known, mem, o, n, v, big, known') ==>
                               !Agrees(known', Written(mem, o, v, n, big), big)
  {
    hide Reported, StoredBytes, ReadBytes;
    var b := if c.offset < o then o else c.offset;
    var before := StoredBytes(known[c], c.size, big)[b - c.offset];
    var bs: seq<nat> := seq<nat>(n, i => (before + 1) % 256);
    v := ReadBytes(bs, big);
    ReadThenStore(bs, big);
    assert StoredBytes(v, n, big) == bs;
    assert before < 256 by {
      StoredAreBytes(known[c], c.size, big);
    }
    var mem' := Written(mem, o, v, n, big);
    assert mem'(b) == bs[b - o];
    forall known' | Stored(m, known, mem, o, n, v, big, known') ensures !Agrees(known', mem', big) {
      assert mem'(c.offset + (b - c.offset)) != StoredBytes(known'[c], c.size, big)[b - c.offset];
    }
  }

  /** Some constants can always be there after a store. */
  lemma {:induction false} SomethingStored(
    m: Content, known: map<Cell, int>, mem: nat -> nat, o: nat, n: nat, v: int, big: bool)
    ensures exists known' :: Stored(m, known, mem, o, n, v, big, known')
  {
    hide Reported;
    var known' := (map x | x in known && x.Overlaps(o, n) && !Reported(m, o, n, x) :: known[x])[Cell(o, n) := v];
    assert Stored(m, known, mem, o, n, v, big, known');
  }

  lemma {:induction false} StoredAreBytes(v: int, w: nat, big: bool)
    ensures AreBytes(StoredBytes(v, w, big))
  {
  }

  /** Loads stay right after every store at a place exactly if the search for that place misses no constant
      that loads use.  If it misses one, some number cannot be stored there without loads going wrong. */
  lemma {:induction false} StoreKeepsIff(m: Content, known: map<Cell, int>, mem: nat -> nat, o: nat, n: nat, big: bool)
    requires Agrees(known, mem, big)
    ensures NothingMissed(m, known, o, n) <==>
            forall v, known' :: Stored(m, known, mem, o, n, v, big, known') ==>
                                  Agrees(known', Written(mem, o, v, n, big), big)
    ensures !NothingMissed(m, known, o, n) ==>
              exists v :: forall known' :: Stored(m, known, mem, o, n, v, big, known') ==>
                                             !Agrees(known', Written(mem, o, v, n, big), big)
  {
    hide Agrees, Stored, Reported, Written;
    if NothingMissed(m, known, o, n) {
      forall v, known' | Stored(m, known, mem, o, n, v, big, known')
        ensures Agrees(known', Written(mem, o, v, n, big), big) {
        StoreKeeps(m, known, mem, o, n, v, big, known');
      }
    } else {
      var c :| c in known && Aligned(c) && c != Cell(o, n) && c.Overlaps(o, n) && !Reported(m, o, n, c);
      var v := StoreBreaks(m, known, mem, o, n, big, c);
      SomethingStored(m, known, mem, o, n, v, big);
    }
  }

  /** If the index knows all constant cells and nothing obstructs the search, none is missed. */
  lemma {:induction false} UnobstructedMissesNothing(m: Content, known: map<Cell, int>, o: nat, n: nat)
    requires NonEmptyCells(m) && n > 0 && Unobstructed(m, o, n) && forall c :: c in known ==> Holds(m, c)
    ensures NothingMissed(m, known, o, n)
  {
    CompleteIffUnobstructed(m, o, n);
  }

  // ----- what splitting leaves for the search -----

  /** `m'` has more cells than `m`, none of them under the store, and new groups only above it or at `o`. */
  ghost predicate Grows(m: Content, m': Content, o: nat, n: nat) {
    && (forall k :: k in m ==> k in m' && m[k] <= m'[k])
    && (forall k :: k in m' && k !in m ==> k == o || k >= o + n)
    && (forall c :: Holds(m', c) && !Holds(m, c) ==> !c.Overlaps(o, n))
  }

  lemma {:induction false} GrowsMeets(m: Content, m': Content, o: nat, n: nat, k: nat)
    requires Grows(m, m', o, n)
    ensures Meets(m', k, o, n) <==> Meets(m, k, o, n)
  {
    if Meets(m', k, o, n) {
      var w :| w in m'[k] && Cell(k, w).Overlaps(o, n);
      assert Holds(m', Cell(k, w));
      assert Holds(m, Cell(k, w));
    }
    if Meets(m, k, o, n) {
      var w :| w in m[k] && Cell(k, w).Overlaps(o, n);
      assert w in m'[k];
    }
  }

  lemma {:induction false} GrowsVisible(m: Content, m': Content, o: nat, n: nat, k: nat)
    requires Grows(m, m', o, n) && k < o + n
    ensures Visible(m', k, o, n) <==> Visible(m, k, o, n)
  {
    hide Meets;
    forall l ensures Meets(m', l, o, n) <==> Meets(m, l, o, n) {
      GrowsMeets(m, m', o, n, l);
    }
  }

  lemma {:induction false} GrowsReports(m: Content, m': Content, o: nat, n: nat, c: Cell)
    requires Grows(m, m', o, n)
    ensures Reported(m', o, n, c) <==> Reported(m, o, n, c)
  {
    hide Visible;
    if c.Overlaps(o, n) {
      GrowsVisible(m, m', o, n, c.offset);
    }
  }

  lemma {:induction false} GrowsByPart(m: Content, m': Content, o: nat, n: nat, part: Cell)
    requires Grows(m, m', o, n) && !part.Overlaps(o, n) && (part.offset in m' || part.offset >= o + n)
    ensures Grows(m, WithCell(m', part), o, n)
  {
  }

  lemma {:induction false} GrowsByTouch(m: Content, o: nat, n: nat)
    ensures Grows(m, Touched(m, o), o, n)
  {
  }

  // ----- splitting -----

  /** What the search reports of a store's place and what the splitting cuts: cells of eight bytes that are
      constant and numeric.  `allNum` tells which cells hold nothing but numbers. */
  ghost predicate IsCut(m: Content, known: map<Cell, int>, allNum: Cell -> bool, o: nat, n: nat, c: Cell) {
    Reported(m, o, n, c) && allNum(c) && c.size >= 8 && c in known
  }

  /** `p` is what is left of `c` before or after the place. */
  predicate PartOf(c: Cell, o: nat, n: nat, p: Cell) {
    || (c.offset < o && p == Cell(c.offset, o - c.offset))
    || (o + n < c.offset + c.size && p == Cell(o + n, c.offset + c.size - (o + n)))
  }

  ghost predicate IsPart(m: Content, known: map<Cell, int>, allNum: Cell -> bool, o: nat, n: nat, p: Cell) {
    exists c :: IsCut(m, known, allNum, o, n, c) && PartOf(c, o, n, p)
  }

  /** The cells after splitting: those before, and every part. */
  ghost predicate SplitIndex(
    m: Content, known: map<Cell, int>, allNum: Cell -> bool, o: nat, n: nat, m': Content) {
    forall x :: Holds(m', x) <==> Holds(m, x) || IsPart(m, known, allNum, o, n, x)
  }

  /** The constants after splitting: a cell that is no part keeps its constant, and so does a part that had a
      cell before.  A new part of an aligned cell is constant if it is as wide as some load. */
  ghost predicate SplitConstants(
    m: Content, known: map<Cell, int>, allNum: Cell -> bool, o: nat, n: nat, known': map<Cell, int>) {
    && (forall x :: !IsPart(m, known, allNum, o, n, x) || Holds(m, x) ==> SameAt(known, known', x))
    && (forall c, p {:trigger IsCut(m, known, allNum, o, n, c), NewWord(m, c, o, n, p)} ::
          IsCut(m, known, allNum, o, n, c) && NewWord(m, c, o, n, p) ==> p in known')
  }

  /** A part that had no cell before, as wide as some load, of an aligned cell. */
  ghost predicate NewWord(m: Content, c: Cell, o: nat, n: nat, p: Cell) {
    PartOf(c, o, n, p) && !Holds(m, p) && Aligned(c) && IsWidth(p.size)
  }

  ghost predicate SameAt(known: map<Cell, int>, known': map<Cell, int>, x: Cell) {
    (x in known' <==> x in known) && (x in known ==> known'[x] == known[x])
  }

  /** Every constant can be cast to 64 bits. */
  ghost predicate KnownFits(known: map<Cell, int>) {
    forall c :: c in known ==> FitsIndex(known[c])
  }

  /** What a store at a place needs in any case. */
  ghost predicate PlaceFits(m: Content, o: nat, n: nat) {
    n <= UINT32_MAX && !Refuses(m, o, n) && forall c :: Reported(m, o, n, c) ==> c.offset + c.size - 1 <= INT32_MAX
  }

  /** The index while splitting is under way: the parts in `made` have been made. */
  ghost predicate Making(m: Content, known: map<Cell, int>, allNum: Cell -> bool, o: nat, n: nat, made: set<Cell>,
                         m': Content)
  {
    && Grows(m, m', o, n)
    && (forall x :: Holds(m', x) <==> Holds(m, x) || x in made)
    && (forall p :: p in made ==> IsPart(m, known, allNum, o, n, p) && p.offset <= INT32_MAX)
  }

  /** The constants meanwhile. */
  ghost predicate Assigning(m: Content, known: map<Cell, int>, allNum: Cell -> bool, o: nat, n: nat, made: set<Cell>,
                            known': map<Cell, int>)
  {
    && (forall x :: x !in made || Holds(m, x) ==> SameAt(known, known', x))
    && (forall c, p {:trigger IsCut(m, known, allNum, o, n, c), NewWord(m, c, o, n, p)} ::
          p in made && IsCut(m, known, allNum, o, n, c) && NewWord(m, c, o, n, p) ==> p in known')
    && (forall c :: c in known' ==> c.size <= 8)
    && (KnownFits(known) ==> KnownFits(known'))
  }

  /** `known'` differs from `known` outside the place of the store only, and what is new there agrees with
      memory. */
  ghost predicate Cut(known: map<Cell, int>, mem: nat -> nat, o: nat, n: nat, big: bool, known': map<Cell, int>) {
    && (forall c :: c in known' ==> (c in known && known'[c] == known[c])
                                    || (!c.Overlaps(o, n) && (Aligned(c) ==> HoldsIn(mem, c, known'[c], big))))
    && (forall c :: c in known && c.Overlaps(o, n) ==> c in known' && known'[c] == known[c])
  }

  lemma {:induction false} CutAgrees(
    known: map<Cell, int>, mem: nat -> nat, o: nat, n: nat, big: bool, known': map<Cell, int>)
    requires Agrees(known, mem, big) && Cut(known, mem, o, n, big, known')
    ensures Agrees(known', mem, big)
  {
    hide Agrees, HoldsIn;
    AgreesCell(known, mem, big);
    AgreesCell(known', mem, big);
  }

  lemma {:induction false} CutMore(
    known: map<Cell, int>, mem: nat -> nat, o: nat, n: nat, big: bool, before: map<Cell, int>, after: map<Cell, int>,
    part: Cell)
    requires Cut(known, mem, o, n, big, before) && !part.Overlaps(o, n)
    requires forall x :: x != part ==> SameAt(before, after, x)
    requires part in after ==> (part in before && after[part] == before[part])
                               || HoldsIn(mem, part, after[part], big)
    ensures Cut(known, mem, o, n, big, after)
  {
    hide HoldsIn, Aligned;
    forall x | x != part ensures SameAt(before, after, x) {
    }
    forall x | x in after && x != part ensures x in before && after[x] == before[x] {
      assert SameAt(before, after, x);
    }
    forall x | x in before && x != part ensures x in after && after[x] == before[x] {
      assert SameAt(before, after, x);
    }
  }

  /** The number that a load rebuilds is held by the bytes it was built from. */
  lemma {:induction false} RebuiltHolds(mem: nat -> nat, c: Cell, x: int, big: bool)
    requires (forall o :: mem(o) < 256) && c.offset + c.size <= TWO_TO_64
    requires x == Meaning(SValues, MemoryBytes(mem, c.offset, c.size), big)
    ensures HoldsIn(mem, c, x, big)
  {
    hide StoredBytes, Meaning, ByteAt;
    var bs := MemoryBytes(mem, c.offset, c.size);
    MeaningStores(bs, big);
    hide StoredBytes, Meaning, MemoryBytes, ByteAt;
    forall j | 0 <= j < c.size ensures mem(c.offset + j) == StoredBytes(x, c.size, big)[j] {
      NoWrap(c.offset, j);
    }
  }

  lemma {:induction false} NoWrap(o: nat, i: nat)
    requires o + i < TWO_TO_64
    ensures ByteAt(o, i) == o + i
  {
    Remainders.UniqueRemainder(o + i, TWO_TO_64, 0, o + i);
  }

  lemma {:induction false} MeaningStores(bs: seq<nat>, big: bool)
    requires AreBytes(bs)
    ensures StoredBytes(Meaning(SValues, bs, big), |bs|, big) == bs
  {
    hide LittleBytes, LittleValue, Reversed;
    ReadThenStore(bs, big);
    var n: int := ReadBytes(bs, big);
    if Meaning(SValues, bs, big) != n {
      var m: int := Pow256(8);
      assert Meaning(SValues, bs, big) == n - m && |bs| == 8;
      Wraps(n, m);
    }
  }

  lemma {:induction false} Wraps(n: int, m: int)
    requires m > 0
    ensures (n - m) % m == n % m
  {
    var q, r := n / m, n % m;
    assert n - m == (q - 1) * m + r;
    Remainders.UniqueRemainder(n - m, m, q - 1, r);
  }

  /** Makes a cell of `len` bytes at `start`, holding what a load there yields: a cell that is there already
      keeps its value, and a new one gets the number that its bytes make, if they are all known. */
  method SplitCell(cells: OffsetMap, known: map<Cell, int>, start: nat, len: nat, big: bool, ghost mem: nat -> nat)
    returns (ok: bool, known': map<Cell, int>)
    requires cells.Valid() && len <= 8 && start + len - 1 <= INT32_MAX && forall a :: mem(a) < 256
    modifies cells
    ensures cells.Valid()
    ensures !ok ==> Overflows(known, start, len) || Refuses(old(cells.M()), start, len)
    ensures ok ==> cells.M() == WithCell(old(cells.M()), Cell(start, len))
    ensures ok ==> forall x :: x != Cell(start, len) || Holds(old(cells.M()), x) ==> SameAt(known, known', x)
    ensures ok && !Holds(old(cells.M()), Cell(start, len)) && IsWidth(len) && AllKnown(known, start, len) ==>
              Cell(start, len) in known'
    ensures ok && Cell(start, len) in known' ==>
              var c := Cell(start, len);
              || (c in known && known'[c] == known[c])
              || (FitsIndex(known'[c]) && (Agrees(known, mem, big) ==> HoldsIn(mem, c, known'[c], big)))
  {
    hide Agrees, ContentOf, Sorted, HoldsIn, Meaning, MemoryBytes, Refuses, Reported, AllKnown, Overflows, FitsIndex;
    var c := Cell(start, len);
    ghost var m := cells.M();
    var r := Load(cells, known, SValues, Interval(At(start), At(start)), len, big, mem);
    LoadedAt(m, known, start, len, big, mem, cells.M(), r);
    known' := known;
    if r.Thrown? {
      return false, known;
    }
    var made := cells.MakeCell(start, len);
    ok := true;
    match r
    case Number(x) =>
      known' := known[c := x];
      if Agrees(known, mem, big) {
        RebuiltHolds(mem, c, x, big);
      }
    case Unknown =>
      known' := known - {c};
    case _ =>
  }

  /** A load at a place that fits 32 bits. */
  lemma {:induction false} LoadedAt(
    m: Content, known: map<Cell, int>, start: nat, len: nat, big: bool, mem: nat -> nat, m': Content, r: LoadResult)
    requires Loaded(m, known, SValues, start, len, big, mem, m', r) && start + len - 1 <= INT32_MAX
    ensures r.Thrown? ==> !Holds(m, Cell(start, len)) && (Overflows(known, start, len) || Refuses(m, start, len))
    ensures !r.Thrown? ==> WithCell(m', Cell(start, len)) == WithCell(m, Cell(start, len))
    ensures Holds(m, Cell(start, len)) ==> r == Scalar(Cell(start, len))
    ensures !r.Thrown? && !Holds(m, Cell(start, len)) && IsWidth(len) && AllKnown(known, start, len) ==> r.Number?
    ensures r.Number? ==> FitsIndex(r.value)
    ensures r.Number? && Agrees(known, mem, big) ==> r.value == Meaning(SValues, MemoryBytes(mem, start, len), big)
  {
    hide Agrees, Meaning, MemoryBytes, Refuses, Reported, AllKnown, Overflows, FitsIndex;
    var c := Cell(start, len);
    SmallKey(start);
    hide Key;
    TouchedCell(m, c);
    assert WithCell(WithCell(m, c), c) == WithCell(m, c);
  }

  lemma {:induction false} SmallKey(start: nat)
    requires start <= INT32_MAX + 1
    ensures Key(start) == start && FitsInt64(start)
  {
  }

  // ----- making the parts -----

  lemma {:induction false} PartPlace(c: Cell, o: nat, n: nat, p: Cell)
    requires PartOf(c, o, n, p) && c.Overlaps(o, n)
    ensures !p.Overlaps(o, n) && 0 < p.size < c.size && (p.offset == c.offset || p.offset == o + n)
    ensures c.offset <= p.offset && p.offset + p.size <= c.offset + c.size
  {
  }

  lemma {:induction false} AroundInside(c: Cell, b: nat)
    requires c.size == 8 && c.offset % 8 == 0 && c.Covers(b)
    ensures Around(b, 8) == c
  {
    Remainders.UniqueRemainder(b, 8, c.offset / 8, b - c.offset);
  }

  /** All bytes of a part of an aligned constant cell are known. */
  lemma {:induction false} PartKnown(known: map<Cell, int>, c: Cell, o: nat, n: nat, p: Cell)
    requires c in known && Aligned(c) && c.size == 8 && c.Overlaps(o, n) && PartOf(c, o, n, p)
    requires p.offset + p.size - 1 <= INT32_MAX
    ensures AllKnown(known, p.offset, p.size)
  {
    PartPlace(c, o, n, p);
    forall i: nat | i < p.size ensures ByteKnown(known, ByteAt(p.offset, i)) {
      NoWrap(p.offset, i);
      AroundInside(c, p.offset + i);
    }
  }

  lemma {:induction false} NoOverflow(known: map<Cell, int>, o: nat, size: nat)
    requires KnownFits(known)
    ensures !Overflows(known, o, size)
  {
    hide FitsIndex, AllKnown, ByteAt;
  }

  /** A cell that is cut is under the store, so that it is no part and its constant stays meanwhile. */
  lemma {:induction false} CutCellStays(
    m: Content, known: map<Cell, int>, allNum: Cell -> bool, o: nat, n: nat, made: set<Cell>, m': Content,
    known': map<Cell, int>, c: Cell)
    requires Making(m, known, allNum, o, n, made, m') && Assigning(m, known, allNum, o, n, made, known')
    requires c.Overlaps(o, n)
    ensures SameAt(known, known', c)
  {
    hide Grows, KnownFits, Reported;
    if c in made {
      var d :| IsCut(m, known, allNum, o, n, d) && PartOf(d, o, n, c);
      PartPlace(d, o, n, c);
      assert false;
    }
  }

  /** One more part is in the index. */
  lemma {:induction false} PartMade(
    m: Content, known: map<Cell, int>, allNum: Cell -> bool, o: nat, n: nat, made: set<Cell>, m': Content, c: Cell,
    p: Cell)
    requires Making(m, known, allNum, o, n, made, m') && IsCut(m, known, allNum, o, n, c) && PartOf(c, o, n, p)
    requires p.offset <= INT32_MAX
    ensures Making(m, known, allNum, o, n, made + {p}, WithCell(m', p))
  {
    PartGrows(m, m', o, n, c, p);
    hide Grows, Reported;
    forall x ensures Holds(WithCell(m', p), x) <==> Holds(m, x) || x in made + {p} {
      assert Holds(WithCell(m', p), x) <==> Holds(m', x) || x == p;
    }
  }

  /** The constants after one more part. */
  lemma {:induction false} PartAssigned(
    m: Content, known: map<Cell, int>, allNum: Cell -> bool, o: nat, n: nat, made: set<Cell>, m': Content,
    current: map<Cell, int>, p: Cell, known': map<Cell, int>)
    requires Making(m, known, allNum, o, n, made, m') && Assigning(m, known, allNum, o, n, made, current)
    requires p.size <= 8 && p.offset + p.size - 1 <= INT32_MAX
    requires forall x :: x in known ==> x.size <= 8
    requires forall x :: x != p || Holds(m', x) ==> SameAt(current, known', x)
    requires !Holds(m', p) && IsWidth(p.size) && AllKnown(current, p.offset, p.size) ==> p in known'
    requires p in known' ==> (p in current && known'[p] == current[p]) || FitsIndex(known'[p])
    ensures Assigning(m, known, allNum, o, n, made + {p}, known')
  {
    hide Grows, Reported, FitsIndex, AllKnown, Aligned, KnownFits, PartOf;
    var more := made + {p};
    forall x | x !in more || Holds(m, x) ensures SameAt(known, known', x) {
      assert SameAt(known, current, x) && SameAt(current, known', x);
    }
    forall d, q | q in more && IsCut(m, known, allNum, o, n, d) && NewWord(m, d, o, n, q) ensures q in known' {
      NewPartKnown(m, known, allNum, o, n, made, m', current, p, known', d, q);
    }
    SizesAndRange(current, p, known');
  }

  lemma {:induction false} SizesAndRange(current: map<Cell, int>, p: Cell, known': map<Cell, int>)
    requires forall x :: x != p ==> SameAt(current, known', x)
    requires p.size <= 8 && forall c :: c in current ==> c.size <= 8
    requires p in known' ==> (p in current && known'[p] == current[p]) || FitsIndex(known'[p])
    ensures forall c :: c in known' ==> c.size <= 8
    ensures KnownFits(current) ==> KnownFits(known')
  {
    hide FitsIndex;
    forall c | c in known' && c != p ensures c in current && known'[c] == current[c] {
      assert SameAt(current, known', c);
    }
  }

  lemma {:induction false} NewPartKnown(
    m: Content, known: map<Cell, int>, allNum: Cell -> bool, o: nat, n: nat, made: set<Cell>, m': Content,
    current: map<Cell, int>, p: Cell, known': map<Cell, int>, d: Cell, q: Cell)
    requires Making(m, known, allNum, o, n, made, m') && Assigning(m, known, allNum, o, n, made, current)
    requires p.offset + p.size - 1 <= INT32_MAX && d.size <= 8
    requires forall x :: x != p || Holds(m', x) ==> SameAt(current, known', x)
    requires !Holds(m', p) && IsWidth(p.size) && AllKnown(current, p.offset, p.size) ==> p in known'
    requires (q in made || q == p) && IsCut(m, known, allNum, o, n, d) && NewWord(m, d, o, n, q)
    ensures q in known'
  {
    hide Grows, AllKnown, PartOf, KnownFits;
    if q in made {
      assert Holds(m', q) && SameAt(current, known', q);
    } else {
      CutCellStays(m, known, allNum, o, n, made, m', current, d);
      PartKnown(current, d, o, n, p);
    }
  }

  lemma {:induction false} PartGrows(m: Content, m': Content, o: nat, n: nat, c: Cell, p: Cell)
    requires Grows(m, m', o, n) && PartOf(c, o, n, p) && c.Overlaps(o, n) && c.offset in m
    ensures Grows(m, WithCell(m', p), o, n)
  {
    PartPlace(c, o, n, p);
    GrowsKeys(m, m', o, n);
    GrowsByPart(m, m', o, n, p);
  }

  lemma {:induction false} GrowsKeys(m: Content, m': Content, o: nat, n: nat)
    requires Grows(m, m', o, n)
    ensures m.Keys <= m'.Keys
  {
  }

  lemma {:induction false} MadeFit(
    m: Content, known: map<Cell, int>, allNum: Cell -> bool, o: nat, n: nat, made: set<Cell>, m': Content, start: nat,
    len: nat)
    requires Making(m, known, allNum, o, n, made, m') && AllFit(m) && start <= INT32_MAX
    ensures !Refuses(m', start, len)
  {
    hide Grows, Visible, IsPart;
    forall k | k in m' && m'[k] != {} ensures k <= INT32_MAX {
      var w :| w in m'[k];
      assert Holds(m', Cell(k, w));
    }
  }

  /** Makes one part of a cell that is cut. */
  method CutPart(cells: OffsetMap, ghost known: map<Cell, int>, current: map<Cell, int>, ghost allNum: Cell -> bool,
                 ghost o: nat, ghost n: nat, big: bool, ghost mem: nat -> nat, ghost m: Content,
                 ghost made: set<Cell>, ghost c: Cell, start: nat, len: nat)
    returns (ok: bool, known': map<Cell, int>)
    requires cells.Valid() && Making(m, known, allNum, o, n, made, cells.M())
    requires Assigning(m, known, allNum, o, n, made, current) && c.offset + c.size - 1 <= INT32_MAX
    requires IsCut(m, known, allNum, o, n, c) && PartOf(c, o, n, Cell(start, len))
    requires (forall a :: mem(a) < 256) && (forall x :: x in known ==> x.size <= 8)
    requires Agrees(known, mem, big) ==> Cut(known, mem, o, n, big, current)
    modifies cells
    ensures cells.Valid()
    ensures AllFit(m) && KnownFits(known) ==> ok
    ensures ok ==> Making(m, known, allNum, o, n, made + {Cell(start, len)}, cells.M())
                   && Assigning(m, known, allNum, o, n, made + {Cell(start, len)}, known')
    ensures ok && Agrees(known, mem, big) ==> Cut(known, mem, o, n, big, known')
  {
    hide Agrees, Cut, ContentOf, Sorted, HoldsIn, Making, Assigning, AllKnown, Overflows, Refuses, FitsIndex, KnownFits,
      AllFit, Reported, PartOf;
    ghost var before, part := cells.M(), Cell(start, len);
    CutFits(m, known, allNum, o, n, c, part);
    hide IsCut;
    if KnownFits(known) {
      StillFits(m, known, allNum, o, n, made, current);
      NoOverflow(current, start, len);
    }
    if AllFit(m) {
      MadeFit(m, known, allNum, o, n, made, before, start, len);
    }
    if Agrees(known, mem, big) {
      CutAgrees(known, mem, o, n, big, current);
    }
    ok, known' := SplitCell(cells, current, start, len, big, mem);
    if ok {
      PartMade(m, known, allNum, o, n, made, before, c, part);
      PartAssigned(m, known, allNum, o, n, made, before, current, part, known');
      if Agrees(known, mem, big) {
        CutMore(known, mem, o, n, big, current, known', part);
      }
    }
  }

  lemma {:induction false} CutFits(
    m: Content, known: map<Cell, int>, allNum: Cell -> bool, o: nat, n: nat, c: Cell, p: Cell)
    requires IsCut(m, known, allNum, o, n, c) && PartOf(c, o, n, p)
    requires c.offset + c.size - 1 <= INT32_MAX && forall x :: x in known ==> x.size <= 8
    ensures p.size < 8 && p.offset + p.size - 1 <= INT32_MAX && p.offset <= INT32_MAX && !p.Overlaps(o, n)
  {
    hide Visible;
    PartPlace(c, o, n, p);
  }

  lemma {:induction false} StillFits(
    m: Content, known: map<Cell, int>, allNum: Cell -> bool, o: nat, n: nat, made: set<Cell>, current: map<Cell, int>)
    requires Assigning(m, known, allNum, o, n, made, current) && KnownFits(known)
    ensures KnownFits(current)
  {
    hide KnownFits;
  }

  /** All parts of `c` have been made. */
  ghost predicate PartsIn(c: Cell, o: nat, n: nat, made: set<Cell>) {
    forall p :: PartOf(c, o, n, p) ==> p in made
  }

  /** Makes the parts of one cell that the search reports, if it is to be cut. */
  method CutCell(cells: OffsetMap, ghost known: map<Cell, int>, current: map<Cell, int>, allNum: Cell -> bool, o: nat,
                 n: nat, big: bool, ghost mem: nat -> nat, ghost m: Content, ghost made: set<Cell>, c: Cell)
    returns (ok: bool, known': map<Cell, int>, ghost made': set<Cell>)
    requires cells.Valid() && Making(m, known, allNum, o, n, made, cells.M())
    requires Assigning(m, known, allNum, o, n, made, current) && c.offset + c.size - 1 <= INT32_MAX
    requires Reported(m, o, n, c) && (forall a :: mem(a) < 256) && (forall x :: x in known ==> x.size <= 8)
    requires Agrees(known, mem, big) ==> Cut(known, mem, o, n, big, current)
    modifies cells
    ensures cells.Valid()
    ensures AllFit(m) && KnownFits(known) ==> ok
    ensures ok ==> Making(m, known, allNum, o, n, made', cells.M()) && Assigning(m, known, allNum, o, n, made', known')
    ensures ok ==> made <= made' && (IsCut(m, known, allNum, o, n, c) ==> PartsIn(c, o, n, made'))
    ensures ok && Agrees(known, mem, big) ==> Cut(known, mem, o, n, big, known')
  {
    hide Agrees, Cut, ContentOf, Sorted, Making, Assigning, KnownFits, AllFit, Reported;
    ReportedOverlaps(m, o, n, c);
    CutCellStays(m, known, allNum, o, n, made, cells.M(), current, c);
    ok, known', made' := true, current, made;
    if !allNum(c) || c.size < 8 || c !in current {
      return;
    }
    if c.offset < o {
      ok, known' := CutPart(cells, known, known', allNum, o, n, big, mem, m, made', c, c.offset, o - c.offset);
      if !ok {
        return;
      }
      made' := made' + {Cell(c.offset, o - c.offset)};
    }
    if o + n < c.offset + c.size {
      var len := c.offset + c.size - (o + n);
      ok, known' := CutPart(cells, known, known', allNum, o, n, big, mem, m, made', c, o + n, len);
      if !ok {
        return;
      }
      made' := made' + {Cell(o + n, len)};
    }
  }

  lemma {:induction false} ReportedOverlaps(m: Content, o: nat, n: nat, c: Cell)
    requires Reported(m, o, n, c)
    ensures c.Overlaps(o, n) && c != Cell(o, n)
  {
    hide Visible;
  }

  /** Cuts the numeric constant cells of eight bytes that reach beyond `[o, o + n)`: what is left of them on
      either side becomes a cell of its own.  `allNum` tells which cells hold nothing but numbers. */
  method SplitNumberVar(
    cells: OffsetMap, known: map<Cell, int>, allNum: Cell -> bool, o: nat, n: nat, big: bool, ghost mem: nat -> nat)
    returns (ok: bool, known': map<Cell, int>)
    requires cells.Valid() && (forall a :: mem(a) < 256) && (forall c :: c in known ==> c.size <= 8)
    modifies cells
    ensures cells.Valid()
    ensures ok ==> PlaceFits(old(cells.M()), o, n)
    ensures PlaceFits(old(cells.M()), o, n) && AllFit(old(cells.M())) && KnownFits(known) ==> ok
    ensures ok ==> Grows(old(cells.M()), cells.M(), o, n)
    ensures ok ==> SplitIndex(old(cells.M()), known, allNum, o, n, cells.M())
    ensures ok ==> SplitConstants(old(cells.M()), known, allNum, o, n, known')
    ensures ok ==> forall p :: IsPart(old(cells.M()), known, allNum, o, n, p) ==> p.offset <= INT32_MAX
    ensures ok ==> forall c :: c in known' ==> c.size <= 8
    ensures ok && Agrees(known, mem, big) ==> Cut(known, mem, o, n, big, known')
  {
    hide Agrees, Cut, Grows, ContentOf, Sorted, Reported, Refuses, NoDup, HoldsIn, Making, Assigning, AllFit, KnownFits,
      SplitIndex, SplitConstants;
    ghost var m := cells.M();
    known' := known;
    if n > UINT32_MAX {
      return false, known;
    }
    var overlapping;
    ok, overlapping := cells.GetOverlapCells(o, n);
    if !ok {
      return;
    }
    NothingMade(m, known, allNum, o, n, mem, big);
    ghost var made: set<Cell> := {};
    var i := 0;
    while i < |overlapping|
      invariant 0 <= i <= |overlapping| && ok && cells.Valid()
      invariant Making(m, known, allNum, o, n, made, cells.M()) && Assigning(m, known, allNum, o, n, made, known')
      invariant Agrees(known, mem, big) ==> Cut(known, mem, o, n, big, known')
      invariant forall k :: 0 <= k < i ==> overlapping[k].offset + overlapping[k].size - 1 <= INT32_MAX
      invariant forall k :: 0 <= k < i && IsCut(m, known, allNum, o, n, overlapping[k]) ==>
                              PartsIn(overlapping[k], o, n, made)
    {
      var c := overlapping[i];
      assert c in overlapping && Reported(m, o, n, c);
      if c.offset + c.size - 1 > INT32_MAX {
        return false, known';
      }
      ok, known', made := CutCell(cells, known, known', allNum, o, n, big, mem, m, made, c);
      if !ok {
        return;
      }
      i := i + 1;
    }
    AllMade(m, known, allNum, o, n, made, cells.M(), known', overlapping);
  }

  lemma {:induction false} NothingMade(
    m: Content, known: map<Cell, int>, allNum: Cell -> bool, o: nat, n: nat, mem: nat -> nat, big: bool)
    requires forall c :: c in known ==> c.size <= 8
    ensures Making(m, known, allNum, o, n, {}, Touched(m, o)) && Assigning(m, known, allNum, o, n, {}, known)
    ensures Cut(known, mem, o, n, big, known)
  {
    hide HoldsIn, Reported, FitsIndex;
    GrowsByTouch(m, o, n);
    hide Grows;
    forall x ensures Holds(Touched(m, o), x) <==> Holds(m, x) {
      TouchedHolds(m, o, x);
    }
  }

  lemma {:induction false} AllMade(
    m: Content, known: map<Cell, int>, allNum: Cell -> bool, o: nat, n: nat, made: set<Cell>, m': Content,
    known': map<Cell, int>, reported: seq<Cell>)
    requires Making(m, known, allNum, o, n, made, m') && Assigning(m, known, allNum, o, n, made, known')
    requires forall x :: x in reported <==> Reported(m, o, n, x)
    requires forall k :: 0 <= k < |reported| && IsCut(m, known, allNum, o, n, reported[k]) ==>
                           PartsIn(reported[k], o, n, made)
    ensures Grows(m, m', o, n) && SplitIndex(m, known, allNum, o, n, m')
    ensures SplitConstants(m, known, allNum, o, n, known')
    ensures forall p :: IsPart(m, known, allNum, o, n, p) ==> p.offset <= INT32_MAX
    ensures forall c :: c in known' ==> c.size <= 8
  {
    hide Grows, Reported, PartOf, KnownFits;
    forall p ensures p in made <==> IsPart(m, known, allNum, o, n, p) {
      if IsPart(m, known, allNum, o, n, p) {
        var c :| IsCut(m, known, allNum, o, n, c) && PartOf(c, o, n, p);
        var k :| 0 <= k < |reported| && reported[k] == c;
        assert PartsIn(c, o, n, made);
      }
    }
    forall c, p | IsCut(m, known, allNum, o, n, c) && NewWord(m, c, o, n, p) ensures p in known' {
      assert PartOf(c, o, n, p);
    }
  }

  // ----- storing -----

  /** The index after a store: the cells before and the parts, without what the search reports, and a cell for
      the place. */
  ghost predicate StoredIndex(
    m: Content, known: map<Cell, int>, allNum: Cell -> bool, o: nat, n: nat, m': Content) {
    forall x :: Holds(m', x) <==>
                x == Cell(o, n)
                || ((Holds(m, x) || IsPart(m, known, allNum, o, n, x)) && !Reported(m, o, n, x))
  }

  /** The constants after a store: the place holds `v`, what the search reports is gone, and everything else is
      as splitting leaves it. */
  ghost predicate StoredConstants(
    m: Content, known: map<Cell, int>, allNum: Cell -> bool, o: nat, n: nat, v: int, known': map<Cell, int>) {
    && Cell(o, n) in known' && known'[Cell(o, n)] == v
    && (forall x :: x != Cell(o, n) && Reported(m, o, n, x) ==> x !in known')
    && (forall x :: x != Cell(o, n) && !Reported(m, o, n, x) && (!IsPart(m, known, allNum, o, n, x) || Holds(m, x)) ==>
                      SameAt(known, known', x))
    && (forall c, p {:trigger IsCut(m, known, allNum, o, n, c), NewWord(m, c, o, n, p)} ::
          IsCut(m, known, allNum, o, n, c) && NewWord(m, c, o, n, p) ==> p in known')
  }

  /** Stores the constant `v`: cuts what reaches beyond, removes what lies under, and gives the place a cell
      that holds `v`. */
  method StoreNumber(cells: OffsetMap, known: map<Cell, int>, allNum: Cell -> bool, o: nat, n: nat, v: int,
                     big: bool, ghost mem: nat -> nat)
    returns (ok: bool, known': map<Cell, int>)
    requires cells.Valid() && 0 < n <= 8 && (forall a :: mem(a) < 256) && (forall c :: c in known ==> c.size <= 8)
    modifies cells
    ensures cells.Valid()
    ensures ok ==> PlaceFits(old(cells.M()), o, n)
    ensures PlaceFits(old(cells.M()), o, n) && AllFit(old(cells.M())) && KnownFits(known) ==> ok
    ensures ok ==> StoredIndex(old(cells.M()), known, allNum, o, n, cells.M())
    ensures ok ==> StoredConstants(old(cells.M()), known, allNum, o, n, v, known')
    ensures ok ==> forall k :: k in cells.M() && k !in old(cells.M()) ==> k == o || k >= o + n
    ensures ok ==> forall c :: c in known' ==> c.size <= 8
    ensures ok && Agrees(known, mem, big) ==> Stored(old(cells.M()), known, mem, o, n, v, big, known')
    ensures ok && Agrees(known, mem, big) && NothingMissed(old(cells.M()), known, o, n) ==>
              Agrees(known', Written(mem, o, v, n, big), big)
  {
    hide Agrees, Cut, Grows, ContentOf, Sorted, Reported, Refuses, HoldsIn, Stored, NothingMissed, NoDup, Written,
      AllFit,
      KnownFits, SplitIndex, SplitConstants, StoredIndex, StoredConstants;
    ghost var m := cells.M();
    var cut;
    ok, cut := SplitNumberVar(cells, known, allNum, o, n, big, mem);
    if !ok {
      return false, known;
    }
    ghost var m' := cells.M();
    StillAccepted(m, known, allNum, o, n, m');
    assert forall k :: k in m' && k !in m ==> k == o || k >= o + n by {
      NewGroups(m, m', o, n);
    }
    var r := cells.KillAndFind(Interval(At(o), At(o)), Interval(At(n), At(n)));
    assert !r.Refused?;
    ghost var killed := cells.M();
    var place := cells.MakeCell(o, n);
    known' := (map c | c in cut && c !in r.cells :: cut[c])[place := v];
    forall c ensures c in r.cells <==> Reported(m, o, n, c) {
      GrowsReports(m, m', o, n, c);
    }
    StoreIndexed(m, known, allNum, o, n, m', killed);
    StoreAssigned(m, known, allNum, o, n, v, cut, known');
    if Agrees(known, mem, big) {
      StoredByCut(m, known, mem, o, n, v, big, cut, known');
      if NothingMissed(m, known, o, n) {
        StoreKeeps(m, known, mem, o, n, v, big, known');
      }
    }
  }

  lemma {:induction false} NewGroups(m: Content, m': Content, o: nat, n: nat)
    requires Grows(m, m', o, n)
    ensures forall k :: k in m' && k !in m ==> k == o || k >= o + n
  {
  }

  /** What a store leaves of a cell that it cuts: every byte outside the place is in a cell that holds all bytes
      of the cut cell on that side and none of the place.  If the cut cell is aligned and the side is as wide as a
      load, that cell is constant. */
  lemma {:induction false} RestStaysCovered(
    m: Content, known: map<Cell, int>, allNum: Cell -> bool, o: nat, n: nat, v: int, m': Content,
    known': map<Cell, int>, c: Cell, b: nat) returns (p: Cell)
    requires StoredIndex(m, known, allNum, o, n, m') && StoredConstants(m, known, allNum, o, n, v, known')
    requires Reported(m, o, n, c) && allNum(c) && c.size == 8 && c in known && c.Covers(b) && !(o <= b < o + n)
    ensures Holds(m', p) && p.Covers(b) && forall a: nat :: p.Covers(a) ==> c.Covers(a) && !(o <= a < o + n)
    ensures forall a: nat :: c.Covers(a) && (if b < o then a < o else o + n <= a) ==> p.Covers(a)
    ensures c.offset % 8 == 0 && (p.size == 1 || p.size == 2 || p.size == 4) && !Holds(m, p) ==> p in known'
  {
    hide Visible;
    p := if b < o then Cell(c.offset, o - c.offset) else Cell(o + n, c.offset + c.size - (o + n));
    assert PartOf(c, o, n, p) && IsCut(m, known, allNum, o, n, c);
    assert IsPart(m, known, allNum, o, n, p);
    PartPlace(c, o, n, p);
    if c.offset % 8 == 0 && IsWidth(p.size) && !Holds(m, p) {
      assert NewWord(m, c, o, n, p);
    }
  }

  /** Splitting does not bring the search upon large offsets. */
  lemma {:induction false} StillAccepted(
    m: Content, known: map<Cell, int>, allNum: Cell -> bool, o: nat, n: nat, m': Content)
    requires Grows(m, m', o, n) && SplitIndex(m, known, allNum, o, n, m') && !Refuses(m, o, n)
    requires forall p :: IsPart(m, known, allNum, o, n, p) ==> p.offset <= INT32_MAX
    ensures !Refuses(m', o, n)
  {
    hide IsPart;
    forall k | k in m' && k > INT32_MAX && m'[k] != {} ensures !Visible(m', k, o, n) {
      var w :| w in m'[k];
      assert Holds(m', Cell(k, w));
      assert Holds(m, Cell(k, w)) && k in m && m[k] != {};
      var l :| l in m && (k < l < o || o < l < k) && !Meets(m, l, o, n);
      GrowsMeets(m, m', o, n, l);
      GrowsKeys(m, m', o, n);
    }
  }

  lemma {:induction false} StoreIndexed(
    m: Content, known: map<Cell, int>, allNum: Cell -> bool, o: nat, n: nat, m': Content, killed: Content)
    requires SplitIndex(m, known, allNum, o, n, m')
    requires forall x :: Holds(killed, x) <==> Holds(m', x) && !Reported(m, o, n, x)
    ensures StoredIndex(m, known, allNum, o, n, WithCell(killed, Cell(o, n)))
  {
    hide Reported, IsPart;
    forall x ensures Holds(WithCell(killed, Cell(o, n)), x) <==> Holds(killed, x) || x == Cell(o, n) {
    }
  }

  lemma {:induction false} StoreAssigned(
    m: Content, known: map<Cell, int>, allNum: Cell -> bool, o: nat, n: nat, v: int, cut: map<Cell, int>,
    known': map<Cell, int>)
    requires SplitConstants(m, known, allNum, o, n, cut) && n > 0
    requires known' == (map c | c in cut && !Reported(m, o, n, c) :: cut[c])[Cell(o, n) := v]
    ensures StoredConstants(m, known, allNum, o, n, v, known')
  {
    hide IsPart, IsWidth;
    forall x | x != Cell(o, n) && !Reported(m, o, n, x) && (!IsPart(m, known, allNum, o, n, x) || Holds(m, x))
      ensures SameAt(known, known', x) {
      assert SameAt(known, cut, x);
    }
    hide SameAt;
    forall c, p | IsCut(m, known, allNum, o, n, c) && NewWord(m, c, o, n, p) ensures p in known' {
      assert p in cut;
      ReportedOverlaps(m, o, n, c);
      PartPlace(c, o, n, p);
      if Reported(m, o, n, p) {
        ReportedOverlaps(m, o, n, p);
      }
    }
  }

  lemma {:induction false} StoredByCut(
    m: Content, known: map<Cell, int>, mem: nat -> nat, o: nat, n: nat, v: int, big: bool,
    cut: map<Cell, int>, known': map<Cell, int>)
    requires Cut(known, mem, o, n, big, cut)
    requires known' == (map c | c in cut && !Reported(m, o, n, c) :: cut[c])[Cell(o, n) := v]
    ensures Stored(m, known, mem, o, n, v, big, known')
  {
    hide Reported, HoldsIn, Aligned;
  }

  // ----- a load can spoil a store -----

  /** The group that a load of four bytes leaves behind at 4 hides a constant cell from a store at 6. */
  lemma {:induction false} LoadHidesCell(known: map<Cell, int>, m: Content)
    requires known.Keys == {Cell(0, 8)}
    ensures NothingMissed(map[0 := {8}], known, 6, 1)
    ensures 4 in m && m[4] == {} ==> !NothingMissed(m, known, 6, 1) && forall x: Cell ::
                                       x.offset < 4 ==> !Reported(m, 6, 1, x)
  {
    var before: Content := map[0 := {8}];
    assert Reported(before, 6, 1, Cell(0, 8));
    if 4 in m && m[4] == {} {
      assert !Meets(m, 4, 6, 1);
      assert Aligned(Cell(0, 8)) && Cell(0, 8).Overlaps(6, 1);
    }
  }

  /** The index holds one cell of eight bytes at 0, whatever empty groups there may be. */
  ghost predicate OnlyFirst(m: Content) {
    forall x :: Holds(m, x) <==> x == Cell(0, 8)
  }

  lemma {:induction false} FirstStore(m: Content, known: map<Cell, int>, allNum: Cell -> bool)
    ensures PlaceFits(map[], 0, 8) && AllFit(map[]) && KnownFits(map[])
    ensures StoredIndex(map[], map[], allNum, 0, 8, m) ==> OnlyFirst(m)
    ensures StoredConstants(map[], map[], allNum, 0, 8, 5, known) ==> known == map[Cell(0, 8) := 5]
  {
    assert forall x :: !Reported(map[], 0, 8, x) && !Holds(map[], x);
    assert forall x :: !IsPart(map[], map[], allNum, 0, 8, x);
    hide IsPart, Reported, Visible;
    if StoredConstants(map[], map[], allNum, 0, 8, 5, known) {
      forall x | x != Cell(0, 8) ensures x !in known {
        assert SameAt(map[], known, x);
      }
    }
  }

  lemma {:induction false} LoadTouches(m: Content, known: map<Cell, int>, big: bool, mem: nat -> nat, m': Content,
                                       r: LoadResult)
    requires OnlyFirst(m) && known == map[Cell(0, 8) := 5] && Loaded(m, known, SValues, 4, 4, big, mem, m', r)
    ensures OnlyFirst(m') && 4 in m' && m'[4] == {}
  {
    hide Refuses, Reported, Meaning, MemoryBytes, Agrees;
    SmallKey(4);
    hide Key;
    assert KnownFits(known);
    NoOverflow(known, 4, 4);
    forall i: nat | i < 4 ensures ByteKnown(known, ByteAt(4, i)) {
      NoWrap(4, i);
      AroundInside(Cell(0, 8), 4 + i);
    }
    assert AllKnown(known, 4, 4);
    hide AllKnown, Overflows;
    assert m' == Touched(m, 4);
    if 4 in m {
      forall w ensures w !in m[4] {
        assert !Holds(m, Cell(4, w));
      }
    }
    forall x ensures Holds(m', x) <==> Holds(m, x) {
      TouchedHolds(m, 4, x);
    }
  }

  lemma {:induction false} SecondStore(
    m: Content, known: map<Cell, int>, allNum: Cell -> bool, m': Content, known': map<Cell, int>)
    requires OnlyFirst(m) && known == map[Cell(0, 8) := 5] && 4 in m && m[4] == {}
    ensures PlaceFits(m, 6, 1) && AllFit(m) && KnownFits(known)
    ensures StoredIndex(m, known, allNum, 6, 1, m') ==> Holds(m', Cell(0, 8))
    ensures StoredConstants(m, known, allNum, 6, 1, 1, known') ==> known' == map[Cell(0, 8) := 5, Cell(6, 1) := 1]
  {
    LoadHidesCell(known, m);
    forall k | k in m && m[k] != {} ensures k == 0 {
      var w :| w in m[k];
      assert Holds(m, Cell(k, w));
    }
    assert forall x :: !Reported(m, 6, 1, x);
    hide Reported, Visible;
    assert forall x :: !IsPart(m, known, allNum, 6, 1, x);
    hide IsPart, OnlyFirst;
    if StoredConstants(m, known, allNum, 6, 1, 1, known') {
      forall x | x != Cell(6, 1) ensures SameAt(known, known', x) {
      }
      assert forall x :: x in known' <==> x in known || x == Cell(6, 1);
    }
  }

  lemma {:induction false} BytesOfFiveAndOne(big: bool)
    ensures StoredBytes(5, 8, big)[6] == 0 && StoredBytes(1, 1, big) == [1]
  {
    PowMonotone(8);
    assert LittleBytes(5, 8) == [5] + LittleBytes(0, 7);
    ZeroBytes(7);
    assert Reversed([1]) == [1];
    assert LittleBytes(1, 1) == [1] + LittleBytes(0, 0);
  }

  lemma {:induction false} ZeroBytes(w: nat)
    ensures forall i :: 0 <= i < w ==> LittleBytes(0, w)[i] == 0
  {
    if w > 0 {
      ZeroBytes(w - 1);
    }
  }

  /** Memory after both stores contradicts the constant of the first. */
  lemma {:induction false} StaleConstant(known: map<Cell, int>, big: bool, mem: nat -> nat, mem': nat -> nat)
    requires Cell(0, 8) in known && known[Cell(0, 8)] == 5 && forall a :: mem(a) < 256
    requires mem' == Written(Written(mem, 0, 5, 8, big), 6, 1, 1, big)
    ensures !Agrees(known, mem', big) && Meaning(SValues, MemoryBytes(mem', 0, 8), big) != 5
  {
    hide StoredBytes, Meaning;
    BytesOfFiveAndOne(big);
    assert mem'(6) == 1;
    var c := Cell(0, 8);
    assert mem'(c.offset + 6) != StoredBytes(known[c], c.size, big)[6];
    WrittenIsBytes(mem, 0, 5, 8, big);
    WrittenIsBytes(Written(mem, 0, 5, 8, big), 6, 1, 1, big);
    NoWrap(0, 6);
    hide Written, Agrees, MemoryBytes, ByteAt;
    var bs := MemoryBytes(mem', 0, 8);
    assert bs[6] == mem'(ByteAt(0, 6));
    MeaningStores(bs, big);
  }

  lemma {:induction false} WrittenIsBytes(mem: nat -> nat, o: nat, v: int, n: nat, big: bool)
    requires forall a :: mem(a) < 256
    ensures forall a :: Written(mem, o, v, n, big)(a) < 256
  {
    StoredAreBytes(v, n, big);
    hide StoredBytes;
  }

  /** Eight bytes are stored at 0, four bytes are loaded from 4, and one byte is stored at 6.  The constant of
      the first store survives the second, and a load of eight bytes from 0 takes it, although memory says
      something else. */
  method LoadSpoilsStore(big: bool, ghost mem: nat -> nat)
    returns (cells: OffsetMap, known: map<Cell, int>, r: LoadResult)
    requires forall a :: mem(a) < 256
    ensures fresh(cells) && cells.Valid() && known == map[Cell(0, 8) := 5, Cell(6, 1) := 1]
    ensures r == Scalar(Cell(0, 8))
    ensures var mem' := Written(Written(mem, 0, 5, 8, big), 6, 1, 1, big);
            && !Agrees(known, mem', big)
            && Meaning(SValues, MemoryBytes(mem', 0, 8), big) != known[Cell(0, 8)]
  {
    hide StoredIndex, StoredConstants, Stored, Agrees, Written, PlaceFits, AllFit, KnownFits, OnlyFirst, ContentOf,
      Sorted,
      Loaded, NothingMissed, Meaning, MemoryBytes;
    var all: Cell -> bool := (c: Cell) => true;
    cells := new OffsetMap();
    FirstStore(map[], map[], all);
    var ok, first := StoreNumber(cells, map[], all, 0, 8, 5, big, mem);
    FirstStore(cells.M(), first, all);
    ghost var mem1 := Written(mem, 0, 5, 8, big);
    WrittenIsBytes(mem, 0, 5, 8, big);
    ghost var before := cells.M();
    var word := Load(cells, first, SValues, Interval(At(4), At(4)), 4, big, mem1);
    LoadTouches(before, first, big, mem1, cells.M(), word);
    SecondStore(cells.M(), first, all, map[], map[]);
    ghost var touched := cells.M();
    ok, known := StoreNumber(cells, first, all, 6, 1, 1, big, mem1);
    SecondStore(touched, first, all, cells.M(), known);
    ghost var mem2 := Written(mem1, 6, 1, 1, big);
    WrittenIsBytes(mem1, 6, 1, 1, big);
    StaleConstant(known, big, mem, mem2);
    before := cells.M();
    r := Load(cells, known, SValues, Interval(At(0), At(0)), 8, big, mem2);
    HeldIsLoaded(before, known, 0, 8, big, mem2, cells.M(), r);
  }

  lemma {:induction false} HeldIsLoaded(m: Content, known: map<Cell, int>, o: nat, n: nat, big: bool, mem: nat -> nat,
                                        m': Content, r: LoadResult)
    requires Loaded(m, known, SValues, o, n, big, mem, m', r) && Holds(m, Cell(o, n)) && o <= INT32_MAX
    ensures r == Scalar(Cell(o, n))
  {
    SmallKey(o);
  }
}
