/** Splitting an executable section into programs (src/elf_loader.cpp:133-155,
    src/elf_loader.cpp:994-1005, src/elf_loader.cpp:1050-1066). */
module Splitter {
  import opened MachineIntegers

  datatype Symbol = Symbol(name: string, value: nat, section: nat, isFunction: bool)

  datatype Section = Section(index: nat, name: string, size: nat)

  /** The bytes of one instruction. */
  const INSTRUCTION_SIZE: nat := 8

  /** A program occupies bytes `start` to `start + size` of its section. */
  datatype Piece = Piece(name: string, start: nat, size: nat)

  /** The symbol names a function of the section. */
  predicate Marks(sec: Section, s: Symbol) {
    s.section == sec.index && s.name != "" && s.isFunction
  }

  /** Some function of the section starts at `at`. */
  ghost predicate Marked(sec: Section, symbols: seq<Symbol>, at: nat) {
    exists i :: 0 <= i < |symbols| && Marks(sec, symbols[i]) && symbols[i].value == at
  }

  /** Where programs start: at the beginning and at every function symbol inside the section. */
  ghost predicate Starts(sec: Section, symbols: seq<Symbol>, at: nat) {
    at < sec.size && (at == 0 || Marked(sec, symbols, at))
  }

  /** Symbol `i` is the last one that marks `at`. */
  ghost predicate LastMark(sec: Section, symbols: seq<Symbol>, at: nat, i: int) {
    && 0 <= i < |symbols| && Marks(sec, symbols[i]) && symbols[i].value == at
    && forall j :: i < j < |symbols| ==> !(Marks(sec, symbols[j]) && symbols[j].value == at)
  }

  /** The name of the program that starts at `start`, that of the last symbol there or else the section's, and
      its size up to the next function symbol. */
  method ProgramNameAndSize(sec: Section, start: nat, symbols: seq<Symbol>) returns (name: string, size: nat)
    requires start < sec.size
    ensures forall i :: LastMark(sec, symbols, start, i) ==> name == symbols[i].name
    ensures (forall i :: 0 <= i < |symbols| && Marks(sec, symbols[i]) ==> symbols[i].value != start) ==>
              name == sec.name
    ensures 0 < size && start + size <= sec.size
    ensures start + size == sec.size || Marked(sec, symbols, start + size)
    ensures forall at: nat :: start < at < start + size ==> !Marked(sec, symbols, at)
  {
    name := sec.name;
    size := sec.size - start;
    var index := 0;
    while index < |symbols|
      invariant 0 <= index <= |symbols|
      invariant forall i :: LastMark(sec, symbols[..index], start, i) ==> name == symbols[i].name
      invariant (forall i :: 0 <= i < index && Marks(sec, symbols[i]) ==> symbols[i].value != start)
                ==> name == sec.name
      invariant 0 < size && start + size <= sec.size
      invariant start + size == sec.size || Marked(sec, symbols, start + size)
      invariant forall i :: 0 <= i < index && Marks(sec, symbols[i]) ==> !(start < symbols[i].value < start + size)
    {
      var symbol := symbols[index];
      LastMarkMore(sec, symbols, start, index);
      hide LastMark;
      if symbol.section == sec.index && symbol.name != "" && symbol.isFunction {
        if symbol.value == start {
          name := symbol.name;
        } else if symbol.value > start && symbol.value < start + size {
          size := symbol.value - start;
          assert Marked(sec, symbols, start + size);
        }
      }
      index := index + 1;
    }
    assert symbols[..index] == symbols;
  }

  lemma {:induction false} LastMarkMore(sec: Section, symbols: seq<Symbol>, at: nat, n: nat)
    requires n < |symbols|
    ensures forall i :: LastMark(sec, symbols[..n + 1], at, i) <==>
                        if Marks(sec, symbols[n]) && symbols[n].value == at then i == n
                        else LastMark(sec, symbols[..n], at, i)
  {
    var longer := symbols[..n + 1];
    assert longer[..n] == symbols[..n] && longer[n] == symbols[n];
    forall i ensures LastMark(sec, longer, at, i) <==>
                     if Marks(sec, symbols[n]) && symbols[n].value == at then i == n
                     else LastMark(sec, symbols[..n], at, i) {
      assert forall j :: 0 <= j < n ==> longer[j] == symbols[..n][j];
    }
  }

  /** Programs start at the beginning and at the named function symbols inside the section, and nowhere else. */
  lemma {:induction false} StartsAtSymbols(sec: Section, symbols: seq<Symbol>, at: nat)
    ensures Starts(sec, symbols, at) <==>
            at < sec.size
            && (at == 0 || exists i :: 0 <= i < |symbols| && symbols[i].section == sec.index && symbols[i].isFunction
                                       && symbols[i].name != "" && symbols[i].value == at)
  {
  }

  /** The program that starts at `at` bears the name of the last symbol there, or else the section's. */
  ghost predicate Bears(sec: Section, symbols: seq<Symbol>, at: nat, name: string) {
    && (forall i :: LastMark(sec, symbols, at, i) ==> name == symbols[i].name)
    && ((forall i :: 0 <= i < |symbols| && Marks(sec, symbols[i]) ==> symbols[i].value != at) ==> name == sec.name)
  }

  /** Every function symbol that no later one replaces gives its name to a program. */
  lemma {:induction false} LastSymbolNames(sec: Section, symbols: seq<Symbol>, at: nat, name: string, i: nat)
    requires Bears(sec, symbols, at, name) && i < |symbols|
    requires symbols[i].section == sec.index && symbols[i].name != "" && symbols[i].isFunction && symbols[i].value == at
    requires forall j :: i < j < |symbols| ==>
                           !(symbols[j].section == sec.index && symbols[j].isFunction && symbols[j].name != ""
                             && symbols[j].value == at)
    ensures name == symbols[i].name
  {
    assert LastMark(sec, symbols, at, i);
  }

  function End(pieces: seq<Piece>): nat {
    if pieces == [] then 0 else pieces[|pieces| - 1].start + pieces[|pieces| - 1].size
  }

  /** The pieces follow each other without gap or overlap from the beginning on. */
  ghost predicate Consecutive(pieces: seq<Piece>) {
    && (forall i :: 0 <= i < |pieces| ==> pieces[i].size > 0)
    && (pieces != [] ==> pieces[0].start == 0)
    && forall i, j :: 0 <= i && j == i + 1 && j < |pieces| ==> pieces[j].start == pieces[i].start + pieces[i].size
  }

  ghost predicate StartsPiece(pieces: seq<Piece>, at: nat) {
    exists i :: 0 <= i < |pieces| && pieces[i].start == at
  }

  /** A program's bytes must be whole instructions, and its place and size must fit 32 bits. */
  predicate PieceFits(start: nat, size: nat) {
    start <= UINT32_MAX && size % INSTRUCTION_SIZE == 0 && size <= UINT32_MAX
  }

  lemma {:induction false} FitsInNumbers(start: nat, size: nat)
    ensures PieceFits(start, size) <==> start < 0x1_0000_0000 && size % 8 == 0 && size < 0x1_0000_0000
  {
  }

  /** `next` is where the program at `at` ends: at the next start or at the end of the section. */
  ghost predicate Follows(sec: Section, symbols: seq<Symbol>, at: nat, next: nat) {
    && Starts(sec, symbols, at) && at < next && (next == sec.size || Starts(sec, symbols, next))
    && forall b: nat :: at < b < next ==> !Starts(sec, symbols, b)
  }

  /** Splits a section into programs; refuses those that do not fit. */
  method Split(sec: Section, symbols: seq<Symbol>) returns (ok: bool, pieces: seq<Piece>)
    ensures ok <==> forall at: nat, next: nat {:trigger Follows(sec, symbols, at, next)} ::
                      Follows(sec, symbols, at, next) ==> PieceFits(at, next - at)
    ensures ok ==> Consecutive(pieces) && End(pieces) == sec.size
    ensures ok ==> forall at: nat :: Starts(sec, symbols, at) <==> StartsPiece(pieces, at)
    ensures ok ==> forall i :: 0 <= i < |pieces| ==> Bears(sec, symbols, pieces[i].start, pieces[i].name)
  {
    pieces := [];
    var offset := 0;
    NothingSplit(sec, symbols);
    while offset < sec.size
      invariant offset <= sec.size && Halfway(sec, symbols, pieces, offset)
    {
      hide Bears, PieceFits, Follows, Halfway, Marked, Starts;
      var name, size := ProgramNameAndSize(sec, offset, symbols);
      HalfwayStarts(sec, symbols, pieces, offset);
      BetweenStarts(sec, symbols, offset, size);
      OnlyFollower(sec, symbols, offset, size);
      if !PieceFits(offset, size) {
        return false, pieces;
      }
      NextPiece(sec, symbols, pieces, Piece(name, offset, size));
      pieces := pieces + [Piece(name, offset, size)];
      offset := offset + size;
    }
    NoneBeyond(sec, symbols);
    ok := true;
  }

  /** The section has been split up to `offset`. */
  ghost predicate Halfway(sec: Section, symbols: seq<Symbol>, pieces: seq<Piece>, offset: nat) {
    && Consecutive(pieces) && End(pieces) == offset
    && (offset == sec.size || Starts(sec, symbols, offset))
    && (forall at: nat, next: nat {:trigger Follows(sec, symbols, at, next)} ::
          Follows(sec, symbols, at, next) && at < offset ==> PieceFits(at, next - at))
    && (forall at: nat :: at < offset ==> (Starts(sec, symbols, at) <==> StartsPiece(pieces, at)))
    && (forall i :: 0 <= i < |pieces| ==>
                      pieces[i].start < offset && Bears(sec, symbols, pieces[i].start, pieces[i].name))
  }

  lemma {:induction false} NothingSplit(sec: Section, symbols: seq<Symbol>)
    ensures Halfway(sec, symbols, [], 0)
  {
  }

  lemma {:induction false} HalfwayStarts(sec: Section, symbols: seq<Symbol>, pieces: seq<Piece>, offset: nat)
    requires Halfway(sec, symbols, pieces, offset) && offset < sec.size
    ensures Starts(sec, symbols, offset)
  {
    hide Starts, StartsPiece, Follows, Bears;
  }

  lemma {:induction false} NextPiece(sec: Section, symbols: seq<Symbol>, pieces: seq<Piece>, piece: Piece)
    requires Halfway(sec, symbols, pieces, piece.start) && Starts(sec, symbols, piece.start) && piece.size > 0
    requires Follows(sec, symbols, piece.start, piece.start + piece.size) && PieceFits(piece.start, piece.size)
    requires forall next: nat :: Follows(sec, symbols, piece.start, next) ==> next == piece.start + piece.size
    requires forall at: nat :: piece.start < at < piece.start + piece.size ==> !Starts(sec, symbols, at)
    requires Bears(sec, symbols, piece.start, piece.name)
    ensures Halfway(sec, symbols, pieces + [piece], piece.start + piece.size)
  {
    hide Starts, StartsPiece, Follows, Bears, Consecutive, End, PieceFits;
    OneMorePiece(pieces, piece);
    EndsSomewhere(sec, symbols, piece.start, piece.start + piece.size);
    NoneBetween(sec, symbols, piece.start, piece.size);
    StartsGrow(sec, symbols, pieces, piece);
    FitsGrow(sec, symbols, piece);
    BearsGrow(sec, symbols, pieces, piece);
  }

  lemma {:induction false} FitsGrow(sec: Section, symbols: seq<Symbol>, piece: Piece)
    requires forall at: nat, next: nat {:trigger Follows(sec, symbols, at, next)} ::
               Follows(sec, symbols, at, next) && at < piece.start ==> PieceFits(at, next - at)
    requires PieceFits(piece.start, piece.size)
    requires forall next: nat :: Follows(sec, symbols, piece.start, next) ==> next == piece.start + piece.size
    requires forall at: nat, next: nat ::
               Follows(sec, symbols, at, next) && at < piece.start + piece.size ==> at <= piece.start
    ensures forall at: nat, next: nat {:trigger Follows(sec, symbols, at, next)} ::
              Follows(sec, symbols, at, next) && at < piece.start + piece.size ==> PieceFits(at, next - at)
  {
    hide Follows, PieceFits;
  }

  lemma {:induction false} BearsGrow(sec: Section, symbols: seq<Symbol>, pieces: seq<Piece>, piece: Piece)
    requires forall i :: 0 <= i < |pieces| ==>
                           pieces[i].start < piece.start && Bears(sec, symbols, pieces[i].start, pieces[i].name)
    requires Bears(sec, symbols, piece.start, piece.name) && piece.size > 0
    ensures var longer := pieces + [piece];
            forall i :: 0 <= i < |longer| ==>
                          && longer[i].start < piece.start + piece.size
                          && Bears(sec, symbols, longer[i].start, longer[i].name)
  {
    hide Bears;
  }

  lemma {:induction false} EndsSomewhere(sec: Section, symbols: seq<Symbol>, at: nat, next: nat)
    requires Follows(sec, symbols, at, next)
    ensures next == sec.size || Starts(sec, symbols, next)
  {
    hide Starts;
  }

  lemma {:induction false} OneMorePiece(pieces: seq<Piece>, piece: Piece)
    requires Consecutive(pieces) && piece.start == End(pieces) && piece.size > 0
    ensures Consecutive(pieces + [piece]) && End(pieces + [piece]) == piece.start + piece.size
  {
  }

  /** The program at `offset` ends where its size says. */
  lemma {:induction false} OnlyFollower(sec: Section, symbols: seq<Symbol>, offset: nat, size: nat)
    requires Starts(sec, symbols, offset) && size > 0 && offset + size <= sec.size
    requires offset + size == sec.size || Marked(sec, symbols, offset + size)
    requires forall at: nat :: offset < at < offset + size ==> !Starts(sec, symbols, at)
    ensures Follows(sec, symbols, offset, offset + size)
    ensures forall next: nat :: Follows(sec, symbols, offset, next) ==> next == offset + size
  {
    hide Marked;
    assert offset + size < sec.size ==> Starts(sec, symbols, offset + size);
  }

  lemma {:induction false} NoneBetween(sec: Section, symbols: seq<Symbol>, offset: nat, size: nat)
    requires forall at: nat :: offset < at < offset + size ==> !Starts(sec, symbols, at)
    ensures forall at: nat, next: nat :: Follows(sec, symbols, at, next) && at < offset + size ==> at <= offset
  {
    hide Starts;
  }

  lemma {:induction false} NoneBeyond(sec: Section, symbols: seq<Symbol>)
    ensures forall at: nat, next: nat :: Follows(sec, symbols, at, next) ==> at < sec.size
  {
  }

  lemma {:induction false} BetweenStarts(sec: Section, symbols: seq<Symbol>, offset: nat, size: nat)
    requires forall at: nat :: offset < at < offset + size ==> !Marked(sec, symbols, at)
    ensures forall at: nat :: offset < at < offset + size ==> !Starts(sec, symbols, at)
  {
    hide Marked;
  }

  lemma {:induction false} StartsGrow(sec: Section, symbols: seq<Symbol>, pieces: seq<Piece>, piece: Piece)
    requires Starts(sec, symbols, piece.start) && piece.size > 0 && forall i ::
               0 <= i < |pieces| ==> pieces[i].start < piece.start
    requires forall at: nat :: at < piece.start ==> (Starts(sec, symbols, at) <==> StartsPiece(pieces, at))
    requires forall at: nat :: piece.start < at < piece.start + piece.size ==> !Starts(sec, symbols, at)
    ensures forall at: nat :: at < piece.start + piece.size ==>
                                (Starts(sec, symbols, at) <==> StartsPiece(pieces + [piece], at))
  {
    hide Marked, StartsPiece;
    forall at: nat | at < piece.start + piece.size
      ensures Starts(sec, symbols, at) <==> StartsPiece(pieces + [piece], at) {
      StartsMore(pieces, piece, at);
    }
  }

  lemma {:induction false} StartsMore(pieces: seq<Piece>, piece: Piece, at: nat)
    ensures StartsPiece(pieces + [piece], at) <==> StartsPiece(pieces, at) || at == piece.start
    ensures StartsPiece(pieces, at) ==> exists i :: 0 <= i < |pieces| && pieces[i].start == at
  {
    var longer := pieces + [piece];
    if i :| 0 <= i < |pieces| && pieces[i].start == at {
      assert longer[i].start == at;
    }
    if at == piece.start {
      assert longer[|pieces|].start == at;
    }
  }

  /** Every byte of a section lies in exactly one program, so a relocation is handled exactly once. */
  lemma {:induction false} OnePieceEach(pieces: seq<Piece>, at: nat) returns (i: nat)
    requires Consecutive(pieces) && at < End(pieces)
    ensures i < |pieces| && pieces[i].start <= at < pieces[i].start + pieces[i].size
    ensures forall j :: 0 <= j < |pieces| && j != i ==> !(pieces[j].start <= at < pieces[j].start + pieces[j].size)
  {
    var n := |pieces| - 1;
    Apart(pieces, n);
    if at >= pieces[n].start {
      i := n;
    } else {
      assert n > 0 && pieces[n].start == pieces[n - 1].start + pieces[n - 1].size;
      i := OnePieceEach(pieces[..n], at);
      assert forall j :: 0 <= j < n ==> pieces[..n][j] == pieces[j];
    }
  }

  lemma {:induction false} Apart(pieces: seq<Piece>, n: nat)
    requires Consecutive(pieces) && n < |pieces|
    ensures forall j :: 0 <= j < n ==> pieces[j].start + pieces[j].size <= pieces[n].start
  {
    if n > 0 {
      Apart(pieces, n - 1);
      assert pieces[n].start == pieces[n - 1].start + pieces[n - 1].size;
    }
  }

  /** The symbols may come in any order: programs have the same boundaries. */
  lemma {:induction false} OrderDoesNotMatter(sec: Section, symbols: seq<Symbol>, other: seq<Symbol>, at: nat)
    requires multiset(symbols) == multiset(other)
    ensures Starts(sec, symbols, at) <==> Starts(sec, other, at)
  {
    forall s ensures s in symbols <==> s in other {
      assert s in multiset(symbols) <==> s in multiset(other);
    }
    MarkedByMembers(sec, symbols, at);
    MarkedByMembers(sec, other, at);
  }

  lemma {:induction false} MarkedByMembers(sec: Section, symbols: seq<Symbol>, at: nat)
    ensures Marked(sec, symbols, at) <==> exists s :: s in symbols && Marks(sec, s) && s.value == at
  {
  }
}
