/** The index of stack cells (src/crab/array_domain.cpp:87-281, src/crab/array_domain.cpp:284-400).

    A group holds the sizes of the cells that start at one offset.  Groups are kept in order of
    offset; erasing a cell can leave a group empty. */
module Cells {
  import opened Options
  import opened WtoTree
  import opened Intervals
  import opened MachineIntegers

  datatype Cell = Cell(offset: nat, size: nat)
  {
    /** The cell has a byte in common with `[o, o + n)`. */
    predicate Overlaps(o: nat, n: nat) {
      offset < o + n && o < offset + size && size > 0 && n > 0
    }

    predicate Covers(b: nat) {
      offset <= b < offset + size
    }
  }

  /** Cell and range overlap exactly if they have a byte in common. */
  lemma {:induction false} OverlapIsCommonByte(c: Cell, o: nat, n: nat)
    ensures c.Overlaps(o, n) <==> exists b: nat :: c.Covers(b) && Cell(o, n).Covers(b)
  {
    if c.Overlaps(o, n) {
      var b := if c.offset < o then o else c.offset;
      assert c.Covers(b) && Cell(o, n).Covers(b);
    }
  }

  datatype Group = Group(offset: nat, sizes: set<nat>)

  /** What a sequence of groups says: the sizes of the cells at each offset. */
  type Content = map<nat, set<nat>>

  ghost predicate Sorted(groups: seq<Group>) {
    forall i, j :: 0 <= i < j < |groups| ==> groups[i].offset < groups[j].offset
  }

  ghost function ContentOf(groups: seq<Group>): Content
    requires Sorted(groups)
  {
    map i | 0 <= i < |groups| :: groups[i].offset := groups[i].sizes
  }

  ghost predicate Holds(m: Content, c: Cell) {
    c.offset in m && c.size in m[c.offset]
  }

  /** The group at `k` has a cell that overlaps `[o, o + n)`. */
  ghost predicate Meets(m: Content, k: nat, o: nat, n: nat) {
    k in m && exists w :: w in m[k] && Cell(k, w).Overlaps(o, n)
  }

  /** Every group strictly between `k` and `o` meets the query. */
  ghost predicate Visible(m: Content, k: nat, o: nat, n: nat) {
    forall l :: l in m && (k < l < o || o < l < k) ==> Meets(m, l, o, n)
  }

  /** What the search reports: the search leaves the query's own offset in both directions and stops
      at the first group that does not meet it. */
  ghost predicate Reported(m: Content, o: nat, n: nat, c: Cell) {
    Holds(m, c) && c != Cell(o, n) && c.Overlaps(o, n) && Visible(m, c.offset, o, n)
  }

  /** The search comes upon an offset that does not fit a 32-bit integer. */
  ghost predicate Refuses(m: Content, o: nat, n: nat) {
    o > INT32_MAX || exists k :: k in m && k > INT32_MAX && m[k] != {} && Visible(m, k, o, n)
  }

  // ----- when the search misses nothing -----

  /** Some cell at `k` ends beyond `b`. */
  ghost predicate EndsBeyond(m: Content, k: nat, b: nat) {
    k in m && exists w :: w in m[k] && k + w > b
  }

  /** Below the query, no group that reaches into it lies before one that does not; inside the query, no
      empty group lies before one with cells. */
  ghost predicate Unobstructed(m: Content, o: nat, n: nat) {
    && (forall j, l :: j in m && l in m && j < l < o && EndsBeyond(m, j, o) ==> EndsBeyond(m, l, o))
    && (forall l, j :: l in m && j in m && o < l < j < o + n && m[j] != {} ==> m[l] != {})
  }

  ghost predicate NonEmptyCells(m: Content) {
    forall k, w :: k in m && w in m[k] ==> w > 0
  }

  lemma {:induction false} MeetsByEnds(m: Content, k: nat, o: nat, n: nat)
    requires NonEmptyCells(m) && n > 0 && k in m
    ensures k < o ==> (Meets(m, k, o, n) <==> EndsBeyond(m, k, o))
    ensures k > o ==> (Meets(m, k, o, n) <==> k < o + n && m[k] != {})
  {
    if k < o && EndsBeyond(m, k, o) {
      var w :| w in m[k] && k + w > o;
      assert Cell(k, w).Overlaps(o, n);
    }
    if o < k < o + n && m[k] != {} {
      var w :| w in m[k];
      assert Cell(k, w).Overlaps(o, n);
    }
  }

  /** The search reports every other overlapping cell exactly if nothing obstructs it. */
  lemma {:induction false} CompleteIffUnobstructed(m: Content, o: nat, n: nat)
    requires NonEmptyCells(m) && n > 0
    ensures Unobstructed(m, o, n) <==> forall c ::
                                         Holds(m, c) && c != Cell(o, n) && c.Overlaps(o, n) ==> Reported(m, o, n, c)
  {
    if Unobstructed(m, o, n) {
      forall c | Holds(m, c) && c != Cell(o, n) && c.Overlaps(o, n) ensures Reported(m, o, n, c) {
        forall l | l in m && (c.offset < l < o || o < l < c.offset) ensures Meets(m, l, o, n) {
          MeetsByEnds(m, l, o, n);
          MeetsByEnds(m, c.offset, o, n);
          assert Meets(m, c.offset, o, n);
        }
      }
    }
    if forall c :: Holds(m, c) && c != Cell(o, n) && c.Overlaps(o, n) ==> Reported(m, o, n, c) {
      forall j, l | j in m && l in m && j < l < o && EndsBeyond(m, j, o) ensures EndsBeyond(m, l, o) {
        AllVisible(m, j, l, o, n);
      }
      forall l, j | l in m && j in m && o < l < j < o + n && m[j] != {} ensures m[l] != {} {
        AllVisible(m, j, l, o, n);
      }
    }
  }

  lemma {:induction false} AllVisible(m: Content, j: nat, l: nat, o: nat, n: nat)
    requires NonEmptyCells(m) && n > 0 && j in m && l in m && (j < l < o || o < l < j)
    requires forall c :: Holds(m, c) && c != Cell(o, n) && c.Overlaps(o, n) ==> Reported(m, o, n, c)
    ensures Meets(m, j, o, n) ==> Meets(m, l, o, n)
    ensures j < o && EndsBeyond(m, j, o) ==> EndsBeyond(m, l, o)
    ensures o < j < o + n && m[j] != {} ==> m[l] != {}
  {
    MeetsByEnds(m, j, o, n);
    MeetsByEnds(m, l, o, n);
    if Meets(m, j, o, n) {
      var w :| w in m[j] && Cell(j, w).Overlaps(o, n);
      assert Holds(m, Cell(j, w));
      assert Visible(m, j, o, n);
    }
  }

  /** In an index without empty groups in which later groups reach at least as far, every search is
      complete. */
  ghost predicate Regular(m: Content) {
    && (forall k :: k in m ==> m[k] != {})
    && (forall j, l, b :: j in m && l in m && j < l && EndsBeyond(m, j, b) ==> EndsBeyond(m, l, b))
  }

  lemma {:induction false} RegularIsUnobstructed(m: Content, o: nat, n: nat)
    requires Regular(m)
    ensures Unobstructed(m, o, n)
  {
  }

  /** One search can spoil the next: it leaves an empty group behind, which hides a cell from a search
      further up. */
  lemma {:induction false} SearchSpoilsSearch()
    ensures var m: Content := map[0 := {16}];
            var after: Content := m[8 := {}];
            && Unobstructed(m, 8, 1) && Unobstructed(m, 12, 1) && Reported(m, 12, 1, Cell(0, 16))
            && Holds(after, Cell(0, 16)) && Cell(0, 16).Overlaps(12, 1)
            && !Unobstructed(after, 12, 1) && !Reported(after, 12, 1, Cell(0, 16))
  {
    var m: Content := map[0 := {16}];
    var after: Content := m[8 := {}];
    assert EndsBeyond(after, 0, 12) by {
      assert 16 in after[0];
    }
    assert !EndsBeyond(after, 8, 12);
    assert !Meets(after, 8, 12, 1);
  }

  // ----- the index -----

  /** `m` with a group at `o`, empty unless there was one. */
  ghost function Touched(m: Content, o: nat): Content {
    if o in m then m else m[o := {}]
  }

  ghost function WithCell(m: Content, c: Cell): Content {
    m[c.offset := (if c.offset in m then m[c.offset] else {}) + {c.size}]
  }

  ghost function WithoutCell(m: Content, c: Cell): Content {
    m[c.offset := (if c.offset in m then m[c.offset] else {}) - {c.size}]
  }

  lemma {:induction false} GroupAt(groups: seq<Group>, i: nat)
    requires Sorted(groups) && i < |groups|
    ensures groups[i].offset in ContentOf(groups) && ContentOf(groups)[groups[i].offset] == groups[i].sizes
  {
  }

  /** The group of an offset in the content. */
  lemma {:induction false} GroupOf(groups: seq<Group>, k: nat) returns (i: nat)
    requires Sorted(groups) && k in ContentOf(groups)
    ensures i < |groups| && groups[i].offset == k && groups[i].sizes == ContentOf(groups)[k]
  {
    i :| 0 <= i < |groups| && groups[i].offset == k;
  }

  ghost function Inserted(groups: seq<Group>, i: nat, o: nat): seq<Group>
    requires i <= |groups|
  {
    groups[..i] + [Group(o, {})] + groups[i..]
  }

  lemma {:induction false} InsertedAt(groups: seq<Group>, i: nat, o: nat, j: nat)
    requires i <= |groups| && j <= |groups|
    ensures Inserted(groups, i, o)[j] == if j < i then groups[j] else if j == i then Group(o, {}) else groups[j - 1]
  {
  }

  lemma {:induction false} InsertedSorted(groups: seq<Group>, i: nat, o: nat)
    requires Sorted(groups) && i <= |groups|
    requires (forall j :: 0 <= j < i ==> groups[j].offset < o) && (i < |groups| ==> o < groups[i].offset)
    ensures Sorted(Inserted(groups, i, o))
  {
    var more := Inserted(groups, i, o);
    assert forall j :: i <= j < |groups| ==> o < groups[j].offset;
    hide Inserted;
    assert |more| == |groups| + 1 by {
      InsertedLength(groups, i, o);
    }
    forall a, b | 0 <= a < b < |more| ensures more[a].offset < more[b].offset {
      InsertedAt(groups, i, o, a);
      InsertedAt(groups, i, o, b);
    }
  }

  lemma {:induction false} InsertedLength(groups: seq<Group>, i: nat, o: nat)
    requires i <= |groups|
    ensures |Inserted(groups, i, o)| == |groups| + 1
  {
  }

  lemma {:induction false} OffsetIsNew(groups: seq<Group>, i: nat, o: nat)
    requires Sorted(groups) && i <= |groups|
    requires (forall j :: 0 <= j < i ==> groups[j].offset < o) && (i < |groups| ==> o < groups[i].offset)
    ensures o !in ContentOf(groups)
  {
  }

  lemma {:induction false} GroupInserted(groups: seq<Group>, i: nat, o: nat)
    requires Sorted(groups) && i <= |groups|
    requires (forall j :: 0 <= j < i ==> groups[j].offset < o) && (i < |groups| ==> o < groups[i].offset)
    ensures var more := Inserted(groups, i, o);
            Sorted(more) && o !in ContentOf(groups) && ContentOf(more) == ContentOf(groups)[o := {}]
  {
    InsertedSorted(groups, i, o);
    OffsetIsNew(groups, i, o);
    InsertedLength(groups, i, o);
    hide Sorted, ContentOf, Inserted;
    var more := Inserted(groups, i, o);
    var a, b := ContentOf(more), ContentOf(groups)[o := {}];
    forall k | k in b ensures k in a && a[k] == b[k] {
      if k == o {
        InsertedAt(groups, i, o, i);
        GroupAt(more, i);
      } else {
        var j := GroupOf(groups, k);
        InsertedAt(groups, i, o, if j < i then j else j + 1);
        GroupAt(more, if j < i then j else j + 1);
      }
    }
    forall k | k in a ensures k in b {
      var j := GroupOf(more, k);
      InsertedAt(groups, i, o, j);
      if j != i {
        GroupAt(groups, if j < i then j else j - 1);
      }
    }
  }

  lemma {:induction false} ChangedSorted(groups: seq<Group>, i: nat, sizes: set<nat>)
    requires Sorted(groups) && i < |groups|
    ensures Sorted(groups[i := Group(groups[i].offset, sizes)])
  {
    var changed := groups[i := Group(groups[i].offset, sizes)];
    forall a, b | 0 <= a < b < |changed| ensures changed[a].offset < changed[b].offset {
      assert changed[a].offset == groups[a].offset && changed[b].offset == groups[b].offset;
    }
  }

  lemma {:induction false} GroupChanged(groups: seq<Group>, i: nat, sizes: set<nat>)
    requires Sorted(groups) && i < |groups|
    ensures var changed := groups[i := Group(groups[i].offset, sizes)];
            Sorted(changed) && ContentOf(changed) == ContentOf(groups)[groups[i].offset := sizes]
  {
    var changed := groups[i := Group(groups[i].offset, sizes)];
    ChangedSorted(groups, i, sizes);
    OffsetsDiffer(groups, i);
    hide Sorted, ContentOf;
    var a, b := ContentOf(changed), ContentOf(groups)[groups[i].offset := sizes];
    forall k | k in b ensures k in a && a[k] == b[k] {
      if k == groups[i].offset {
        GroupAt(changed, i);
      } else {
        var j := GroupOf(groups, k);
        GroupAt(changed, j);
      }
    }
    forall k | k in a ensures k in b {
      var j := GroupOf(changed, k);
      GroupAt(groups, j);
    }
  }

  lemma {:induction false} OffsetsDiffer(groups: seq<Group>, i: nat)
    requires Sorted(groups) && i < |groups|
    ensures forall j :: 0 <= j < |groups| && j != i ==> groups[j].offset != groups[i].offset
  {
  }

  // ----- searching -----

  ghost predicate InGroup(g: Group, x: Cell) {
    x.offset == g.offset && x.size in g.sizes
  }

  ghost predicate GroupMeets(g: Group, o: nat, n: nat) {
    exists w :: w in g.sizes && Cell(g.offset, w).Overlaps(o, n)
  }

  /** `x` is a cell other than `c` in one of the groups from `lo` to `hi` and overlaps the query. */
  ghost predicate Taken(groups: seq<Group>, lo: nat, hi: nat, o: nat, n: nat, c: Cell, x: Cell)
    requires hi <= |groups|
  {
    x != c && x.Overlaps(o, n) && exists l :: lo <= l < hi && InGroup(groups[l], x)
  }

  ghost predicate AllMeet(groups: seq<Group>, lo: nat, hi: nat, o: nat, n: nat)
    requires hi <= |groups|
  {
    forall l :: lo <= l < hi ==> GroupMeets(groups[l], o, n)
  }

  /** The range of groups that the search visits: all of them meet the query, and it ends at the edge of
      the index or at a group that does not. */
  ghost predicate Searched(groups: seq<Group>, lo: nat, at: nat, hi: nat, o: nat, n: nat) {
    && lo <= at < hi <= |groups| && groups[at].offset == o
    && AllMeet(groups, lo, at, o, n) && AllMeet(groups, at + 1, hi, o, n)
    && (lo > 0 ==> !GroupMeets(groups[lo - 1], o, n))
    && (hi < |groups| ==> !GroupMeets(groups[hi], o, n))
  }

  lemma {:induction false} GroupMeetsContent(groups: seq<Group>, l: nat, o: nat, n: nat)
    requires Sorted(groups) && l < |groups|
    ensures GroupMeets(groups[l], o, n) <==> Meets(ContentOf(groups), groups[l].offset, o, n)
  {
    GroupAt(groups, l);
  }

  lemma {:induction false} TakenIsReported(groups: seq<Group>, lo: nat, at: nat, hi: nat, o: nat, n: nat, x: Cell)
    requires Sorted(groups) && hi <= |groups| && Searched(groups, lo, at, hi, o, n)
    ensures Taken(groups, lo, hi, o, n, Cell(o, n), x) <==> Reported(ContentOf(groups), o, n, x)
  {
    hide ContentOf, Visible, Searched;
    if Taken(groups, lo, hi, o, n, Cell(o, n), x) {
      var i :| lo <= i < hi && InGroup(groups[i], x);
      GroupAt(groups, i);
      SearchedIsVisible(groups, lo, at, hi, o, n, i);
    }
    if Reported(ContentOf(groups), o, n, x) {
      var i := GroupOf(groups, x.offset);
      HoldingMeets(ContentOf(groups), o, n, x);
      VisibleIsSearched(groups, lo, at, hi, o, n, i);
    }
  }

  lemma {:induction false} SearchedIsVisible(groups: seq<Group>, lo: nat, at: nat, hi: nat, o: nat, n: nat, i: nat)
    requires Sorted(groups) && Searched(groups, lo, at, hi, o, n) && lo <= i < hi
    ensures Visible(ContentOf(groups), groups[i].offset, o, n)
  {
    hide ContentOf, GroupMeets, Meets;
    var m, k := ContentOf(groups), groups[i].offset;
    forall l | l in m && (k < l < o || o < l < k) ensures Meets(m, l, o, n) {
      var j := GroupOf(groups, l);
      GroupMeetsContent(groups, j, o, n);
    }
  }

  lemma {:induction false} VisibleIsSearched(groups: seq<Group>, lo: nat, at: nat, hi: nat, o: nat, n: nat, i: nat)
    requires Sorted(groups) && Searched(groups, lo, at, hi, o, n) && i < |groups|
    requires Visible(ContentOf(groups), groups[i].offset, o, n) && Meets(ContentOf(groups), groups[i].offset, o, n)
    ensures lo <= i < hi
  {
    hide ContentOf, GroupMeets, Meets, AllMeet;
    GroupMeetsContent(groups, i, o, n);
    if lo > 0 {
      GroupAt(groups, lo - 1);
      GroupMeetsContent(groups, lo - 1, o, n);
    }
    if hi < |groups| {
      GroupAt(groups, hi);
      GroupMeetsContent(groups, hi, o, n);
    }
  }

  lemma {:induction false} HoldingMeets(m: Content, o: nat, n: nat, x: Cell)
    requires Holds(m, x) && x.Overlaps(o, n)
    ensures Meets(m, x.offset, o, n)
  {
  }

  /** Whether the query itself is among the cells makes no difference to what is reported. */
  lemma {:induction false} ReportedWithout(m: Content, o: nat, n: nat, x: Cell)
    ensures Reported(WithCell(m, Cell(o, n)), o, n, x) <==> Reported(m, o, n, x)
  {
    var m' := WithCell(m, Cell(o, n));
    forall l | l != o ensures Meets(m', l, o, n) <==> Meets(m, l, o, n) {
    }
    assert Holds(m', x) && x != Cell(o, n) <==> Holds(m, x) && x != Cell(o, n);
  }

  class OffsetMap {
    var groups: seq<Group>

    ghost predicate Valid()
      reads this
    {
      Sorted(groups)
    }

    ghost function M(): Content
      reads this
      requires Valid()
    {
      ContentOf(groups)
    }

    constructor ()
      ensures Valid() && M() == map[]
    {
      groups := [];
    }

    /** The first group at or after `o`. */
    method LowerBound(o: nat) returns (i: nat)
      requires Valid()
      ensures i <= |groups| && (forall j :: 0 <= j < i ==> groups[j].offset < o)
              && (i < |groups| ==> o <= groups[i].offset)
    {
      i := 0;
      while i < |groups| && groups[i].offset < o
        invariant i <= |groups| && forall j :: 0 <= j < i ==> groups[j].offset < o
      {
        i := i + 1;
      }
    }

    /** The group at `o`, created empty if there is none. */
    method Touch(o: nat) returns (i: nat)
      requires Valid()
      modifies this
      ensures Valid() && M() == Touched(old(M()), o)
      ensures i < |groups| && groups[i].offset == o
    {
      i := LowerBound(o);
      if i == |groups| || groups[i].offset != o {
        GroupInserted(groups, i, o);
        InsertedAt(groups, i, o, i);
        groups := groups[..i] + [Group(o, {})] + groups[i..];
      } else {
        GroupAt(groups, i);
      }
    }

    method GetCell(o: nat, n: nat) returns (found: bool)
      requires Valid()
      modifies this
      ensures Valid() && M() == Touched(old(M()), o)
      ensures found <==> Holds(old(M()), Cell(o, n))
    {
      var i := Touch(o);
      GroupAt(groups, i);
      found := n in groups[i].sizes;
    }

    method InsertCell(c: Cell)
      requires Valid()
      modifies this
      ensures Valid() && M() == WithCell(old(M()), c)
    {
      var i := Touch(c.offset);
      GroupAt(groups, i);
      GroupChanged(groups, i, groups[i].sizes + {c.size});
      groups := groups[i := Group(groups[i].offset, groups[i].sizes + {c.size})];
    }

    /** Erases a cell; its group stays. */
    method RemoveCell(c: Cell)
      requires Valid()
      modifies this
      ensures Valid() && M() == WithoutCell(old(M()), c)
    {
      var i := Touch(c.offset);
      GroupAt(groups, i);
      GroupChanged(groups, i, groups[i].sizes - {c.size});
      groups := groups[i := Group(groups[i].offset, groups[i].sizes - {c.size})];
    }

    method MakeCell(o: nat, n: nat) returns (c: Cell)
      requires Valid()
      modifies this
      ensures Valid() && c == Cell(o, n) && M() == WithCell(old(M()), c)
    {
      c := Cell(o, n);
      var found := GetCell(o, n);
      if !found {
        InsertCell(c);
      } else {
        AlreadyHeld(old(M()), c);
      }
    }

    method RemoveCells(cells: seq<Cell>)
      requires Valid()
      modifies this
      ensures Valid() && forall x :: Holds(M(), x) <==> Holds(old(M()), x) && x !in cells
      ensures forall k :: k in M() ==> k in old(M()) || exists c :: c in cells && c.offset == k
    {
      var i := 0;
      while i < |cells|
        invariant Valid() && 0 <= i <= |cells|
        invariant forall k :: k in M() ==> k in old(M()) || exists c :: c in cells && c.offset == k
        invariant forall x :: Holds(M(), x) <==> Holds(old(M()), x) && x !in cells[..i]
      {
        RemoveCell(cells[i]);
        assert cells[..i + 1] == cells[..i] + [cells[i]];
        i := i + 1;
      }
      assert cells[..i] == cells;
    }

    /** Adds to `out` the cells of a group, other than `c`, that overlap the query. */
    method Collect(g: Group, o: nat, n: nat, c: Cell, out: seq<Cell>) returns (more: seq<Cell>, any: bool)
      requires NoDup(out)
      ensures NoDup(more) && (any <==> GroupMeets(g, o, n))
      ensures forall x :: x in more <==> x in out || (InGroup(g, x) && x != c && x.Overlaps(o, n))
      ensures (forall x :: InGroup(g, x) && x != c && x.Overlaps(o, n) ==> x in out) ==> more == out
    {
      more, any := out, false;
      var sizes := g.sizes;
      while sizes != {}
        invariant sizes <= g.sizes && NoDup(more)
        invariant any <==> exists w :: w in g.sizes && w !in sizes && Cell(g.offset, w).Overlaps(o, n)
        invariant forall x ::
                    x in more <==> x in out || (InGroup(g, x) && x.size !in sizes && x != c && x.Overlaps(o, n))
        invariant (forall x :: InGroup(g, x) && x != c && x.Overlaps(o, n) ==> x in out) ==> more == out
        decreases sizes
      {
        var w :| w in sizes;
        sizes := sizes - {w};
        var x := Cell(g.offset, w);
        if x.Overlaps(o, n) {
          if x != c && x !in more {
            more := more + [x];
          }
          any := true;
        }
      }
    }

    /** The search downwards from group `at`, which holds the query itself. */
    method CollectDown(at: nat, o: nat, n: nat, c: Cell) returns (out: seq<Cell>, ghost lo: nat)
      requires Valid() && at < |groups| && groups[at].offset == o && (n > 0 ==> GroupMeets(groups[at], o, n))
      ensures lo <= at && AllMeet(groups, lo, at, o, n) && (lo > 0 && n > 0 ==> !GroupMeets(groups[lo - 1], o, n))
      ensures NoDup(out) && forall x :: x in out <==> Taken(groups, lo, at + 1, o, n, c, x)
    {
      hide GroupMeets, InGroup, Sorted, Taken, NoDup;
      out := [];
      var i := at + 1;
      NoneTaken(groups, i, at + 1, o, n, c);
      assert NoDup(out) by {
        EmptyNoDup();
      }
      while i > 0
        invariant 0 <= i <= at + 1 && NoDup(out) && AllMeet(groups, i, at + 1, o, n)
        invariant forall x :: x in out <==> Taken(groups, i, at + 1, o, n, c, x)
      {
        var any: bool;
        i := i - 1;
        out, any := Collect(groups[i], o, n, c, out);
        TakenDown(groups, i, at + 1, o, n, c);
        assert forall x :: x in out <==> Taken(groups, i, at + 1, o, n, c, x);
        if !any {
          NotMeeting(groups, i, at + 1, o, n, c);
          if i < at {
            lo := i + 1;
          } else {
            lo := at;
          }
          return;
        }
      }
      lo := 0;
    }

    /** The search upwards from group `from`; gives up at an offset beyond 32 bits. */
    method CollectUp(from: nat, o: nat, n: nat, c: Cell, found: seq<Cell>) returns (ok: bool, out: seq<Cell>, hi: nat)
      requires Valid() && from <= |groups| && NoDup(found)
      ensures from <= hi <= |groups| && AllMeet(groups, from, hi, o, n)
      ensures ok ==> hi < |groups| ==> !GroupMeets(groups[hi], o, n)
      ensures ok ==> forall l :: from <= l <= hi && l < |groups| ==> !Big(groups[l])
      ensures !ok ==> hi < |groups| && Big(groups[hi])
      ensures NoDup(out) && forall x :: x in out <==> x in found || Taken(groups, from, hi, o, n, c, x)
      ensures (forall x :: Taken(groups, from, hi, o, n, c, x) ==> x in found) ==> out == found
    {
      hide GroupMeets, InGroup, Sorted, Taken, NoDup;
      out := found;
      hi := from;
      NoneTaken(groups, from, from, o, n, c);
      while hi < |groups|
        invariant from <= hi <= |groups| && NoDup(out) && AllMeet(groups, from, hi, o, n)
        invariant forall x :: x in out <==> x in found || Taken(groups, from, hi, o, n, c, x)
        invariant (forall x :: Taken(groups, from, hi, o, n, c, x) ==> x in found) ==> out == found
        invariant forall l :: from <= l < hi ==> !Big(groups[l])
      {
        if groups[hi].sizes != {} && groups[hi].offset > INT32_MAX {
          return false, out, hi;
        }
        var more, any := Collect(groups[hi], o, n, c, out);
        TakenUp(groups, from, hi, o, n, c);
        if !any {
          NotMeetingUp(groups, from, hi, o, n, c);
          break;
        }
        out := more;
        hi := hi + 1;
      }
      ok := true;
    }

    /** All cells that overlap `[o, o + n)` other than the cell at that very place, as far as the search
        sees them; refused if it sees an offset beyond 32 bits.  A group at `o` stays behind, empty if there
        was no cell. */
    method GetOverlapCells(o: nat, n: nat) returns (ok: bool, out: seq<Cell>)
      requires Valid()
      modifies this
      ensures Valid() && (ok <==> !Refuses(old(M()), o, n))
      ensures ok ==> M() == Touched(old(M()), o)
      ensures ok ==> NoDup(out) && forall x :: x in out <==> Reported(old(M()), o, n, x)
    {
      hide GroupMeets, InGroup, Sorted, Taken, NoDup, AllMeet, Reported, Visible, Big, Refuses;
      var c := Cell(o, n);
      var added := false;
      var found := GetCell(o, n);
      if !found {
        InsertCell(c);
        added := true;
      }
      QueryHeld(old(M()), c);
      assert M() == WithCell(old(M()), c);
      if o > INT32_MAX {
        RefusesBeyond(old(M()), o, n);
        return false, [];
      }
      var at := LowerBound(o);
      HeldGroup(groups, at, c);
      ghost var lo;
      out, lo := CollectDown(at, o, n, c);
      var hi: nat;
      ok, out, hi := CollectUp(at + 1, o, n, c, out);
      RefusesIffBig(groups, at, hi, o, n, ok);
      RefusesWithout(old(M()), o, n);
      if !ok {
        return;
      }
      ghost var before := out;
      out := CollectRest(at + 1, hi, o, n, c, out);
      assert out == before;
      forall x ensures x in out <==> Reported(old(M()), o, n, x) {
        if n > 0 {
          TakenJoined(groups, lo, at, hi, o, n, c, x);
          TakenIsReported(groups, lo, at, hi, o, n, x);
          ReportedWithout(old(M()), o, n, x);
        } else {
          NothingOverlapsNothing(groups, lo, at, hi, o, c, x, old(M()));
        }
      }
      if added {
        QueryRemoved(old(M()), c);
        RemoveCell(c);
      }
    }

    /** A last look at the groups from `from` to `to`; finds nothing that is not there already. */
    method CollectRest(from: nat, to: nat, o: nat, n: nat, c: Cell, found: seq<Cell>) returns (out: seq<Cell>)
      requires Valid() && from <= to <= |groups| && NoDup(found)
      requires forall x :: Taken(groups, from, to, o, n, c, x) ==> x in found
      ensures out == found
    {
      hide GroupMeets, Sorted, NoDup;
      out := found;
      var i := from;
      while i < to
        invariant from <= i <= to && out == found
      {
        var any: bool;
        out, any := Collect(groups[i], o, n, c, out);
        if !any {
          break;
        }
        i := i + 1;
      }
    }

    /** The largest size of a group; zero if it is empty. */
    method Largest(sizes: set<nat>) returns (largest: nat)
      ensures sizes == {} ==> largest == 0
      ensures sizes != {} ==> largest in sizes
      ensures forall w :: w in sizes ==> w <= largest
    {
      largest := 0;
      var todo := sizes;
      while todo != {}
        invariant todo <= sizes
        invariant forall w :: w in sizes && w !in todo ==> w <= largest
        invariant largest in sizes || largest == 0
        invariant sizes != {} && todo != sizes ==> largest in sizes || largest == 0
        decreases todo
      {
        var w :| w in todo;
        todo := todo - {w};
        if largest < w {
          largest := w;
        }
      }
      if sizes != {} && largest !in sizes {
        AllZero(sizes);
      }
    }

    /** All cells of the groups whose largest cell may overlap `range`; refused if some offset is beyond
        32 bits. */
    method GetOverlapCellsSymbolic(range: Interval) returns (ok: bool, out: seq<Cell>)
      requires Valid()
      ensures ok <==> AllFit(M())
      ensures ok ==> NoDup(out) && forall x :: x in out <==> Suspected(M(), range, x)
    {
      hide ContentOf, Sorted, NoDup, Suspected, GroupSuspected;
      out := [];
      assert NoDup(out) by {
        EmptyNoDup();
      }
      var i := 0;
      while i < |groups|
        invariant 0 <= i <= |groups| && NoDup(out)
        invariant forall x :: x in out <==> SuspectedBefore(groups, i, range, x)
        invariant forall l :: 0 <= l < i ==> !Big(groups[l])
      {
        var largest := Largest(groups[i].sizes);
        if groups[i].sizes != {} && groups[i].offset > INT32_MAX {
          FitIfNoneBig(groups);
          return false, out;
        }
        LargestDecides(groups[i], largest, range);
        ghost var before := out;
        if MayOverlap(Cell(groups[i].offset, largest), range) {
          out := AddAll(groups, i, range, out);
        }
        i := i + 1;
      }
      forall x ensures SuspectedBefore(groups, |groups|, range, x) <==> Suspected(M(), range, x) {
        SuspectedAll(groups, range, x);
      }
      FitIfNoneBig(groups);
      ok := true;
    }

    /** Adds all cells of group `i`. */
    method AddAll(groups: seq<Group>, i: nat, range: Interval, found: seq<Cell>) returns (out: seq<Cell>)
      requires Sorted(groups) && i < |groups| && NoDup(found)
      requires forall x :: x in found <==> SuspectedBefore(groups, i, range, x)
      ensures NoDup(out) && forall x :: x in out <==> x in found || InGroup(groups[i], x)
    {
      hide GroupSuspected;
      out := found;
      var todo := groups[i].sizes;
      while todo != {}
        invariant todo <= groups[i].sizes && NoDup(out)
        invariant forall x :: x in out <==> x in found || (InGroup(groups[i], x) && x.size !in todo)
        decreases todo
      {
        var w :| w in todo;
        todo := todo - {w};
        assert Cell(groups[i].offset, w) !in out;
        out := out + [Cell(groups[i].offset, w)];
      }
    }

    /** Removes the cells that a write may touch.  The place of the write is known if index and size are
        constant; a negative constant is refused, and so are offsets and sizes beyond 32 bits. */
    method KillAndFind(index: Interval, elemSize: Interval) returns (r: KillResult)
      requires Valid()
      modifies this
      ensures Valid()
      ensures r.Refused? <==> KillRefused(old(M()), index, elemSize)
      ensures r.Killed? ==> (r.target.Some? <==> Singleton(index) && Singleton(elemSize))
      ensures r.Killed? && r.target.Some? ==> r.target.value == Cell(index.lo.value, elemSize.lo.value)
      ensures r.Killed? ==> NoDup(r.cells) && forall x :: Holds(M(), x) <==> Holds(old(M()), x) && x !in r.cells
      ensures r.Killed? ==> forall k :: k in M() && k !in old(M()) ==> r.target.Some? && k == r.target.value.offset
      ensures r.Killed? ==> forall x :: x in r.cells <==>
                                        if r.target.Some?
                                        then Reported(old(M()), r.target.value.offset, r.target.value.size, x)
                                        else Suspected(old(M()), Hull(index, Sum(index, elemSize)), x)
    {
      hide ContentOf, Sorted, Reported, Suspected, NoDup, Refuses, AllFit;
      var cells: seq<Cell>;
      var target: Option<Cell> := None;
      if Singleton(index) && Singleton(elemSize) {
        if index.lo.value < 0 || elemSize.lo.value < 0 || elemSize.lo.value > UINT32_MAX {
          return Refused;
        }
        ghost var before := M();
        var ok: bool;
        ok, cells := GetOverlapCells(index.lo.value, elemSize.lo.value);
        if !ok {
          return Refused;
        }
        target := Some(Cell(index.lo.value, elemSize.lo.value));
        forall x ensures Holds(M(), x) <==> Holds(before, x) {
          TouchedHolds(before, index.lo.value, x);
        }
      } else {
        var ok: bool;
        ok, cells := GetOverlapCellsSymbolic(Hull(index, Sum(index, elemSize)));
        if !ok {
          return Refused;
        }
      }
      forall x | x in cells ensures x.offset in old(M()) {
        ReportedAreHeld(old(M()), index, elemSize, x);
      }
      RemoveCells(cells);
      return Killed(cells, target);
    }

    /** Prepares a write: afterwards a known place has a cell of its own. */
    method Store(index: Interval, elemSize: Interval) returns (r: KillResult)
      requires Valid()
      modifies this
      ensures Valid()
      ensures r.Refused? <==> KillRefused(old(M()), index, elemSize)
      ensures r.Killed? && r.target.Some? ==> Holds(M(), r.target.value)
      ensures r.Killed? && r.target.None? ==> NothingTouched(M(), index, elemSize)
      ensures r.Killed? && r.target.Some? && NonEmptyCells(old(M())) && r.target.value.size > 0
              && Unobstructed(old(M()), r.target.value.offset, r.target.value.size)
              ==> forall x :: Holds(M(), x) && x.Overlaps(r.target.value.offset, r.target.value.size) ==>
                                x == r.target.value
      ensures r.Killed? ==> forall x :: Holds(M(), x) && Some(x) != r.target ==> Holds(old(M()), x)
    {
      hide ContentOf, Sorted, Reported, Suspected, NoDup, KillRefused, NothingTouched, Unobstructed, NonEmptyCells;
      ghost var before := M();
      r := KillAndFind(index, elemSize);
      if r.Killed? {
        if r.target.Some? {
          ghost var killed := M();
          var cell := MakeCell(r.target.value.offset, r.target.value.size);
          assert forall x :: Holds(M(), x) <==> Holds(killed, x) || x == cell;
          if NonEmptyCells(before) && cell.size > 0 && Unobstructed(before, cell.offset, cell.size) {
            CompleteIffUnobstructed(before, cell.offset, cell.size);
          }
        } else {
          SurvivorsUntouched(before, M(), index, elemSize, r.cells);
        }
      }
    }
  }

  /** Whether removing the cells under a write is refused. */
  ghost predicate KillRefused(m: Content, index: Interval, elemSize: Interval) {
    if Singleton(index) && Singleton(elemSize) then
      || index.lo.value < 0 || elemSize.lo.value < 0 || elemSize.lo.value > UINT32_MAX
      || Refuses(m, index.lo.value, elemSize.lo.value)
    else !AllFit(m)
  }

  /** In numbers: a constant place is refused if offset or size do not fit 31 and 32 bits, and if the next group
      with cells does not; other writes are refused exactly if some group with cells does not. */
  lemma {:induction false} RefusedInNumbers(m: Content, o: int, n: int, k: nat)
    ensures var place := KillRefused(m, Interval(At(o), At(o)), Interval(At(n), At(n)));
            && (o < 0 || o >= 0x8000_0000 || n < 0 || n >= 0x1_0000_0000 ==> place)
            && (k in m && m[k] != {} && k >= 0x8000_0000 && (forall l :: l in m && o < l ==> k <= l)
                ==> place)
    ensures forall index, size ::
              !(Singleton(index) && Singleton(size)) ==>
                (KillRefused(m, index, size) <==> exists l :: l in m && m[l] != {} && l >= 0x8000_0000)
  {
  }

  datatype KillResult = Refused | Killed(cells: seq<Cell>, target: Option<Cell>)

  lemma {:induction false} ReportedAreHeld(m: Content, index: Interval, elemSize: Interval, x: Cell)
    ensures forall o, n :: Reported(m, o, n, x) ==> x.offset in m
    ensures Suspected(m, Hull(index, Sum(index, elemSize)), x) ==> x.offset in m
  {
    hide Visible;
  }

  lemma {:induction false} TouchedHolds(m: Content, o: nat, x: Cell)
    ensures Holds(Touched(m, o), x) <==> Holds(m, x)
  {
  }

  /** No cell covers a byte that a write at some offset in `index` of some size in `elemSize` touches. */
  ghost predicate NothingTouched(m: Content, index: Interval, elemSize: Interval) {
    forall x, b: nat, i: int, n: int {:trigger x.Covers(b), index.Has(i), elemSize.Has(n)} ::
      Holds(m, x) && x.Covers(b) && index.Has(i) && elemSize.Has(n) ==> !(i <= b < i + n)
  }

  lemma {:induction false} TouchedInRange(index: Interval, elemSize: Interval, i: int, n: int, b: nat)
    requires index.Has(i) && elemSize.Has(n) && i <= b < i + n
    ensures Hull(index, Sum(index, elemSize)).Has(b)
  {
  }

  lemma {:induction false} CoveringIsSuspected(m: Content, range: Interval, x: Cell, b: nat)
    requires Holds(m, x) && x.Covers(b) && range.Has(b)
    ensures Suspected(m, range, x)
  {
    MayOverlapIsCommonByte(x, range);
  }

  lemma {:induction false} SurvivorsUntouched(
    m: Content, m': Content, index: Interval, elemSize: Interval, cells: seq<Cell>)
    requires forall x :: x in cells <==> Suspected(m, Hull(index, Sum(index, elemSize)), x)
    requires forall x :: Holds(m', x) <==> Holds(m, x) && x !in cells
    ensures NothingTouched(m', index, elemSize)
  {
    hide Suspected;
    var range := Hull(index, Sum(index, elemSize));
    forall x, b: nat, i: int, n: int | Holds(m', x) && x.Covers(b) && index.Has(i) && elemSize.Has(n)
      ensures !(i <= b < i + n) {
      if i <= b < i + n {
        TouchedInRange(index, elemSize, i, n, b);
        CoveringIsSuspected(m, range, x, b);
        assert false;
      }
    }
  }

  /** A write at some offset in `index` of some size in `elemSize` reaches byte `b` or ends before it. */
  ghost predicate Reaches(index: Interval, elemSize: Interval, b: int) {
    exists i, n {:trigger index.Has(i), elemSize.Has(n)} :: index.Has(i) && elemSize.Has(n) && i <= b <= i + n
  }

  /** The range that the search for a write of unknown place takes holds exactly those bytes. */
  lemma {:induction false} RangeIsReached(index: Interval, elemSize: Interval, i: int, n: int, b: int)
    requires index.Has(i) && elemSize.Has(n) && elemSize.lo.At? && elemSize.lo.value >= 0
    ensures Hull(index, Sum(index, elemSize)).Has(b) <==> Reaches(index, elemSize, b)
  {
    if Hull(index, Sum(index, elemSize)).Has(b) {
      var j := if index.hi.At? && index.hi.value < b then index.hi.value
      else if index.lo.At? && b < index.lo.value then index.lo.value else b;
      var k := if elemSize.hi.At? then elemSize.hi.value else if n < b - j then b - j else n;
      assert index.Has(j) && elemSize.Has(k) && j <= b <= j + k;
    }
  }

  /** Such a write removes a cell exactly if a cell at the same offset covers a byte so reached; for bounded
      intervals, a byte from the smallest offset to the largest offset plus the largest size. */
  lemma {:induction false} SuspectedIsReached(m: Content, index: Interval, elemSize: Interval, i: int, n: int, x: Cell)
    requires index.Has(i) && elemSize.Has(n) && elemSize.lo.At? && elemSize.lo.value >= 0
    ensures Suspected(m, Hull(index, Sum(index, elemSize)), x) <==>
            Holds(m, x) && exists w: nat, b: nat ::
              Holds(m, Cell(x.offset, w)) && Cell(x.offset, w).Covers(b) && Reaches(index, elemSize, b)
    ensures index.lo.At? && index.hi.At? && elemSize.hi.At? ==>
              (Suspected(m, Hull(index, Sum(index, elemSize)), x) <==>
               Holds(m, x) && exists w: nat, b: nat ::
                 Holds(m, Cell(x.offset, w)) && Cell(x.offset, w).Covers(b)
                 && index.lo.value <= b <= index.hi.value + elemSize.hi.value)
  {
    var range := Hull(index, Sum(index, elemSize));
    forall b ensures range.Has(b) <==> Reaches(index, elemSize, b) {
      RangeIsReached(index, elemSize, i, n, b);
    }
    forall b | index.lo.At? && index.hi.At? && elemSize.hi.At?
      ensures range.Has(b) <==> index.lo.value <= b <= index.hi.value + elemSize.hi.value {
    }
    SuspectedByBytes(m, range, x);
    hide Suspected, Reaches;
  }

  lemma {:induction false} SuspectedByBytes(m: Content, range: Interval, x: Cell)
    ensures Suspected(m, range, x) <==>
            Holds(m, x) && exists w: nat, b: nat ::
              Holds(m, Cell(x.offset, w)) && Cell(x.offset, w).Covers(b) && range.Has(b)
  {
    if Suspected(m, range, x) {
      var w :| w in m[x.offset] && MayOverlap(Cell(x.offset, w), range);
      MayOverlapIsCommonByte(Cell(x.offset, w), range);
      assert Holds(m, Cell(x.offset, w));
    }
    if Holds(m, x) {
      forall w: nat, b: nat | Holds(m, Cell(x.offset, w)) && Cell(x.offset, w).Covers(b) && range.Has(b)
        ensures Suspected(m, range, x) {
        MayOverlapIsCommonByte(Cell(x.offset, w), range);
      }
    }
  }

  /** The cell and the range have a byte in common. */
  predicate MayOverlap(c: Cell, range: Interval) {
    !Common(Interval(At(c.offset), At(c.offset + c.size - 1)), range).Empty()
  }

  lemma {:induction false} MayOverlapIsCommonByte(c: Cell, range: Interval)
    ensures MayOverlap(c, range) <==> exists b: nat :: c.Covers(b) && range.Has(b)
  {
    if MayOverlap(c, range) {
      var b := if range.lo.At? && range.lo.value > c.offset then range.lo.value else c.offset;
      assert c.Covers(b) && range.Has(b);
    }
  }

  ghost predicate GroupSuspected(g: Group, range: Interval) {
    exists w :: w in g.sizes && MayOverlap(Cell(g.offset, w), range)
  }

  ghost predicate SuspectedBefore(groups: seq<Group>, n: nat, range: Interval, x: Cell)
    requires n <= |groups|
  {
    exists i :: 0 <= i < n && InGroup(groups[i], x) && GroupSuspected(groups[i], range)
  }

  /** `x` shares its offset with a cell that may overlap. */
  ghost predicate Suspected(m: Content, range: Interval, x: Cell) {
    Holds(m, x) && GroupSuspected(Group(x.offset, m[x.offset]), range)
  }

  lemma {:induction false} SuspectedAll(groups: seq<Group>, range: Interval, x: Cell)
    requires Sorted(groups)
    ensures SuspectedBefore(groups, |groups|, range, x) <==> Suspected(ContentOf(groups), range, x)
  {
    hide ContentOf, Sorted, GroupSuspected;
    if SuspectedBefore(groups, |groups|, range, x) {
      var i :| 0 <= i < |groups| && InGroup(groups[i], x) && GroupSuspected(groups[i], range);
      GroupAt(groups, i);
      assert groups[i] == Group(x.offset, ContentOf(groups)[x.offset]);
    }
    if Suspected(ContentOf(groups), range, x) {
      var i := GroupOf(groups, x.offset);
      assert groups[i] == Group(x.offset, ContentOf(groups)[x.offset]);
    }
  }

  /** The largest cell overlaps if any cell of the group does. */
  lemma {:induction false} LargestDecides(g: Group, largest: nat, range: Interval)
    requires (g.sizes != {} ==> largest in g.sizes) && (g.sizes == {} ==> largest == 0) && forall w ::
               w in g.sizes ==> w <= largest
    ensures GroupSuspected(g, range) <==> MayOverlap(Cell(g.offset, largest), range)
  {
    if w :| w in g.sizes && MayOverlap(Cell(g.offset, w), range) {
      assert w <= largest;
    }
  }

  lemma {:induction false} AllZero(sizes: set<nat>)
    requires sizes != {} && forall w :: w in sizes ==> w == 0
    ensures 0 in sizes
  {
  }

  /** A group with cells whose offset does not fit a 32-bit integer. */
  ghost predicate Big(g: Group) {
    g.sizes != {} && g.offset > INT32_MAX
  }

  /** The offsets of all cells fit 32-bit integers. */
  ghost predicate AllFit(m: Content) {
    forall k :: k in m && m[k] != {} ==> k <= INT32_MAX
  }

  lemma {:induction false} FitIfNoneBig(groups: seq<Group>)
    requires Sorted(groups)
    ensures AllFit(ContentOf(groups)) <==> forall l :: 0 <= l < |groups| ==> !Big(groups[l])
  {
    hide ContentOf, Sorted;
    var m := ContentOf(groups);
    if AllFit(m) {
      forall l | 0 <= l < |groups| ensures !Big(groups[l]) {
        GroupAt(groups, l);
      }
    }
    if forall l :: 0 <= l < |groups| ==> !Big(groups[l]) {
      forall k | k in m && m[k] != {} ensures k <= INT32_MAX {
        var l := GroupOf(groups, k);
      }
    }
  }

  lemma {:induction false} RefusesBeyond(m: Content, o: nat, n: nat)
    requires o > INT32_MAX
    ensures Refuses(m, o, n)
  {
  }

  lemma {:induction false} RefusesIffBig(groups: seq<Group>, at: nat, hi: nat, o: nat, n: nat, ok: bool)
    requires Sorted(groups) && at < hi <= |groups| && groups[at].offset == o <= INT32_MAX
             && AllMeet(groups, at + 1, hi, o, n)
    requires ok && hi < |groups| ==> !GroupMeets(groups[hi], o, n)
    requires ok ==> forall l :: at + 1 <= l <= hi && l < |groups| ==> !Big(groups[l])
    requires !ok ==> hi < |groups| && Big(groups[hi])
    ensures ok <==> !Refuses(ContentOf(groups), o, n)
  {
    hide ContentOf, GroupMeets, Meets;
    var m := ContentOf(groups);
    if ok {
      forall k | k in m && k > INT32_MAX && m[k] != {} ensures !Visible(m, k, o, n) {
        var i := GroupOf(groups, k);
        assert Big(groups[i]);
        assert hi < i;
        GroupAt(groups, hi);
        GroupMeetsContent(groups, hi, o, n);
      }
    } else {
      var k := groups[hi].offset;
      GroupAt(groups, hi);
      forall l | l in m && (k < l < o || o < l < k) ensures Meets(m, l, o, n) {
        var j := GroupOf(groups, l);
        GroupMeetsContent(groups, j, o, n);
      }
      assert Visible(m, k, o, n);
    }
  }

  lemma {:induction false} RefusesWithout(m: Content, o: nat, n: nat)
    requires o <= INT32_MAX
    ensures Refuses(WithCell(m, Cell(o, n)), o, n) <==> Refuses(m, o, n)
  {
    var m' := WithCell(m, Cell(o, n));
    forall k | k != o ensures Visible(m', k, o, n) <==> Visible(m, k, o, n) {
      forall l | l != o ensures Meets(m', l, o, n) <==> Meets(m, l, o, n) {
      }
    }
  }

  lemma {:induction false} EmptyNoDup()
    ensures NoDup<Cell>([])
  {
  }

  lemma {:induction false} NoneTaken(groups: seq<Group>, lo: nat, hi: nat, o: nat, n: nat, c: Cell)
    requires lo >= hi && hi <= |groups|
    ensures forall x :: !Taken(groups, lo, hi, o, n, c, x)
  {
  }

  lemma {:induction false} TakenDown(groups: seq<Group>, lo: nat, hi: nat, o: nat, n: nat, c: Cell)
    requires lo < hi <= |groups|
    ensures forall x :: Taken(groups, lo, hi, o, n, c, x) <==>
                        Taken(groups, lo + 1, hi, o, n, c, x) || (InGroup(groups[lo], x) && x != c && x.Overlaps(o, n))
  {
  }

  lemma {:induction false} TakenUp(groups: seq<Group>, lo: nat, hi: nat, o: nat, n: nat, c: Cell)
    requires lo <= hi < |groups|
    ensures forall x :: Taken(groups, lo, hi + 1, o, n, c, x) <==>
                        Taken(groups, lo, hi, o, n, c, x) || (InGroup(groups[hi], x) && x != c && x.Overlaps(o, n))
  {
  }

  /** A group that does not meet the query adds nothing below. */
  lemma {:induction false} NotMeeting(groups: seq<Group>, i: nat, hi: nat, o: nat, n: nat, c: Cell)
    requires i < hi <= |groups| && !GroupMeets(groups[i], o, n)
    ensures forall x :: Taken(groups, i, hi, o, n, c, x) <==> Taken(groups, i + 1, hi, o, n, c, x)
  {
  }

  lemma {:induction false} NotMeetingUp(groups: seq<Group>, lo: nat, i: nat, o: nat, n: nat, c: Cell)
    requires lo <= i < |groups| && !GroupMeets(groups[i], o, n)
    ensures forall x :: InGroup(groups[i], x) ==> !x.Overlaps(o, n)
  {
  }

  lemma {:induction false} TakenJoined(groups: seq<Group>, lo: nat, at: nat, hi: nat, o: nat, n: nat, c: Cell, x: Cell)
    requires lo <= at < hi <= |groups|
    ensures Taken(groups, lo, hi, o, n, c, x) <==>
            Taken(groups, lo, at + 1, o, n, c, x) || Taken(groups, at + 1, hi, o, n, c, x)
  {
  }

  lemma {:induction false} NothingOverlapsNothing(
    groups: seq<Group>, lo: nat, at: nat, hi: nat, o: nat, c: Cell, x: Cell, m: Content)
    requires lo <= at < hi <= |groups|
    ensures !Taken(groups, lo, at + 1, o, 0, c, x) && !Taken(groups, at + 1, hi, o, 0, c, x) && !Reported(m, o, 0, x)
  {
  }

  lemma {:induction false} QueryHeld(m: Content, c: Cell)
    ensures Holds(m, c) ==> WithCell(m, c) == Touched(m, c.offset)
    ensures WithCell(Touched(m, c.offset), c) == WithCell(m, c)
  {
    if Holds(m, c) {
      AlreadyHeld(m, c);
    }
  }

  lemma {:induction false} QueryRemoved(m: Content, c: Cell)
    requires !Holds(m, c)
    ensures WithoutCell(WithCell(m, c), c) == Touched(m, c.offset)
  {
    if c.offset in m {
      assert m[c.offset] + {c.size} - {c.size} == m[c.offset];
    }
  }

  lemma {:induction false} HeldGroup(groups: seq<Group>, at: nat, c: Cell)
    requires Sorted(groups) && Holds(ContentOf(groups), c) && at <= |groups|
    requires (forall j :: 0 <= j < at ==> groups[j].offset < c.offset)
             && (at < |groups| ==> c.offset <= groups[at].offset)
    ensures at < |groups| && groups[at].offset == c.offset && c.size in groups[at].sizes
    ensures c.size > 0 ==> GroupMeets(groups[at], c.offset, c.size)
  {
    var i := GroupOf(groups, c.offset);
    assert Cell(groups[i].offset, c.size).Overlaps(c.offset, c.size) || c.size == 0;
  }

  lemma {:induction false} AlreadyHeld(m: Content, c: Cell)
    requires Holds(m, c)
    ensures WithCell(m, c) == Touched(m, c.offset)
  {
    assert m[c.offset] + {c.size} == m[c.offset];
  }
}
