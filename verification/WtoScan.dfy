/** What the head computation of start_visit finds (src/cfg/wto.cpp:121-136). */
module WtoScan {
  import opened ControlFlow
  import opened WtoTree
  import opened WtoSteps
  import opened WtoInvariant
  import opened WtoFrames

  /** Every stack position belongs to one closed frame. */
  lemma {:induction false} Classify(s: State, fs: seq<Frame>, k: nat, i: nat) returns (j: nat)
    requires Shape(s, fs) && k < |fs| && i < Hi(s, fs, k)
    ensures 1 <= j <= k && !fs[j].open && fs[j].base <= i < Hi(s, fs, j) <= |s.stack|
    ensures i == fs[j].base || InSegment(s, fs, j, i)
  {
    assert Fits(s, fs, k);
    HiBound(s, fs, k);
    if fs[k].base <= i {
      j := k;
    } else {
      j := Classify(s, fs, k - 1, i);
    }
  }

  /** The open frame whose base is the level base of frame `k`. */
  function LevelFrame(fs: seq<Frame>, k: nat): (l: nat)
    requires k < |fs|
    ensures l <= k
  {
    if k == 0 || fs[k].open then k else LevelFrame(fs, k - 1)
  }

  lemma {:induction false} LevelFrameIs(fs: seq<Frame>, k: nat, m: nat)
    requires k < |fs| && fs[0].open && LevelFrame(fs, k) <= m <= k
    ensures fs[LevelFrame(fs, k)].open && fs[LevelFrame(fs, k)].base == LevelBase(fs, k) == LevelBase(fs, m)
  {
    if m < k {
      LevelFrameIs(fs, k - 1, m);
    } else if k > 0 && !fs[k].open {
      LevelFrameIs(fs, k - 1, k - 1);
    }
  }

  /** The last frame is a visit whose successors have all been pushed. */
  ghost predicate Visiting(g: Cfg, s: State, fs: seq<Frame>) {
    && |fs| >= 2
    && !fs[|fs| - 1].open
    && fs[|fs| - 1].pending == []
    && Core(g, s, fs) && Covered(g, s, fs)
  }

  /** The number that a label on the stack contributes to the scan. */
  function Mn(s: State, l: Label): nat {
    if Hd(s, l) != 0 then Hd(s, l) else Dn(s, l)
  }

  /** A label on the stack contributes a positive number no larger than its own. */
  lemma {:induction false} StackNumber(g: Cfg, s: State, fs: seq<Frame>, q: nat)
    requires Shape(s, fs) && Vertices(g, s, fs) && Heads(s, fs) && AllFinished(g, s, fs) && Numbers(g, s)
             && q < |s.stack|
    ensures 0 < Mn(s, s.stack[q]) <= Dn(s, s.stack[q])
    ensures s.stack[q] in s.data && MinDfn(s.data[s.stack[q]]) == Finite(Mn(s, s.stack[q]))
  {
    hide Numbers, Heads;
    NumbersAt(g, s, q);
    var k := Classify(s, fs, |fs| - 1, q);
    if q != fs[k].base {
      assert Finished(g, s, fs, k, q);
    } else {
      HeadAt(s, fs, k);
    }
  }

  lemma {:induction false} NumbersAt(g: Cfg, s: State, q: nat)
    requires Numbers(g, s) && q < |s.stack|
    ensures s.stack[q] in s.data && s.data[s.stack[q]].dfn.Finite? && Dn(s, s.stack[q]) > 0
  {
  }

  lemma {:induction false} HeadAt(s: State, fs: seq<Frame>, k: nat)
    requires Heads(s, fs) && 1 <= k < |fs| && !fs[k].open
    ensures Hd(s, fs[k].vertex) == 0
  {
  }

  lemma {:induction false} PositionsOrdered(g: Cfg, s: State, i: nat, j: nat)
    requires Numbers(g, s) && i < |s.stack| && j < |s.stack|
    ensures Dn(s, s.stack[i]) < Dn(s, s.stack[j]) <==> i < j
    ensures Dn(s, s.stack[i]) == Dn(s, s.stack[j]) <==> i == j
    ensures s.stack[i] == s.stack[j] <==> i == j
  {
  }

  /** A successor of the visited vertex is finished for good or still on the stack. */
  lemma {:induction false} ChildSeen(g: Cfg, s: State, fs: seq<Frame>, x: Label)
    requires g.WellFormed() && |fs| >= 1 && fs[|fs| - 1].pending == [] && Numbers(g, s) && Covered(g, s, fs)
    requires Target(g, fs, |fs| - 1, x)
    ensures x in s.data && (IsInf(s, x) || x in s.stack)
  {
    assert x in g.children;
  }

  /** A successor that is on the stack lies in the same level. */
  lemma {:induction false} ChildInLevel(g: Cfg, s: State, fs: seq<Frame>, x: Label, q: nat)
    requires |fs| >= 2 && !fs[|fs| - 1].open
    requires g.Edge(fs[|fs| - 1].vertex, x) && q < |s.stack| && s.stack[q] == x && !IsInf(s, x)
    requires Shape(s, fs) && Vertices(g, s, fs) && Levels(g, s, fs)
    ensures LevelBase(fs, |fs| - 1) <= q
  {
    hide CompTree;
    var n := |fs| - 1;
    var l := LevelFrame(fs, n);
    LevelFrameIs(fs, n, n);
    if l > 0 {
      assert Level(g, s, fs, l);
      BasesGrow(s, fs, l, n);
      assert s.stack[fs[n].base] in fs[l].comp;
      assert x in fs[l].comp;
    }
  }

  /** A position of the level that the visited vertex leads to. */
  ghost predicate LeadsTo(g: Cfg, s: State, fs: seq<Frame>, low: nat, j: nat)
    requires |fs| >= 1
  {
    && LevelBase(fs, |fs| - 1) <= j <= fs[|fs| - 1].base < |s.stack|
    && Dn(s, s.stack[j]) == low
    && Connected(g, Range(s.stack[j..]), s.stack[fs[|fs| - 1].base], s.stack[j])
  }

  lemma {:induction false} EdgeInStack(g: Cfg, stack: seq<Label>, a: nat, b: nat, j: nat)
    requires j <= a < |stack| && j <= b < |stack| && g.Edge(stack[a], stack[b])
    ensures Connected(g, Range(stack[j..]), stack[a], stack[b])
  {
    assert stack[j..][a - j] == stack[a] && stack[j..][b - j] == stack[b];
    ConnectedEdge(g, Range(stack[j..]), stack[a], stack[b]);
  }

  /** A successor whose number is at most that of the vertex leads to a position of the level. */
  lemma {:induction false} ChildLeads(g: Cfg, s: State, fs: seq<Frame>, x: Label, q: nat)
    requires |fs| >= 2 && !fs[|fs| - 1].open
    requires g.Edge(fs[|fs| - 1].vertex, x) && q < |s.stack| && s.stack[q] == x
    requires Mn(s, x) <= Dn(s, fs[|fs| - 1].vertex)
    requires Core(g, s, fs)
    ensures exists j: nat :: LeadsTo(g, s, fs, Mn(s, x), j)
  {
    hide Levels, Partitions, Links, AllFinished, Numbers, OnlyReachable, Finished, Heads, Connected, LowLink;
    var n := |fs| - 1;
    var p := fs[n].base;
    BaseBound(s, fs, n);
    NumbersAt(g, s, p);
    NumbersAt(g, s, q);
    ChildInLevel(g, s, fs, x, q);
    LevelBaseBound(s, fs, n);
    var k := Classify(s, fs, n, q);
    if q == fs[k].base {
      HeadAt(s, fs, k);
      PositionsOrdered(g, s, p, q);
      EdgeInStack(g, s.stack, p, q, q);
      assert LeadsTo(g, s, fs, Mn(s, x), q);
    } else {
      var j := FinishedLowLink(g, s, fs, k, q);
      LowLinkLevel(g, s, fs, k, q, j);
      PositionsOrdered(g, s, p, j);
      EdgeInStack(g, s.stack, p, q, j);
      ConnectedTrans(g, Range(s.stack[j..]), s.stack[p], s.stack[q], s.stack[j]);
      assert LeadsTo(g, s, fs, Mn(s, x), j);
    }
  }

  lemma {:induction false} FinishedLowLink(g: Cfg, s: State, fs: seq<Frame>, k: nat, i: nat) returns (j: nat)
    requires AllFinished(g, s, fs) && InSegment(s, fs, k, i)
    ensures LowLink(g, s, fs, k, i, j)
    ensures 0 < Hd(s, s.stack[i]) < Dn(s, s.stack[i])
  {
    hide LowLink;
    assert Finished(g, s, fs, k, i);
    j :| LowLink(g, s, fs, k, i, j);
  }

  /** The low link of a position in the last level, with its path read in the whole stack. */
  lemma {:induction false} LowLinkLevel(g: Cfg, s: State, fs: seq<Frame>, k: nat, i: nat, j: nat)
    requires Shape(s, fs) && InSegment(s, fs, k, i) && LevelBase(fs, |fs| - 1) <= i
    requires LowLink(g, s, fs, k, i, j)
    ensures LevelBase(fs, |fs| - 1) <= j < i && Dn(s, s.stack[j]) == Hd(s, s.stack[i])
    ensures Connected(g, Range(s.stack[j..]), s.stack[i], s.stack[j])
  {
    hide Connected;
    var n := |fs| - 1;
    var l := LevelFrame(fs, n);
    LevelFrameIs(fs, n, n);
    assert l <= k by {
      if k + 1 < l {
        BasesGrow(s, fs, k + 1, l);
      }
    }
    LevelFrameIs(fs, n, k);
    RangeGrows(s.stack, s.stack, j, Hi(s, fs, k), |s.stack|);
    assert s.stack[j..] == s.stack[j..|s.stack|];
    ConnectedMono(g, Range(s.stack[j..Hi(s, fs, k)]), Range(s.stack[j..]), s.stack[i], s.stack[j]);
  }
}
