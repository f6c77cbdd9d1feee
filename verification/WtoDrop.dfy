/** What becomes of the invariant when the last frame is done with. */
module WtoDrop {
  import opened ControlFlow
  import opened WtoTree
  import opened WtoSteps
  import opened WtoInvariant
  import opened WtoFrames
  import opened WtoPlace

  /** The last frame is dropped; the stack may lose labels from its top, and finished labels stay so. */
  ghost predicate Dropped(s: State, fs: seq<Frame>, s': State, fs': seq<Frame>) {
    && |fs| >= 2 && fs' == fs[..|fs| - 1]
    && s'.data.Keys == s.data.Keys
    && |s'.stack| <= |s.stack| && s'.stack == s.stack[..|s'.stack|]
    && (forall l :: IsInf(s, l) ==> IsInf(s', l))
  }

  lemma {:induction false} DropLevels(g: Cfg, s: State, fs: seq<Frame>, s': State, fs': seq<Frame>)
    requires Dropped(s, fs, s', fs') && Levels(g, s, fs)
    ensures Levels(g, s', fs')
  {
    hide CompTree;
    forall k: nat | 1 <= k < |fs'| && fs'[k].open ensures Level(g, s', fs', k) {
      assert Level(g, s, fs, k);
    }
  }

  lemma {:induction false} DropLinks(g: Cfg, s: State, fs: seq<Frame>, s': State, fs': seq<Frame>)
    requires Dropped(s, fs, s', fs') && Links(g, fs)
    ensures Links(g, fs')
  {
    forall k: nat | 1 <= k < |fs'| ensures Linked(g, fs', k) {
      assert Linked(g, fs, k);
    }
    forall k: nat, y | k < |fs'| && y in fs'[k].pending ensures Target(g, fs', k, y) {
      assert Target(g, fs, k, y);
    }
  }

  lemma {:induction false} DropCovered(g: Cfg, s: State, fs: seq<Frame>, s': State, fs': seq<Frame>)
    requires Dropped(s, fs, s', fs') && Covered(g, s, fs)
    requires forall x :: IsZero(s', x) ==> IsZero(s, x) && !(fs[|fs| - 1].open && x in fs[|fs| - 1].comp)
    ensures Covered(g, s', fs')
  {
    forall k: nat, y | k < |fs'| && Target(g, fs', k, y) && IsZero(s', y)
      ensures y in fs'[k].pending || InOpenAbove(fs', k, y)
    {
      assert Target(g, fs, k, y);
      if y !in fs[k].pending {
        var m :| k < m < |fs| && fs[m].open && y in fs[m].comp;
        assert fs'[m] == fs[m];
      }
    }
  }

  lemma {:induction false} DropShape(s: State, fs: seq<Frame>, s': State, fs': seq<Frame>)
    requires Dropped(s, fs, s', fs') && Shape(s, fs) && |s'.stack| == fs[|fs| - 1].base
    ensures Shape(s', fs') && Agree(fs, fs', |fs'|)
    ensures forall k: nat :: k < |fs'| ==> Hi(s', fs', k) == Hi(s, fs, k)
  {
    forall k: nat | k < |fs'| ensures Fits(s', fs', k) {
      assert Fits(s, fs, k);
    }
  }

  lemma {:induction false} DropFinished(g: Cfg, s: State, fs: seq<Frame>, s': State, fs': seq<Frame>)
    requires Dropped(s, fs, s', fs') && |s'.stack| == fs[|fs| - 1].base
    requires forall j :: 0 <= j < |s'.stack| ==> s.stack[j] in s.data && s'.data[s.stack[j]] == s.data[s.stack[j]]
    requires Agree(fs, fs', |fs'|)
    requires forall k: nat :: k < |fs'| ==> Hi(s', fs', k) == Hi(s, fs, k)
    requires Shape(s', fs') && AllFinished(g, s, fs)
    ensures AllFinished(g, s', fs')
  {
    hide Finished;
    forall k: nat, i: nat | InSegment(s', fs', k, i) ensures Finished(g, s', fs', k, i) {
      HiBound(s', fs', k);
      assert InSegment(s, fs, k, i);
      assert Finished(g, s, fs, k, i);
      assert KeepsBelow(s, s', Hi(s, fs, k));
      FinishedKept(g, s, fs, s', fs', k, i);
    }
  }

  /** The partitions of the frames that remain. */
  lemma {:induction false} DropStacked(g: Cfg, s: State, fs: seq<Frame>, fs': seq<Frame>)
    requires |fs| >= 2 && fs' == fs[..|fs| - 1] && Partitions(g, s, fs) && Levels(g, s, fs)
    ensures Stacked(g, s, fs')
    ensures Done(fs', s.partitions, |fs'| - 1) == Done(fs, s.partitions, |fs| - 2)
    ensures PidAt(fs', |fs'| - 1) == PidAt(fs, |fs| - 2)
  {
    var n := |fs'|;
    AgreeAt(fs, fs', n, n - 1);
    AgreeContext(fs, fs', n, s.partitions, n - 1);
    forall k: nat | k < n ensures Partition(g, s, fs', k) {
      assert Partition(g, s, fs, k);
      AgreeAt(fs, fs', n, k);
      AgreeContext(fs, fs', n, s.partitions, k);
    }
    forall k: nat | 1 <= k < n && fs'[k].open ensures OpenPartition(s, fs', k) {
      assert OpenPartition(s, fs, k);
      AgreeContext(fs, fs', n, s.partitions, k - 1);
    }
    forall k: nat | 1 <= k < n && fs'[k].open ensures fs'[k].vertex in fs'[k].comp {
      assert Level(g, s, fs, k);
    }
  }

  lemma {:induction false} ClosedDone(fs: seq<Frame>, parts: map<PartitionId, seq<Component>>)
    requires |fs| >= 2 && !fs[|fs| - 1].open
    ensures Done(fs, parts, |fs| - 1) == Done(fs, parts, |fs| - 2)
    ensures PidAt(fs, |fs| - 1) == PidAt(fs, |fs| - 2)
  {
  }

  /** A vertex on the stack lies in every open cycle. */
  lemma {:induction false} LastInComps(g: Cfg, s: State, fs: seq<Frame>, k: nat)
    requires |fs| >= 2 && !fs[|fs| - 1].open && 1 <= k < |fs| && fs[k].open
    requires Shape(s, fs) && Vertices(g, s, fs) && Levels(g, s, fs)
    ensures fs[|fs| - 1].vertex in Range(fs[k].comp)
  {
    BasesGrow(s, fs, k, |fs| - 1);
    assert Level(g, s, fs, k);
    assert s.stack[fs[|fs| - 1].base] in fs[k].comp;
  }

  /** `s'` keeps the numbers of the lowest `h` stack labels; the labels above lose theirs. */
  ghost predicate Truncated(s: State, s': State, h: nat) {
    && h <= |s.stack| && s'.stack == s.stack[..h] && s'.num == s.num && s'.data.Keys == s.data.Keys
    && (forall j :: 0 <= j < h && s.stack[j] in s.data ==> s'.data[s.stack[j]] == s.data[s.stack[j]])
    && (forall j :: h <= j < |s.stack| ==> Dn(s', s.stack[j]) == 0)
    && (forall l :: l in s.data && Dn(s', l) > 0 ==> Dn(s, l) > 0)
  }

  lemma {:induction false} TruncatedNumbers(g: Cfg, s: State, s': State, h: nat)
    requires Truncated(s, s', h) && Numbers(g, s)
    ensures Numbers(g, s')
  {
    var t := s.stack;
    forall i | 0 <= i < h ensures s'.stack[i] == t[i] && s'.data[t[i]] == s.data[t[i]] {
    }
    forall l | l in s'.data && s'.data[l].dfn.Finite? && s'.data[l].dfn.n > 0 ensures l in s'.stack {
      StaysOnStack(g, s, s', h, l);
    }
  }

  lemma {:induction false} StaysOnStack(g: Cfg, s: State, s': State, h: nat, l: Label)
    requires l in s'.data && Dn(s', l) > 0
    requires Truncated(s, s', h) && Numbers(g, s)
    ensures l in s'.stack
  {
    assert l in s.stack;
    var q :| 0 <= q < |s.stack| && s.stack[q] == l;
    assert s'.stack[q] == l;
  }
}
