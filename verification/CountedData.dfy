/** What the worklist's numbers look like once counters follow some heads. */
module CountedData {
  import opened ControlFlow
  import opened WtoSteps

  /** Which number of the run with counters belongs to each number of the run without. */
  ghost predicate Numbering(phi: seq<nat>, num: nat, num': nat) {
    && |phi| == num + 1 && phi[0] == 0 && phi[num] <= num'
    && forall i, j :: 0 <= i < j <= num ==> phi[i] < phi[j]
  }

  ghost predicate Within(d: VertexData, num: nat) {
    d.headDfn <= num && (d.dfn.Finite? ==> d.dfn.n <= num)
  }

  ghost function Renumbered(phi: seq<nat>, d: VertexData): VertexData
    requires phi != [] && Within(d, |phi| - 1)
  {
    VertexData(if d.dfn.Finite? then Finite(phi[d.dfn.n]) else Infinity, phi[d.headDfn])
  }

  /** The counter of a head with data `d`: unvisited with it, numbered right after it, and done with it.
      While the cycle of the head is open its counter is somewhere in between. */
  ghost predicate CounterFollows(phi: seq<nat>, d: VertexData, num': nat, c: VertexData, open: bool)
    requires phi != [] && Within(d, |phi| - 1)
  {
    if d.dfn.Infinity? then open || c.dfn.Infinity?
    else if d.dfn.n == 0 then d == Unvisited && c == Unvisited
    else
      && c == VertexData(Finite(phi[d.dfn.n] + 1), phi[d.headDfn])
      && phi[d.dfn.n] + 1 <= num' && (d.dfn.n + 1 < |phi| ==> phi[d.dfn.n] + 1 < phi[d.dfn.n + 1])
  }

  /** The counters of `heads` are labels of their own. */
  ghost predicate Apart(data: map<Label, VertexData>, heads: set<Label>) {
    && heads <= data.Keys
    && (forall h :: h in heads ==> CounterLabel(h) !in data)
    && (forall h, k :: h in heads && k in heads && CounterLabel(h) == CounterLabel(k) ==> h == k)
  }

  ghost predicate LabelAlike(
    phi: seq<nat>, data: map<Label, VertexData>, num: nat, data': map<Label, VertexData>, l: Label)
    requires l in data && |phi| == num + 1
  {
    l in data' && Within(data[l], num) && data'[l] == Renumbered(phi, data[l])
  }

  ghost predicate CounterAlike(
    phi: seq<nat>, data: map<Label, VertexData>, num: nat, data': map<Label, VertexData>, num': nat,
    open: set<Label>, h: Label)
    requires h in data && |phi| == num + 1
  {
    && CounterLabel(h) in data' && Within(data[h], num)
    && CounterFollows(phi, data[h], num', data'[CounterLabel(h)], h in open)
  }

  /** The data of both runs. */
  ghost predicate Alike(heads: set<Label>, open: set<Label>, phi: seq<nat>, data: map<Label, VertexData>, num: nat,
                        data': map<Label, VertexData>, num': nat)
  {
    && Numbering(phi, num, num') && Apart(data, heads)
    && (forall l {:trigger LabelAlike(phi, data, num, data', l)} :: l in data ==> LabelAlike(phi, data, num, data', l))
    && (forall h {:trigger CounterAlike(phi, data, num, data', num', open, h)} ::
          h in heads ==> CounterAlike(phi, data, num, data', num', open, h))
  }

  lemma {:induction false} AlikeAt(
    heads: set<Label>, open: set<Label>, phi: seq<nat>, data: map<Label, VertexData>, num: nat,
    data': map<Label, VertexData>, num': nat, l: Label)
    requires Alike(heads, open, phi, data, num, data', num') && l in data
    ensures |phi| == num + 1 && l in data' && Within(data[l], num) && data'[l] == Renumbered(phi, data[l])
    ensures data'[l].dfn == Finite(0) <==> data[l].dfn == Finite(0)
    ensures data'[l].dfn.Infinity? <==> data[l].dfn.Infinity?
    ensures l in heads ==> CounterAlike(phi, data, num, data', num', open, l)
  {
    assert LabelAlike(phi, data, num, data', l);
    assert data[l].dfn.Finite? && data[l].dfn.n > 0 ==> phi[0] < phi[data[l].dfn.n];
  }

  lemma {:induction false} AlikeKeys(
    heads: set<Label>, open: set<Label>, phi: seq<nat>, data: map<Label, VertexData>, num: nat,
    data': map<Label, VertexData>, num': nat)
    requires Alike(heads, open, phi, data, num, data', num')
    ensures data.Keys <= data'.Keys && Numbering(phi, num, num') && Apart(data, heads)
    ensures forall h :: h in heads ==> CounterLabel(h) in data'
  {
    forall l | l in data ensures l in data' {
      assert LabelAlike(phi, data, num, data', l);
    }
    forall h | h in heads ensures CounterLabel(h) in data' {
      assert CounterAlike(phi, data, num, data', num', open, h);
    }
  }

  // ----- numbering a label -----

  /** The second run after the same label has been numbered, and its counter with it. */
  ghost function Pushed(heads: set<Label>, data': map<Label, VertexData>, num': nat, v: Label): map<Label, VertexData> {
    var d := data'[v := VertexData(Finite(num' + 1), 0)];
    if v in heads then d[CounterLabel(v) := VertexData(Finite(num' + 2), 0)] else d
  }

  lemma {:induction false} AlikePush(
    heads: set<Label>, open: set<Label>, phi: seq<nat>, data: map<Label, VertexData>, num: nat,
    data': map<Label, VertexData>, num': nat, v: Label)
    requires Alike(heads, open, phi, data, num, data', num') && v in data && data[v] == Unvisited
    ensures Alike(heads, open, phi + [num' + 1], data[v := VertexData(Finite(num + 1), 0)], num + 1,
                  Pushed(heads, data', num', v), num' + if v in heads then 2 else 1)
  {
    var psi, more, more' := phi + [num' + 1], data[v := VertexData(Finite(num + 1), 0)], Pushed(heads, data', num', v);
    var n' := num' + if v in heads then 2 else 1;
    NumberingMore(phi, num, num', n');
    forall l | l in more ensures LabelAlike(psi, more, num + 1, more', l) {
      assert LabelAlike(phi, data, num, data', l);
      PushedLabel(phi, data, num, data', num', l);
    }
    forall h | h in heads ensures CounterAlike(psi, more, num + 1, more', n', open, h) {
      assert CounterAlike(phi, data, num, data', num', open, h);
      assert more'[CounterLabel(h)] == if h == v then VertexData(Finite(num' + 2), 0) else data'[CounterLabel(h)];
      hide Alike, Pushed;
      if h != v {
        CounterKept(phi, num, num', data[h], data'[CounterLabel(h)], n', h in open);
      }
    }
  }

  lemma {:induction false} NumberingMore(phi: seq<nat>, num: nat, num': nat, n': nat)
    requires Numbering(phi, num, num') && num' < n'
    ensures Numbering(phi + [num' + 1], num + 1, n')
  {
    var psi := phi + [num' + 1];
    forall i, j | 0 <= i < j <= num + 1 ensures psi[i] < psi[j] {
      assert i < num ==> phi[i] < phi[num];
    }
  }

  lemma {:induction false} PushedLabel(
    phi: seq<nat>, data: map<Label, VertexData>, num: nat, data': map<Label, VertexData>, num': nat, l: Label)
    requires Numbering(phi, num, num') && l in data && LabelAlike(phi, data, num, data', l)
    ensures Within(data[l], num + 1) && data'[l] == Renumbered(phi + [num' + 1], data[l])
  {
  }

  lemma {:induction false} CounterKept(
    phi: seq<nat>, num: nat, num': nat, d: VertexData, c: VertexData, n': nat, open: bool)
    requires Numbering(phi, num, num') && Within(d, num) && CounterFollows(phi, d, num', c, open) && num' < n'
    ensures Within(d, num + 1) && CounterFollows(phi + [num' + 1], d, n', c, open)
  {
  }

  // ----- changing one label -----

  /** The data of `v`, and that of its counter if it has one, are replaced. */
  ghost function Replaced(heads: set<Label>, data': map<Label, VertexData>, v: Label, d: VertexData, c: VertexData)
    : map<Label, VertexData>
  {
    if v in heads then data'[CounterLabel(v) := c][v := d] else data'[v := d]
  }

  lemma {:induction false} AlikeReplace(
    heads: set<Label>, open: set<Label>, phi: seq<nat>, data: map<Label, VertexData>, num: nat,
    data': map<Label, VertexData>, num': nat, v: Label, d: VertexData, c: VertexData)
    requires Alike(heads, open, phi, data, num, data', num') && v in data && Within(d, num) && |phi| == num + 1
    requires v in heads ==> CounterFollows(phi, d, num', c, v in open)
    ensures Alike(heads, open, phi, data[v := d], num, Replaced(heads, data', v, Renumbered(phi, d), c), num')
  {
    hide CounterFollows, Renumbered, Numbering, Within;
    var more, more' := data[v := d], Replaced(heads, data', v, Renumbered(phi, d), c);
    forall l | l in more ensures LabelAlike(phi, more, num, more', l) {
      assert LabelAlike(phi, data, num, data', l);
    }
    forall h | h in heads ensures CounterAlike(phi, more, num, more', num', open, h) {
      assert CounterAlike(phi, data, num, data', num', open, h);
    }
  }

  /** Cycles that are opened ask less of their counters. */
  lemma {:induction false} AlikeOpen(
    heads: set<Label>, open: set<Label>, open': set<Label>, phi: seq<nat>, data: map<Label, VertexData>, num: nat,
    data': map<Label, VertexData>, num': nat)
    requires Alike(heads, open, phi, data, num, data', num') && forall h :: h in heads && h in open ==> h in open'
    ensures Alike(heads, open', phi, data, num, data', num')
  {
    hide Within, Renumbered;
    forall h | h in heads ensures CounterAlike(phi, data, num, data', num', open', h) {
      assert CounterAlike(phi, data, num, data', num', open, h);
    }
  }

  /** The counter of a head that is done or whose cycle is open. */
  lemma {:induction false} AlikeCounter(
    heads: set<Label>, open: set<Label>, open': set<Label>, phi: seq<nat>, data: map<Label, VertexData>, num: nat,
    data': map<Label, VertexData>, num': nat, v: Label, c: VertexData, n': nat)
    requires Alike(heads, open, phi, data, num, data', num') && v in heads && v in data && data[v].dfn.Infinity?
    requires num' <= n' && (v in open' || c.dfn.Infinity?) && forall h ::
               h in heads && h in open && h != v ==> h in open'
    ensures Alike(heads, open', phi, data, num, data'[CounterLabel(v) := c], n')
  {
    var more' := data'[CounterLabel(v) := c];
    forall l | l in data ensures LabelAlike(phi, data, num, more', l) {
      assert LabelAlike(phi, data, num, data', l);
    }
    forall h | h in heads ensures CounterAlike(phi, data, num, more', n', open', h) {
      assert CounterAlike(phi, data, num, data', num', open, h);
    }
  }

  /** Both runs forget the same labels, and counters with their heads. */
  lemma {:induction false} AlikeReset(
    heads: set<Label>, open: set<Label>, phi: seq<nat>, data: map<Label, VertexData>, num: nat,
    data': map<Label, VertexData>, num': nat, els: seq<Label>, els': seq<Label>)
    requires Alike(heads, open, phi, data, num, data', num')
    requires forall l :: l in data ==> (l in els <==> l in els')
    requires forall h :: h in heads && h in data && h in els ==> CounterLabel(h) in els'
    requires forall h :: h in heads && h in data && CounterLabel(h) in els' ==>
                           h in els || (data[h].dfn.Infinity? && h in open) || data[h] == Unvisited
    ensures Alike(heads, open, phi, Reset(data, els), num, Reset(data', els'), num')
  {
    hide Numbering;
    var less, less' := Reset(data, els), Reset(data', els');
    NumberingZero(phi, num, num');
    forall l | l in less ensures LabelAlike(phi, less, num, less', l) {
      assert LabelAlike(phi, data, num, data', l);
    }
    forall h | h in heads ensures CounterAlike(phi, less, num, less', num', open, h) {
      assert CounterAlike(phi, data, num, data', num', open, h);
    }
  }

  lemma {:induction false} NumberingZero(phi: seq<nat>, num: nat, num': nat)
    requires Numbering(phi, num, num')
    ensures |phi| == num + 1 && phi[0] == 0
  {
  }

  // ----- reading the data -----

  lemma {:induction false} SamePending(
    heads: set<Label>, open: set<Label>, phi: seq<nat>, data: map<Label, VertexData>, num: nat,
    data': map<Label, VertexData>, num': nat, children: seq<Label>)
    requires Alike(heads, open, phi, data, num, data', num') && forall x :: x in children ==> x in data
    ensures forall x :: x in children ==> x in data'
    ensures Pending(children, data') == Pending(children, data)
  {
    hide Alike;
    forall x | x in children ensures x in data' {
      AlikeAt(heads, open, phi, data, num, data', num', x);
    }
    if children != [] {
      SamePending(heads, open, phi, data, num, data', num', children[1..]);
      AlikeAt(heads, open, phi, data, num, data', num', children[0]);
    }
  }

  /** A scan finds the same head in both runs, whether it starts from the number of a label or from that of
      the counter behind it. */
  lemma {:induction false} SameScan(
    heads: set<Label>, open: set<Label>, phi: seq<nat>, data: map<Label, VertexData>, num: nat,
    data': map<Label, VertexData>, num': nat, children: seq<Label>, start: nat, start': nat, loop: bool)
    requires Alike(heads, open, phi, data, num, data', num') && forall x :: x in children ==> x in data && x in data'
    requires start <= num && |phi| == num + 1
    requires start' == phi[start]
             || (!loop && start' == phi[start] + 1 && (start < num ==> start' < phi[start + 1]))
    ensures var r, r' := HeadScan(children, data, start, loop), HeadScan(children, data', start', loop);
            && r.0 <= num && r'.1 == r.1 && (loop ==> r.1)
            && r'.0 == if r.1 || start' == phi[start] then phi[r.0] else start'
  {
    if children != [] {
      var x := children[0];
      AlikeAt(heads, open, phi, data, num, data', num', x);
      var m := MinDfn(data[x]);
      SameMin(heads, open, phi, data, num, data', num', x);
      hide Alike, MinDfn;
      SameAtMost(phi, num, num', m, start, start');
      if AtMost(m, start) {
        SameScan(heads, open, phi, data, num, data', num', children[1..], m.n, phi[m.n], true);
      } else {
        SameScan(heads, open, phi, data, num, data', num', children[1..], start, start', loop);
      }
    }
  }

  lemma {:induction false} SameMin(
    heads: set<Label>, open: set<Label>, phi: seq<nat>, data: map<Label, VertexData>, num: nat,
    data': map<Label, VertexData>, num': nat, x: Label)
    requires Alike(heads, open, phi, data, num, data', num') && x in data && x in data'
    ensures Numbering(phi, num, num')
    ensures MinDfn(data[x]).Finite? ==> MinDfn(data[x]).n <= num && MinDfn(data'[x]) == Finite(phi[MinDfn(data[x]).n])
    ensures MinDfn(data[x]).Infinity? ==> MinDfn(data'[x]).Infinity?
  {
    assert LabelAlike(phi, data, num, data', x);
    assert data[x].headDfn > 0 ==> phi[0] < phi[data[x].headDfn];
  }

  lemma {:induction false} SameAtMost(phi: seq<nat>, num: nat, num': nat, m: Dfn, start: nat, start': nat)
    requires Numbering(phi, num, num') && start <= num && (m.Finite? ==> m.n <= num)
    requires start' == phi[start] || (start' == phi[start] + 1 && (start < num ==> start' < phi[start + 1]))
    ensures m.Finite? ==> (AtMost(m, start) <==> phi[m.n] <= start')
  {
    if m.Finite? && m.n > start && m.n > start + 1 {
      assert phi[start + 1] < phi[m.n];
    }
  }

  /** Where all successors are done a scan finds nothing. */
  lemma {:induction false} NothingFound(children: seq<Label>, data: map<Label, VertexData>, start: nat)
    requires forall x :: x in children ==> x in data && data[x].dfn.Infinity?
    ensures HeadScan(children, data, start, false) == (start, false)
  {
    if children != [] {
      NothingFound(children[1..], data, start);
    }
  }
}
