/** The order that the worklist makes of a graph with a loop inside a loop. */
module NestedLoop {
  import opened ControlFlow
  import opened WtoTree
  import opened WtoSteps
  import opened LoopCuts
  import WeakOrder

  const E := Label(0, -1, "", "")
  const A := Label(1, -1, "", "")
  const B := Label(2, -1, "", "")
  const D := Label(3, -1, "", "")

  /** `E` leads to `A`, `A` to `B`, `B` to itself and to `D`, and `D` back to `A`. */
  function G(): Cfg {
    Cfg(E, map[E := [A], A := [B], B := [B, D], D := [A]], map[E := [], A := [E, D], B := [A, B], D := [B]])
  }

  lemma {:induction false} ChildrenOfG()
    ensures G().children.Keys == {E, A, B, D} == G().parents.Keys
    ensures forall u, v :: u in G().children && v in G().children[u] ==> v in G().children && u in G().parents[v]
  {
    var g := G();
    forall u, v | u in g.children && v in g.children[u] ensures v in g.children && u in g.parents[v] {
      assert u == E || u == A || u == B || u == D;
    }
  }

  lemma {:induction false} ParentsOfG()
    ensures forall u, v :: v in G().parents && u in G().parents[v] ==> u in G().children && v in G().children[u]
  {
    var g := G();
    forall u, v | v in g.parents && u in g.parents[v] ensures u in g.children && v in g.children[u] {
      assert v == E || v == A || v == B || v == D;
    }
  }

  lemma {:induction false} GraphFacts()
    ensures G().WellFormed() && G().entry == E && (forall u :: !G().Edge(u, E)) && G().children.Keys == {E, A, B, D}
  {
    assert G().parents[E] == [];
    assert G().entry == E;
    ChildrenOfG();
    ParentsOfG();
    hide G;
  }

  // ----- the run of the worklist -----

  function Push(l: Label, id: PartitionId): VisitArgs {
    VisitArgs(PushSuccessors, l, id, id)
  }

  function Start(l: Label, id: PartitionId): VisitArgs {
    VisitArgs(StartVisit, l, id, id)
  }

  function Data(e: VertexData, a: VertexData, b: VertexData, d: VertexData): map<Label, VertexData> {
    map[E := e, A := a, B := b, D := d]
  }

  function Numbered(n: nat): VertexData {
    VertexData(Finite(n), 0)
  }

  function Done(head: nat): VertexData {
    VertexData(Infinity, head)
  }

  const INNER := Cycle([Vertex(B)])
  const OUTER := Cycle([Vertex(D), INNER, Vertex(A)])
  const CLOSE_A := VisitArgs(ContinueVisit, A, TopLevel, CycleOf(A))
  const CLOSE_B := VisitArgs(ContinueVisit, B, CycleOf(A), CycleOf(B))

  const CA := CycleOf(A)
  const CB := CycleOf(B)

  function At0(): State {
    State(Data(Unvisited, Unvisited, Unvisited, Unvisited), 0, [], [Push(E, TopLevel)], map[TopLevel := []], map[],
          map[])
  }

  function At1(): State {
    State(Data(Numbered(1), Unvisited, Unvisited, Unvisited), 1, [E], [Start(E, TopLevel), Push(A, TopLevel)],
          map[TopLevel := []], map[], map[])
  }

  function At2(): State {
    State(Data(Numbered(1), Numbered(2), Unvisited, Unvisited), 2, [E, A],
          [Start(E, TopLevel), Start(A, TopLevel), Push(B, TopLevel)], map[TopLevel := []], map[], map[])
  }

  function At3(): State {
    State(Data(Numbered(1), Numbered(2), Numbered(3), Unvisited), 3, [E, A, B],
          [Start(E, TopLevel), Start(A, TopLevel), Start(B, TopLevel), Push(D, TopLevel)], map[TopLevel := []],
          map[], map[])
  }

  function At4(): State {
    State(Data(Numbered(1), Numbered(2), Numbered(3), Numbered(4)), 4, [E, A, B, D],
          [Start(E, TopLevel), Start(A, TopLevel), Start(B, TopLevel), Start(D, TopLevel)], map[TopLevel := []],
          map[], map[])
  }

  function At5(): State {
    State(Data(Numbered(1), Numbered(2), Numbered(3), VertexData(Finite(4), 2)), 4, [E, A, B, D],
          [Start(E, TopLevel), Start(A, TopLevel), Start(B, TopLevel)], map[TopLevel := []], map[], map[])
  }

  function At6(): State {
    State(Data(Numbered(1), Numbered(2), VertexData(Finite(3), 2), VertexData(Finite(4), 2)), 4, [E, A, B, D],
          [Start(E, TopLevel), Start(A, TopLevel)], map[TopLevel := []], map[], map[])
  }

  function At7(): State {
    State(Data(Numbered(1), Done(2), Unvisited, Unvisited), 4, [E], [Start(E, TopLevel), CLOSE_A, Push(B, CA)],
          map[TopLevel := [], CA := []], map[A := TopLevel], map[])
  }

  function At8(): State {
    State(Data(Numbered(1), Done(2), Numbered(5), Unvisited), 5, [E, B],
          [Start(E, TopLevel), CLOSE_A, Start(B, CA), Push(D, CA)],
          map[TopLevel := [], CA := []], map[A := TopLevel], map[])
  }

  function At9(): State {
    State(Data(Numbered(1), Done(2), Numbered(5), Numbered(6)), 6, [E, B, D],
          [Start(E, TopLevel), CLOSE_A, Start(B, CA), Start(D, CA)], map[TopLevel := [], CA := []],
          map[A := TopLevel], map[])
  }

  function At10(): State {
    State(Data(Numbered(1), Done(2), Numbered(5), Done(6)), 6, [E, B], [Start(E, TopLevel), CLOSE_A, Start(B, CA)],
          map[TopLevel := [], CA := [Vertex(D)]], map[A := TopLevel], map[D := CA])
  }

  function At11(): State {
    State(Data(Numbered(1), Done(2), Done(5), Done(6)), 6, [E], [Start(E, TopLevel), CLOSE_A, CLOSE_B],
          map[TopLevel := [], CA := [Vertex(D)], CB := []], map[A := TopLevel, B := CA], map[D := CA])
  }

  function At12(): State {
    State(Data(Numbered(1), Done(2), Done(5), Done(6)), 6, [E], [Start(E, TopLevel), CLOSE_A],
          map[TopLevel := [], CA := [Vertex(D), INNER], CB := [Vertex(B)]], map[A := TopLevel, B := CA],
          map[D := CA, B := CB])
  }

  function At13(): State {
    State(Data(Numbered(1), Done(2), Done(5), Done(6)), 6, [E], [Start(E, TopLevel)],
          map[TopLevel := [OUTER], CA := [Vertex(D), INNER, Vertex(A)], CB := [Vertex(B)]], map[A := TopLevel, B := CA],
          map[D := CA, B := CB, A := CA])
  }

  function At14(): State {
    State(Data(Done(1), Done(2), Done(5), Done(6)), 6, [], [],
          map[TopLevel := [OUTER, Vertex(E)], CA := [Vertex(D), INNER, Vertex(A)], CB := [Vertex(B)]],
          map[A := TopLevel, B := CA],
          map[D := CA, B := CB, A := CA, E := TopLevel])
  }

  lemma {:induction false} OneTask(l: Label, id: PartitionId)
    ensures PushTasks([l], id) == [Push(l, id)] && PushTasks([], id) == []
  {
  }

  lemma {:induction false} PendingTwo(l: Label, m: Label, data: map<Label, VertexData>)
    requires l in data && m in data
    ensures Pending([l, m], data) == (if data[m].dfn == Finite(0) then [m] else [])
                                     + (if data[l].dfn == Finite(0) then [l] else [])
  {
    assert [l, m] == [l] + [m];
    PendingReversed([l], [m], data);
    PendingOne(l, data);
    PendingOne(m, data);
  }

  /** The number and the flag after one more successor. */
  function Seen(d: VertexData, scan: (nat, bool)): (nat, bool) {
    if AtMost(MinDfn(d), scan.0) then (MinDfn(d).n, true) else scan
  }

  lemma {:induction false} ScanOne(l: Label, data: map<Label, VertexData>, scan: (nat, bool))
    requires l in data
    ensures HeadScan([l], data, scan.0, scan.1) == Seen(data[l], scan)
  {
    assert [l][1..] == [];
    var r := Seen(data[l], scan);
    assert HeadScan([], data, r.0, r.1) == r;
  }

  lemma {:induction false} ScanTwo(l: Label, m: Label, data: map<Label, VertexData>, scan: (nat, bool))
    requires l in data && m in data
    ensures HeadScan([l, m], data, scan.0, scan.1) == Seen(data[m], Seen(data[l], scan))
  {
    assert [l, m][1..] == [m];
    ScanOne(m, data, Seen(data[l], scan));
  }

  /** What all states of the run have in common. */
  ghost predicate OverG(s: State) {
    s.data.Keys == G().children.Keys && TopLevel in s.partitions
  }

  /** Two states that differ in numbers, stack and tasks only. */
  ghost predicate SamePlaces(s: State, s': State) {
    s'.partitions == s.partitions && s'.enclosing == s.enclosing && s'.containing == s.containing
  }

  lemma {:induction false} PushLeads(
    s: State, s': State, base: seq<VisitArgs>, l: Label, id: PartitionId, pend: seq<Label>)
    requires OverG(s) && OverG(s') && SamePlaces(s, s') && s.tasks == base + [Push(l, id)] && l in s.data
             && id in s.partitions
    requires s.data[l].dfn == Finite(0) && s'.data == s.data[l := s.data[l].(dfn := Finite(s.num + 1))]
    requires s'.num == s.num + 1 && s'.stack == s.stack + [l]
    requires (forall x :: x in G().children[l] ==> x in s'.data) && Pending(G().children[l], s'.data) == pend
    requires s'.tasks == base + [Start(l, id)] + PushTasks(pend, id)
    ensures Leads(G(), s, s')
  {
    GraphFacts();
    hide Cfg.WellFormed, G, Pending, PushTasks;
    assert Popped(s).tasks == base && Top(s) == Push(l, id);
    assert s'.tasks == base + ([Start(l, id)] + PushTasks(pend, id));
  }

  /** A label that leads back to an earlier one keeps the number found. */
  lemma {:induction false} LowLeads(
    s: State, s': State, base: seq<VisitArgs>, l: Label, id: PartitionId, head: nat, loop: bool)
    requires OverG(s) && OverG(s') && SamePlaces(s, s') && s.tasks == base + [Start(l, id)] && l in s.data
             && id in s.partitions
    requires l in s.stack && s.data[l].dfn.Finite? && head != s.data[l].dfn.n
    requires (forall x :: x in G().children[l] ==> x in s.data)
    requires HeadScan(G().children[l], s.data, s.data[l].dfn.n, false) == (head, loop)
    requires s'.data == s.data[l := s.data[l].(headDfn := head)] && s'.num == s.num && s'.stack == s.stack
             && s'.tasks == base
    ensures Leads(G(), s, s')
  {
    GraphFacts();
    hide Cfg.WellFormed, G, HeadScan, LoopResult;
    assert Popped(s).tasks == base && Top(s) == Start(l, id);
  }

  lemma {:induction false} SingleLeads(s: State, s': State, base: seq<VisitArgs>, l: Label, id: PartitionId)
    requires OverG(s) && OverG(s') && s.tasks == base + [Start(l, id)] && l in s.data && id in s.partitions
    requires l in s.stack && s.data[l].dfn.Finite? && l !in s.containing
    requires (forall x :: x in G().children[l] ==> x in s.data)
    requires HeadScan(G().children[l], s.data, s.data[l].dfn.n, false) == (s.data[l].dfn.n, false)
    requires s'.data == s.data[l := Done(s.data[l].dfn.n)] && s'.num == s.num && s'.tasks == base
    requires s'.stack == s.stack[..|s.stack| - 1] && s'.partitions == s.partitions[id := s.partitions[id] + [Vertex(l)]]
    requires s'.enclosing == s.enclosing && s'.containing == s.containing[l := id]
    ensures Leads(G(), s, s')
  {
    GraphFacts();
    hide Cfg.WellFormed, G, HeadScan, LoopResult;
    assert Popped(s).tasks == base && Top(s) == Start(l, id);
  }

  lemma {:induction false} LoopLeads(
    s: State, s': State, base: seq<VisitArgs>, l: Label, id: PartitionId, p: nat, pend: seq<Label>)
    requires OverG(s) && OverG(s') && s.tasks == base + [Start(l, id)] && l in s.data && id in s.partitions
    requires p < |s.stack| && s.stack[p] == l && (forall i :: p < i < |s.stack| ==> s.stack[i] != l)
             && s.data[l].dfn.Finite?
    requires (forall x :: x in G().children[l] ==> x in s.data && x in s'.data)
    requires HeadScan(G().children[l], s.data, s.data[l].dfn.n, false) == (s.data[l].dfn.n, true)
    requires s'.data == Reset(s.data, s.stack[p + 1..])[l := Done(s.data[l].dfn.n)] && s'.num == s.num
             && s'.stack == s.stack[..p]
    requires Pending(G().children[l], s'.data) == pend
    requires s'.tasks == base + [VisitArgs(ContinueVisit, l, id, CycleOf(l))] + PushTasks(pend, CycleOf(l))
    requires s'.partitions == s.partitions[CycleOf(l) := []] && s'.enclosing == s.enclosing[l := id]
             && s'.containing == s.containing
    ensures Leads(G(), s, s')
  {
    GraphFacts();
    hide Cfg.WellFormed, G, HeadScan, Pending, PushTasks, Reset;
    assert Popped(s).tasks == base && Top(s) == Start(l, id);
    assert TopIndex(s.stack, l) == p;
    assert s'.tasks == base + ([VisitArgs(ContinueVisit, l, id, CycleOf(l))] + PushTasks(pend, CycleOf(l)));
  }

  lemma {:induction false} ContinueLeads(s: State, s': State, base: seq<VisitArgs>, l: Label, id: PartitionId)
    requires OverG(s) && OverG(s') && s.tasks == base + [VisitArgs(ContinueVisit, l, id, CycleOf(l))] && l in s.data
    requires id in s.partitions && CycleOf(l) in s.partitions && id != CycleOf(l) && l !in s.containing
    requires s'.data == s.data && s'.num == s.num && s'.stack == s.stack && s'.tasks == base
             && s'.enclosing == s.enclosing
    requires var cs := s.partitions[CycleOf(l)] + [Vertex(l)];
             s'.partitions == s.partitions[CycleOf(l) := cs][id := s.partitions[id] + [Cycle(cs)]]
    requires s'.containing == s.containing[l := CycleOf(l)]
    ensures Leads(G(), s, s')
  {
    GraphFacts();
    hide Cfg.WellFormed, G;
    assert Popped(s).tasks == base && Top(s) == VisitArgs(ContinueVisit, l, id, CycleOf(l));
  }

  // ----- step by step -----

  lemma {:induction false} Step0()
    ensures Leads(G(), At0(), At1())
  {
    hide Leads, HeadScan, Pending;
    OneTask(A, TopLevel);
    PendingOne(A, At1().data);
    PushLeads(At0(), At1(), [], E, TopLevel, [A]);
  }

  lemma {:induction false} Step1()
    ensures Leads(G(), At1(), At2())
  {
    hide Leads, HeadScan, Pending;
    OneTask(B, TopLevel);
    PendingOne(B, At2().data);
    PushLeads(At1(), At2(), [Start(E, TopLevel)], A, TopLevel, [B]);
  }

  lemma {:induction false} Step2()
    ensures Leads(G(), At2(), At3())
  {
    hide Leads, HeadScan, Pending;
    OneTask(D, TopLevel);
    PendingTwo(B, D, At3().data);
    PushLeads(At2(), At3(), [Start(E, TopLevel), Start(A, TopLevel)], B, TopLevel, [D]);
  }

  lemma {:induction false} Step3()
    ensures Leads(G(), At3(), At4())
  {
    hide Leads, HeadScan, Pending;
    OneTask(D, TopLevel);
    PendingOne(A, At4().data);
    PushLeads(At3(), At4(), [Start(E, TopLevel), Start(A, TopLevel), Start(B, TopLevel)], D, TopLevel, []);
  }

  lemma {:induction false} Step4()
    ensures Leads(G(), At4(), At5())
  {
    hide Leads, HeadScan, Pending;
    ScanOne(A, At4().data, (4, false));
    LowLeads(At4(), At5(), [Start(E, TopLevel), Start(A, TopLevel), Start(B, TopLevel)], D, TopLevel, 2, true);
  }

  lemma {:induction false} Step5()
    ensures Leads(G(), At5(), At6())
  {
    hide Leads, HeadScan, Pending;
    ScanTwo(B, D, At5().data, (3, false));
    LowLeads(At5(), At6(), [Start(E, TopLevel), Start(A, TopLevel)], B, TopLevel, 2, true);
  }

  lemma {:induction false} Step6()
    ensures Leads(G(), At6(), At7())
  {
    hide Leads, HeadScan, Pending;
    ScanOne(B, At6().data, (2, false));
    PendingOne(B, At7().data);
    OneTask(B, CA);
    assert At6().stack[2..] == [B, D];
    LoopLeads(At6(), At7(), [Start(E, TopLevel)], A, TopLevel, 1, [B]);
  }

  lemma {:induction false} Step7()
    ensures Leads(G(), At7(), At8())
  {
    hide Leads, HeadScan, Pending;
    OneTask(D, CA);
    PendingTwo(B, D, At8().data);
    PushLeads(At7(), At8(), [Start(E, TopLevel), CLOSE_A], B, CA, [D]);
  }

  lemma {:induction false} Step8()
    ensures Leads(G(), At8(), At9())
  {
    hide Leads, HeadScan, Pending;
    OneTask(D, CA);
    PendingOne(A, At9().data);
    PushLeads(At8(), At9(), [Start(E, TopLevel), CLOSE_A, Start(B, CA)], D, CA, []);
  }

  lemma {:induction false} Step9()
    ensures Leads(G(), At9(), At10())
  {
    hide Leads, HeadScan, Pending;
    ScanOne(A, At9().data, (6, false));
    assert At9().partitions[CA] + [Vertex(D)] == [Vertex(D)];
    SingleLeads(At9(), At10(), [Start(E, TopLevel), CLOSE_A, Start(B, CA)], D, CA);
  }

  lemma {:induction false} Step10()
    ensures Leads(G(), At10(), At11())
  {
    hide Leads, HeadScan, Pending;
    ScanTwo(B, D, At10().data, (5, false));
    PendingTwo(B, D, At11().data);
    OneTask(B, CB);
    assert At10().stack[2..] == [];
    LoopLeads(At10(), At11(), [Start(E, TopLevel), CLOSE_A], B, CA, 1, []);
  }

  lemma {:induction false} Step11()
    ensures Leads(G(), At11(), At12())
  {
    hide Leads, HeadScan, Pending;
    assert At11().partitions[CB] + [Vertex(B)] == [Vertex(B)];
    assert At11().partitions[CA] + [INNER] == [Vertex(D), INNER];
    ContinueLeads(At11(), At12(), [Start(E, TopLevel), CLOSE_A], B, CA);
  }

  lemma {:induction false} Step12()
    ensures Leads(G(), At12(), At13())
  {
    hide Leads, HeadScan, Pending;
    assert At12().partitions[CA] + [Vertex(A)] == [Vertex(D), INNER, Vertex(A)];
    assert At12().partitions[TopLevel] + [OUTER] == [OUTER];
    ContinueLeads(At12(), At13(), [Start(E, TopLevel)], A, TopLevel);
  }

  lemma {:induction false} LastPlaces()
    ensures At14().data == At13().data[E := Done(1)] && At14().containing == At13().containing[E := TopLevel]
    ensures At14().partitions == At13().partitions[TopLevel := At13().partitions[TopLevel] + [Vertex(E)]]
  {
    assert At13().partitions[TopLevel] + [Vertex(E)] == [OUTER, Vertex(E)];
  }

  lemma {:induction false} Step13()
    ensures Leads(G(), At13(), At14())
  {
    hide Leads, HeadScan, Pending;
    ScanOne(A, At13().data, (1, false));
    LastPlaces();
    SingleLeads(At13(), At14(), [], E, TopLevel);
  }

  lemma {:induction false} RanStep(s: State, s': State, n: nat)
    requires Leads(G(), s, s') && n > 0
    ensures Ran(G(), s, n) == Ran(G(), s', n - 1)
  {
    hide TaskStep, Runnable;
  }

  lemma {:induction false} RunEnds()
    ensures Ran(G(), At0(), 14) == At14()
  {
    hide Ran, Leads;
    Step0(); RanStep(At0(), At1(), 14);
    Step1(); RanStep(At1(), At2(), 13);
    Step2(); RanStep(At2(), At3(), 12);
    Step3(); RanStep(At3(), At4(), 11);
    Step4(); RanStep(At4(), At5(), 10);
    Step5(); RanStep(At5(), At6(), 9);
    Step6(); RanStep(At6(), At7(), 8);
    Step7(); RanStep(At7(), At8(), 7);
    Step8(); RanStep(At8(), At9(), 6);
    Step9(); RanStep(At9(), At10(), 5);
    Step10(); RanStep(At10(), At11(), 4);
    Step11(); RanStep(At11(), At12(), 3);
    Step12(); RanStep(At12(), At13(), 2);
    Step13(); RanStep(At13(), At14(), 1);
    RanNothing(At14());
  }

  lemma {:induction false} RanNothing(s: State)
    ensures Ran(G(), s, 0) == s
  {
  }

  function OrderOfG(): WeakOrder.Wto {
    WeakOrder.Wto(At14().partitions[TopLevel], At14().containing, At14().enclosing)
  }

  lemma {:induction false} GraphIsBuilt()
    ensures WeakOrder.IsBuilt(G(), OrderOfG())
  {
    hide Ran;
    RunEnds();
    StartState();
    assert WeakOrder.BuiltAfter(G(), OrderOfG(), 14);
  }

  /** The order of the graph is `E (A (B) D)`: one loop lies inside the other. */
  lemma {:induction false} NestedOrder(w: WeakOrder.Wto)
    requires WeakOrder.IsBuilt(G(), w)
    ensures w == OrderOfG() && !Flat(w.components) && LoopHeads(w.components) == [A]
  {
    hide WeakOrder.IsBuilt;
    GraphIsBuilt();
    WeakOrder.BuiltIsUnique(G(), w, OrderOfG());
    NestedShape();
  }

  lemma {:induction false} StartState()
    ensures Initial(G()) == At0()
  {
    GraphFacts();
    assert Initial(G()).data == At0().data;
  }

  lemma {:induction false} NestedShape()
    ensures !Flat([OUTER, Vertex(E)]) && LoopHeads([OUTER, Vertex(E)]) == [A]
  {
    var cs := [OUTER, Vertex(E)];
    var inside := OUTER.components;
    assert inside == [Vertex(D), INNER, Vertex(A)];
    assert cs[0] == OUTER && inside[1] == INNER && !INNER.Vertex?;
    assert OUTER in cs && INNER in inside;
    assert cs[..1] == [OUTER] && [OUTER][..0] == [];
    assert LoopHeads([]) == [];
    assert Headed(inside) && Head(inside) == A;
    assert LoopHeads([OUTER]) == [A] + LoopHeads([]);
    assert LoopHeads(cs) == [] + LoopHeads([OUTER]);
  }
}
