/** The weak topological order of a control-flow graph and the worklist that builds it
    (src/cfg/wto.hpp, src/cfg/wto.cpp). */
module WeakOrder {
  import opened ControlFlow
  import opened WtoTree
  import opened WtoTheorem
  import opened WtoSteps
  import opened WtoInvariant
  import opened WtoFrames
  import opened WtoNest
  import opened WtoRun

  /** An order with the tables from which nestings are computed. */
  datatype Wto = Wto(components: seq<Component>, containing: Table, enclosing: Table)

  /** What every order built from `g` satisfies. */
  ghost predicate Valid(g: Cfg, w: Wto) {
    && WeakTopologicalOrder(g, w.components)
    && Ordered(g, w.components, {})
    && (forall l :: l in Order(w.components) <==> Reachable(g, l))
    && StartsWith(w.components, g.entry)
    && RealCycles(g, w.components)
    && Nested(w.components, TopLevel, w.containing, w.enclosing)
    && w.containing.Keys <= Members(w.components)
  }

  /** The order that the worklist makes of `g`. */
  ghost predicate IsBuilt(g: Cfg, w: Wto) {
    exists n: nat :: BuiltAfter(g, w, n)
  }

  ghost predicate BuiltAfter(g: Cfg, w: Wto, n: nat) {
    var s := Ran(g, Initial(g), n);
    s.tasks == [] && TopLevel in s.partitions && w == Wto(s.partitions[TopLevel], s.containing, s.enclosing)
  }

  /** A graph has one such order. */
  lemma {:induction false} BuiltIsUnique(g: Cfg, w: Wto, w': Wto)
    requires IsBuilt(g, w) && IsBuilt(g, w')
    ensures w == w'
  {
    hide Ran;
    var n: nat, m: nat :| BuiltAfter(g, w, n) && BuiltAfter(g, w', m);
    if n <= m {
      RanEnds(g, Initial(g), n, m);
    } else {
      RanEnds(g, Initial(g), m, n);
    }
  }

  class WtoBuilder {
    const cfg: Cfg
    var vertexData: map<Label, VertexData>
    var num: nat
    var stack: seq<Label>
    var visitStack: seq<VisitArgs>
    var partitions: map<PartitionId, seq<Component>>
    var enclosing: Table
    var containing: Table

    ghost function St(): State
      reads this
    {
      State(vertexData, num, stack, visitStack, partitions, enclosing, containing)
    }

    constructor (cfg: Cfg)
      ensures this.cfg == cfg && St() == Initial(cfg)
    {
      this.cfg := cfg;
      vertexData := map l | l in cfg.children :: Unvisited;
      num := 0;
      stack := [];
      visitStack := [VisitArgs(TaskKind.PushSuccessors, cfg.entry, TopLevel, TopLevel)];
      partitions := map[TopLevel := []];
      enclosing, containing := map[], map[];
    }

    /** Schedules the unvisited labels among `children`, the first of them on top. */
    method Schedule(children: seq<Label>, id: PartitionId)
      requires forall x :: x in children ==> x in vertexData
      modifies this`visitStack
      ensures visitStack == old(visitStack) + PushTasks(Pending(children, vertexData), id)
    {
      var i := |children|;
      ghost var base := visitStack;
      assert PushTasks(Pending(children[i..], vertexData), id) == [];
      while i > 0
        invariant 0 <= i <= |children|
        invariant visitStack == base + PushTasks(Pending(children[i..], vertexData), id)
      {
        i := i - 1;
        assert children[i..][1..] == children[i + 1..];
        if vertexData[children[i]].dfn == Finite(0) {
          visitStack := visitStack + [VisitArgs(TaskKind.PushSuccessors, children[i], id, id)];
        }
      }
      assert children[0..] == children;
    }

    method PushSuccessors(vertex: Label, partition: PartitionId, containingCycle: PartitionId)
      requires partition == containingCycle
      requires Runnable(cfg, St(), VisitArgs(TaskKind.PushSuccessors, vertex, partition, containingCycle))
      modifies this
      ensures St() == PushSuccessorsStep(cfg, old(St()),
                                         VisitArgs(TaskKind.PushSuccessors, vertex, partition, containingCycle))
    {
      hide Pending, PushTasks;
      if vertexData[vertex].dfn != Finite(0) {
        return;
      }
      num := num + 1;
      vertexData := vertexData[vertex := vertexData[vertex].(dfn := Finite(num))];
      stack := stack + [vertex];
      visitStack := visitStack + [VisitArgs(TaskKind.StartVisit, vertex, partition, containingCycle)];
      Schedule(cfg.children[vertex], partition);
    }

    /** The smallest number that the successors of `vertex` lead to. */
    method Scan(vertex: Label) returns (headDfn: nat, loop: bool)
      requires cfg.WellFormed() && vertexData.Keys == cfg.children.Keys && vertex in vertexData
               && vertexData[vertex].dfn.Finite?
      ensures (headDfn, loop) == HeadScan(cfg.children[vertex], vertexData, vertexData[vertex].dfn.n, false)
    {
      headDfn, loop := vertexData[vertex].dfn.n, false;
      var children := cfg.children[vertex];
      assert forall x :: x in children ==> cfg.Edge(vertex, x) && x in vertexData;
      var i := 0;
      assert children[0..] == children;
      while i < |children|
        invariant 0 <= i <= |children|
        invariant HeadScan(children[i..], vertexData, headDfn, loop) ==
                  HeadScan(children, vertexData, vertexData[vertex].dfn.n, false)
      {
        assert children[i..][1..] == children[i + 1..];
        var minDfn := vertexData[children[i]].dfn;
        if vertexData[children[i]].headDfn != 0 && vertexData[children[i]].dfn != Infinity {
          minDfn := Finite(vertexData[children[i]].headDfn);
        }
        if AtMost(minDfn, headDfn) {
          headDfn := minDfn.n;
          loop := true;
        }
        i := i + 1;
      }
    }

    /** Pops the depth-first stack down to and including `vertex`, forgetting everything above it. */
    method PopCycle(vertex: Label)
      requires vertex in stack
      requires forall q :: 0 <= q < |stack| ==> stack[q] in vertexData
      modifies this`stack, this`vertexData
      ensures var p := TopIndex(old(stack), vertex);
              stack == old(stack)[..p] && vertexData == Reset(old(vertexData), old(stack)[p + 1..])
    {
      ghost var whole, data := stack, vertexData;
      ghost var p := TopIndex(whole, vertex);
      ghost var k := |whole| - 1;
      var element := stack[|stack| - 1];
      stack := stack[..|stack| - 1];
      ResetNothing(data, whole);
      while element != vertex
        invariant p <= k < |whole| && element == whole[k] && stack == whole[..k]
        invariant vertexData == Reset(data, whole[k + 1..])
        decreases k
      {
        ResetOneMore(data, whole, k);
        vertexData := vertexData[element := Unvisited];
        k := k - 1;
        element := stack[|stack| - 1];
        stack := stack[..|stack| - 1];
      }
    }

    /** Opens a cycle headed by `vertex` and schedules a second walk over its members. */
    method OpenCycle(vertex: Label, partition: PartitionId, containingCycle: PartitionId, headDfn: nat)
      requires cfg.WellFormed() && vertexData.Keys == cfg.children.Keys && vertex in vertexData && vertex in stack
      requires forall q :: 0 <= q < |stack| ==> stack[q] in vertexData
      modifies this
      ensures St() == LoopResult(cfg, old(St()),
                                 VisitArgs(TaskKind.StartVisit, vertex, partition, containingCycle), headDfn,
                                 TopIndex(old(stack), vertex))
    {
      hide Reset, Pending, PushTasks, TopIndex, Cfg.WellFormed;
      EdgesInside(cfg);
      PopCycle(vertex);
      ResetKeys(old(vertexData), old(stack)[TopIndex(old(stack), vertex) + 1..]);
      vertexData := vertexData[vertex := VertexData(Infinity, headDfn)];
      partitions := partitions[CycleOf(vertex) := []];
      enclosing := enclosing[vertex := containingCycle];
      visitStack := visitStack + [VisitArgs(TaskKind.ContinueVisit, vertex, partition, CycleOf(vertex))];
      Schedule(cfg.children[vertex], CycleOf(vertex));
    }

    method StartVisit(vertex: Label, partition: PartitionId, containingCycle: PartitionId)
      requires Runnable(cfg, St(), VisitArgs(TaskKind.StartVisit, vertex, partition, containingCycle))
      requires forall q :: 0 <= q < |stack| ==> stack[q] in vertexData
      modifies this
      ensures St() == StartVisitStep(cfg, old(St()), VisitArgs(TaskKind.StartVisit, vertex, partition, containingCycle))
    {
      hide HeadScan, LoopResult, Pending, PushTasks, TopIndex, Cfg.WellFormed;
      var headDfn, loop := Scan(vertex);
      if headDfn == vertexData[vertex].dfn.n {
        if loop {
          OpenCycle(vertex, partition, containingCycle, headDfn);
          return;
        }
        stack := stack[..|stack| - 1];
        vertexData := vertexData[vertex := vertexData[vertex].(dfn := Infinity)];
        partitions := partitions[partition := partitions[partition] + [Vertex(vertex)]];
        containing := Emplace(containing, vertex, containingCycle);
      }
      vertexData := vertexData[vertex := vertexData[vertex].(headDfn := headDfn)];
      assert vertexData == old(vertexData)[vertex := vertexData[vertex]];
    }

    method ContinueVisit(vertex: Label, partition: PartitionId, containingCycle: PartitionId)
      requires Runnable(cfg, St(), VisitArgs(TaskKind.ContinueVisit, vertex, partition, containingCycle))
      modifies this
      ensures St() == ContinueVisitStep(cfg, old(St()),
                                        VisitArgs(TaskKind.ContinueVisit, vertex, partition, containingCycle))
    {
      partitions := partitions[containingCycle := partitions[containingCycle] + [Vertex(vertex)]];
      partitions := partitions[partition := partitions[partition] + [Cycle(partitions[containingCycle])]];
      containing := Emplace(containing, vertex, containingCycle);
    }

    /** Runs one task taken from the top of the worklist. */
    method Dispatch()
      requires visitStack != [] && Runnable(cfg, Popped(St()), Top(St()))
      requires Top(St()).kind == TaskKind.PushSuccessors ==> Top(St()).partition == Top(St()).containingCycle
      requires forall q :: 0 <= q < |stack| ==> stack[q] in vertexData
      modifies this
      ensures St() == TaskStep(cfg, Popped(old(St())), Top(old(St())))
    {
      var args := visitStack[|visitStack| - 1];
      visitStack := visitStack[..|visitStack| - 1];
      match args.kind
      case PushSuccessors => PushSuccessors(args.vertex, args.partition, args.containingCycle);
      case StartVisit => StartVisit(args.vertex, args.partition, args.containingCycle);
      case ContinueVisit => ContinueVisit(args.vertex, args.partition, args.containingCycle);
    }

    /** Works off all tasks. */
    method Run()
      requires cfg.WellFormed() && St() == Initial(cfg)
      modifies this
      ensures visitStack == []
      ensures TopLevel in partitions && Valid(cfg, Wto(partitions[TopLevel], containing, enclosing))
      ensures IsBuilt(cfg, Wto(partitions[TopLevel], containing, enclosing))
      ensures num <= |cfg.children.Keys| * (|cfg.children.Keys| + 1)
    {
      hide Inv, EntryLast, NestInv, Budget, TaskStep, Ran, Valid;
      ghost var fs := InitialInv(cfg);
      ghost var done: nat := 0;
      NothingRan(cfg);
      while visitStack != []
        invariant St() == Ran(cfg, Initial(cfg), done)
        invariant Inv(cfg, St(), fs) && EntryLast(cfg, St(), fs) && NestInv(St(), fs) && Budget(St())
        decreases Unfinished(St()), Zeros(St()), |visitStack|
      {
        ghost var before := St();
        StackSound(cfg, before, fs);
        InvKeys(cfg, before, fs);
        PushIsUniform(before, fs);
        ghost var fs' := Next(cfg, before, fs);
        TaskProgress(cfg, before);
        TaskBudget(cfg, before);
        RanOneMore(cfg, Initial(cfg), done);
        Dispatch();
        fs, done := fs', done + 1;
      }
      FinalOrder(cfg, St(), fs);
      FinalIsValid(cfg, St());
      assert BuiltAfter(cfg, Wto(partitions[TopLevel], containing, enclosing), done);
      InvKeys(cfg, St(), fs);
      FinalBudget(St());
    }
  }

  lemma {:induction false} NothingRan(g: Cfg)
    ensures Ran(g, Initial(g), 0) == Initial(g)
  {
  }

  lemma {:induction false} FinalIsValid(g: Cfg, s: State)
    requires TopLevel in s.partitions && Nested(s.partitions[TopLevel], TopLevel, s.containing, s.enclosing)
    requires s.containing.Keys <= Members(s.partitions[TopLevel])
    requires Ordered(g, s.partitions[TopLevel], {}) && NoDup(Order(s.partitions[TopLevel]))
    requires RealCycles(g, s.partitions[TopLevel]) && StartsWith(s.partitions[TopLevel], g.entry)
    requires forall l :: l in Members(s.partitions[TopLevel]) <==> Reachable(g, l)
    ensures Valid(g, Wto(s.partitions[TopLevel], s.containing, s.enclosing))
  {
    hide Ordered, RealCycles, Reachable, Nested;
    OrderedIsWto(g, s.partitions[TopLevel]);
  }

  lemma {:induction false} EdgesInside(g: Cfg)
    requires g.WellFormed()
    ensures forall u, v :: u in g.children && v in g.children[u] ==> v in g.children
  {
  }

  lemma {:induction false} StackSound(g: Cfg, s: State, fs: seq<Frame>)
    requires Inv(g, s, fs)
    ensures forall q :: 0 <= q < |s.stack| ==> s.stack[q] in s.data && !IsInf(s, s.stack[q])
  {
    hide Shape, Vertices, Heads, AllFinished, Levels, Partitions, Links, OnlyReachable, Covered, TasksOf;
  }

  lemma {:induction false} ResetNothing(data: map<Label, VertexData>, stack: seq<Label>)
    ensures Reset(data, stack[|stack|..]) == data
  {
  }

  lemma {:induction false} ResetKeys(data: map<Label, VertexData>, elements: seq<Label>)
    ensures Reset(data, elements).Keys == data.Keys
  {
  }

  lemma {:induction false} ResetOneMore(data: map<Label, VertexData>, stack: seq<Label>, k: nat)
    requires k < |stack| && stack[k] in data
    ensures Reset(data, stack[k + 1..])[stack[k] := Unvisited] == Reset(data, stack[k..])
  {
    assert stack[k..] == [stack[k]] + stack[k + 1..];
  }

  /** A pushed successor goes to the components of the cycle it is in. */
  lemma {:induction false} PushIsUniform(s: State, fs: seq<Frame>)
    requires s.tasks != [] && fs != [] && s.tasks == TasksOf(fs, |fs|)
    ensures Top(s).kind == TaskKind.PushSuccessors ==> Top(s).partition == Top(s).containingCycle
  {
    if fs[|fs| - 1].pending != [] {
      TopPush(s, fs);
    } else if |fs| > 1 {
      TopVisit(s, fs);
    } else {
      IdleHasNoTask(s, fs);
    }
  }

  lemma {:induction false} FinalBudget(s: State)
    requires Budget(s)
    ensures s.num <= |s.data.Keys| * (|s.data.Keys| + 1)
  {
    var n, u := |s.data.Keys|, |Unfinished(s)|;
    SubsetSize(Unfinished(s), s.data.Keys);
    assert n * (1 + n - u) == n * (n + 1) - n * u;
    assert n * u >= 0;
  }

  lemma {:induction false} InvKeys(g: Cfg, s: State, fs: seq<Frame>)
    requires Inv(g, s, fs)
    ensures s.data.Keys == g.children.Keys && fs != [] && s.tasks == TasksOf(fs, |fs|)
  {
    hide Vertices, Heads, AllFinished, Levels, Partitions, Links, OnlyReachable, Covered, TasksOf;
  }

  /** The order of a graph: every label reachable from the entry occurs exactly once, and every edge
      goes forward in the order or to the head of a cycle around its source. */
  method BuildWto(cfg: Cfg) returns (w: Wto)
    requires cfg.WellFormed()
    ensures Valid(cfg, w) && IsBuilt(cfg, w)
  {
    hide Valid, IsBuilt;
    var builder := new WtoBuilder(cfg);
    builder.Run();
    w := Wto(builder.partitions[TopLevel], builder.containing, builder.enclosing);
  }
}
