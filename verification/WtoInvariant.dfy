/** The invariant that the order builder's worklist keeps.

    The worklist is read as a stack of frames.  A closed frame is a vertex whose visit is in
    progress and which sits on the depth-first stack at position `base`; an open frame is a cycle
    under construction, entered when the depth-first stack had height `base`, whose members are
    `comp` (head first).  Frame 0 is the order itself.  Above each frame lie the labels it still
    has to push. */
module WtoInvariant {
  import opened ControlFlow
  import opened WtoTree
  import opened WtoSteps

  datatype Frame = Frame(open: bool, vertex: Label, base: nat, comp: seq<Label>, pending: seq<Label>)

  // ----- frames and tasks -----

  function PidAt(fs: seq<Frame>, k: nat): PartitionId
    requires k < |fs|
  {
    if k == 0 then TopLevel else if fs[k].open then CycleOf(fs[k].vertex) else PidAt(fs, k - 1)
  }

  function FrameTasks(fs: seq<Frame>, k: nat): seq<VisitArgs>
    requires k < |fs|
  {
    (if k == 0 then []
     else if fs[k].open then [VisitArgs(ContinueVisit, fs[k].vertex, PidAt(fs, k - 1), CycleOf(fs[k].vertex))]
     else [VisitArgs(StartVisit, fs[k].vertex, PidAt(fs, k), PidAt(fs, k))])
    + PushTasks(fs[k].pending, PidAt(fs, k))
  }

  function TasksOf(fs: seq<Frame>, n: nat): seq<VisitArgs>
    requires n <= |fs|
  {
    if n == 0 then [] else TasksOf(fs, n - 1) + FrameTasks(fs, n - 1)
  }

  /** The base of the innermost open frame at or below frame `k`. */
  function LevelBase(fs: seq<Frame>, k: nat): nat
    requires k < |fs|
  {
    if k == 0 || fs[k].open then fs[k].base else LevelBase(fs, k - 1)
  }

  function Hi(s: State, fs: seq<Frame>, k: nat): nat
    requires k < |fs|
  {
    if k + 1 < |fs| then fs[k + 1].base else |s.stack|
  }

  function Lo(f: Frame): nat {
    if f.open then f.base else f.base + 1
  }

  ghost predicate Fits(s: State, fs: seq<Frame>, k: nat)
    requires k < |fs|
  {
    Lo(fs[k]) <= Hi(s, fs, k) && (fs[k].open ==> fs[k].base == Hi(s, fs, k))
  }

  ghost predicate Shape(s: State, fs: seq<Frame>) {
    && |fs| >= 1
    && fs[0].open && fs[0].base == 0
    && (forall k: nat {:trigger Fits(s, fs, k)} :: k < |fs| ==> Fits(s, fs, k))
  }

  ghost predicate Vertices(g: Cfg, s: State, fs: seq<Frame>) {
    && (forall k :: 1 <= k < |fs| ==> fs[k].vertex in g.children)
    && (forall k :: 1 <= k < |fs| && !fs[k].open ==> fs[k].base < |s.stack| && s.stack[fs[k].base] == fs[k].vertex)
  }

  // ----- depth-first numbers -----

  ghost predicate IsInf(s: State, l: Label) {
    l in s.data && s.data[l].dfn == Infinity
  }

  ghost predicate IsZero(s: State, l: Label) {
    l in s.data && s.data[l].dfn == Finite(0)
  }

  /** The finite depth-first number of `l`, and the number kept by its visit. */
  function Dn(s: State, l: Label): nat {
    if l in s.data && s.data[l].dfn.Finite? then s.data[l].dfn.n else 0
  }

  function Hd(s: State, l: Label): nat {
    if l in s.data then s.data[l].headDfn else 0
  }

  ghost predicate Numbers(g: Cfg, s: State) {
    && s.data.Keys == g.children.Keys
    && (forall i :: 0 <= i < |s.stack| ==> s.stack[i] in s.data && s.data[s.stack[i]].dfn.Finite?
                                           && 0 < s.data[s.stack[i]].dfn.n <= s.num)
    && (forall i, j :: 0 <= i < j < |s.stack| ==> Dn(s, s.stack[i]) < Dn(s, s.stack[j]))
    && (forall l :: l in s.data && s.data[l].dfn.Finite? && s.data[l].dfn.n > 0 ==> l in s.stack)
  }

  ghost predicate Heads(s: State, fs: seq<Frame>) {
    && (forall l :: l in s.data && s.data[l].dfn == Finite(0) ==> s.data[l].headDfn == 0)
    && (forall k :: 1 <= k < |fs| && !fs[k].open ==> fs[k].vertex in s.data && s.data[fs[k].vertex].headDfn == 0)
  }

  // ----- finished vertices that wait on the stack -----

  ghost predicate InSegment(s: State, fs: seq<Frame>, k: int, i: int) {
    1 <= k < |fs| && !fs[k].open && fs[k].base < i < Hi(s, fs, k) <= |s.stack|
  }

  /** The number kept for position `i` is that of a lower position `j` of the same level. */
  ghost predicate LowLink(g: Cfg, s: State, fs: seq<Frame>, k: nat, i: nat, j: nat)
    requires InSegment(s, fs, k, i)
  {
    && LevelBase(fs, k) <= j < i
    && Dn(s, s.stack[j]) == Hd(s, s.stack[i])
    && Connected(g, Range(s.stack[j..Hi(s, fs, k)]), s.stack[i], s.stack[j])
  }

  ghost predicate TreeEdge(g: Cfg, s: State, fs: seq<Frame>, k: nat, i: nat, j: nat)
    requires InSegment(s, fs, k, i)
  {
    && fs[k].base <= j < i
    && g.Edge(s.stack[j], s.stack[i])
    && (j == fs[k].base || Hd(s, s.stack[j]) <= Hd(s, s.stack[i]))
  }

  ghost predicate SeenAbove(s: State, x: Label, hi: nat, low: nat)
    requires hi <= |s.stack|
  {
    low <= Dn(s, x) && exists j :: 0 <= j < hi && s.stack[j] == x
  }

  ghost predicate Finished(g: Cfg, s: State, fs: seq<Frame>, k: nat, i: nat)
    requires InSegment(s, fs, k, i)
  {
    var w := s.stack[i];
    && 0 < Hd(s, w) < Dn(s, w)
    && (exists j: nat :: LowLink(g, s, fs, k, i, j))
    && (exists j: nat :: TreeEdge(g, s, fs, k, i, j))
    && (forall x :: g.Edge(w, x) ==> IsInf(s, x) || SeenAbove(s, x, Hi(s, fs, k), Hd(s, w)))
  }

  ghost predicate AllFinished(g: Cfg, s: State, fs: seq<Frame>) {
    forall k: nat, i: nat {:trigger Finished(g, s, fs, k, i)} :: InSegment(s, fs, k, i) ==> Finished(g, s, fs, k, i)
  }

  // ----- open cycles -----

  ghost predicate FollowsEarlier(g: Cfg, comp: seq<Label>, i: nat)
    requires i < |comp|
  {
    exists j :: 0 <= j < i && g.Edge(comp[j], comp[i])
  }

  ghost predicate CompTree(g: Cfg, comp: seq<Label>) {
    && comp != []
    && (forall i: nat {:trigger FollowsEarlier(g, comp, i)} :: 1 <= i < |comp| ==> FollowsEarlier(g, comp, i))
    && (forall i :: 0 <= i < |comp| ==> Connected(g, Range(comp), comp[i], comp[0]))
    && (forall i :: 0 <= i < |comp| ==> Connected(g, Range(comp), comp[0], comp[i]))
  }

  ghost predicate Level(g: Cfg, s: State, fs: seq<Frame>, k: nat)
    requires k < |fs|
  {
    var f := fs[k];
    && CompTree(g, f.comp) && f.comp[0] == f.vertex && IsInf(s, f.vertex)
    && (forall l :: l in f.comp ==> l in s.data)
    && (forall u, x :: u in f.comp && g.Edge(u, x) ==> x in f.comp || IsInf(s, x))
    && (forall i :: f.base <= i < |s.stack| ==> s.stack[i] in f.comp)
    && (forall i :: 0 <= i < f.base && i < |s.stack| ==> s.stack[i] !in f.comp)
    && (forall m :: k < m < |fs| && fs[m].open ==> Range(fs[m].comp) <= Range(f.comp))
  }

  ghost predicate Levels(g: Cfg, s: State, fs: seq<Frame>) {
    forall k: nat {:trigger Level(g, s, fs, k)} :: 1 <= k < |fs| && fs[k].open ==> Level(g, s, fs, k)
  }

  // ----- edges between frames -----

  /** `x` is a label that frame `k` has to look at. */
  ghost predicate Target(g: Cfg, fs: seq<Frame>, k: nat, x: Label)
    requires k < |fs|
  {
    if k == 0 then x == g.entry else g.Edge(fs[k].vertex, x)
  }

  ghost predicate Linked(g: Cfg, fs: seq<Frame>, k: nat)
    requires 1 <= k < |fs|
  {
    Target(g, fs, k - 1, fs[k].vertex)
  }

  ghost predicate Links(g: Cfg, fs: seq<Frame>) {
    && (forall k: nat {:trigger Linked(g, fs, k)} :: 1 <= k < |fs| ==> Linked(g, fs, k))
    && (forall k: nat, x {:trigger Target(g, fs, k, x)} :: k < |fs| && x in fs[k].pending ==> Target(g, fs, k, x))
  }

  ghost predicate InOpenAbove(fs: seq<Frame>, k: nat, x: Label) {
    exists m :: k < m < |fs| && fs[m].open && x in fs[m].comp
  }

  ghost predicate Covered(g: Cfg, s: State, fs: seq<Frame>) {
    forall k: nat, x {:trigger Target(g, fs, k, x)} :: k < |fs| && Target(g, fs, k, x) && IsZero(s, x)
                                                       ==> x in fs[k].pending || InOpenAbove(fs, k, x)
  }

  // ----- partitions -----

  ghost function PartMembers(parts: map<PartitionId, seq<Component>>, id: PartitionId): set<Label> {
    if id in parts then Members(parts[id]) else {}
  }

  /** Everything placed in the levels below that of frame `k`, and the heads of open frames up to `k`. */
  ghost function Context(fs: seq<Frame>, parts: map<PartitionId, seq<Component>>, k: nat): set<Label>
    requires k < |fs|
    decreases k, 0
  {
    if k == 0 then {}
    else if fs[k].open then Done(fs, parts, k - 1) + {fs[k].vertex}
    else Context(fs, parts, k - 1)
  }

  ghost function Done(fs: seq<Frame>, parts: map<PartitionId, seq<Component>>, k: nat): set<Label>
    requires k < |fs|
    decreases k, 1
  {
    Context(fs, parts, k) + PartMembers(parts, PidAt(fs, k))
  }

  /** Every cycle of the partition, at any depth, is strongly connected. */
  ghost predicate RealCycles(g: Cfg, cs: seq<Component>) {
    forall c :: c in cs ==> RealComponent(g, c)
  }

  ghost predicate RealComponent(g: Cfg, c: Component) {
    match c
    case Vertex(_) => true
    case Cycle(cs) =>
      && (forall x, y :: x in Members(cs) && y in Members(cs) ==> Connected(g, Members(cs), x, y))
      && RealCycles(g, cs)
  }

  ghost predicate Partition(g: Cfg, s: State, fs: seq<Frame>, k: nat)
    requires k < |fs|
  {
    var id := PidAt(fs, k);
    && id in s.partitions
    && Ordered(g, s.partitions[id], Context(fs, s.partitions, k))
    && NoDup(Order(s.partitions[id]))
    && Members(s.partitions[id]) !! Context(fs, s.partitions, k)
    && RealCycles(g, s.partitions[id])
    && (forall u, x :: u in Members(s.partitions[id]) && g.Edge(u, x) ==> IsInf(s, x))
  }

  ghost predicate OpenPartition(s: State, fs: seq<Frame>, k: nat)
    requires 1 <= k < |fs|
  {
    && Range(fs[k].comp) !! Done(fs, s.partitions, k - 1)
    && PartMembers(s.partitions, CycleOf(fs[k].vertex)) <= Range(fs[k].comp)
  }

  ghost predicate Partitions(g: Cfg, s: State, fs: seq<Frame>) {
    && |fs| >= 1
    && (forall k: nat {:trigger Partition(g, s, fs, k)} :: k < |fs| ==> Partition(g, s, fs, k))
    && (forall k: nat {:trigger OpenPartition(s, fs, k)} :: 1 <= k < |fs| && fs[k].open ==> OpenPartition(s, fs, k))
    && (forall l :: IsInf(s, l) <==> l in Done(fs, s.partitions, |fs| - 1))
  }

  ghost predicate OnlyReachable(g: Cfg, s: State) {
    forall l :: l in s.data && s.data[l].dfn != Finite(0) ==> Reachable(g, l)
  }

  /** Everything but the coverage of targets and the worklist. */
  ghost predicate Core(g: Cfg, s: State, fs: seq<Frame>) {
    && g.WellFormed()
    && Shape(s, fs)
    && Vertices(g, s, fs)
    && Numbers(g, s)
    && Heads(s, fs)
    && AllFinished(g, s, fs)
    && Levels(g, s, fs)
    && Links(g, fs)
    && Partitions(g, s, fs)
    && OnlyReachable(g, s)
  }

  ghost predicate Inv(g: Cfg, s: State, fs: seq<Frame>) {
    && Core(g, s, fs)
    && Covered(g, s, fs)
    && s.tasks == TasksOf(fs, |fs|)
  }
}
