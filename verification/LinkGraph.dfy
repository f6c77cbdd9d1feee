/** What linking all programs amounts to (src/elf_loader.cpp:833-881, src/elf_loader.cpp:1086-1091).

    The reference is a family of rounds: round 0 holds the programs as read, each further round
    assembles every program from the bodies of the round before.  A program that does not call
    itself, directly or through others, settles after as many rounds as its calls nest. */
module LinkGraph {
  import opened MachineIntegers
  import opened Options
  import opened WtoTree
  import opened LinkModel

  // ----- the reference -----

  ghost function Round(p: Input, f: nat): (r: seq<seq<Inst>>)
    ensures |r| == |p.raw|
  {
    if f == 0 then seq(|p.raw|, k requires 0 <= k < |p.raw| => p.raw[k].insts)
    else
      var before := Round(p, f - 1);
      seq(|p.raw|, k requires 0 <= k < |p.raw| => Assembled(p, before, k, |p.relocs|).insts)
  }

  /** The linked bodies: after as many rounds as there are programs. */
  ghost function LinkedBodies(p: Input): (r: seq<seq<Inst>>)
    ensures |r| == |p.raw|
  {
    Round(p, |p.raw|)
  }

  /** Linking program `k` gets as far as its call of `t`: no target of an earlier relocation is missing. */
  ghost predicate Follows(p: Input, k: nat, t: nat) {
    k < |p.raw| && exists i :: 0 <= i < |p.relocs| && FollowsAt(p, k, i, t)
  }

  ghost predicate FollowsAt(p: Input, k: nat, i: nat, t: nat)
    requires k < |p.raw| && i < |p.relocs|
  {
    p.Concerns(i, k) && First(p, k, i) && Present(p, k, i) && Callee(p, i) == Some(t)
  }

  lemma {:induction false} FollowsIsCall(p: Input, k: nat, t: nat)
    ensures Follows(p, k, t) ==> Calls(p, k, t) && t < |p.raw|
    ensures Calls(p, k, t) && Present(p, k, |p.relocs|) ==> Follows(p, k, t)
  {
    hide First;
    if Calls(p, k, t) && Present(p, k, |p.relocs|) {
      var i :| 0 <= i < |p.relocs| && p.Concerns(i, k) && First(p, k, i) && Callee(p, i) == Some(t);
      assert FollowsAt(p, k, i, t);
    }
  }

  ghost predicate CallPath(p: Input, path: seq<nat>) {
    |path| >= 2 && forall i, j :: 0 <= i && j == i + 1 && j < |path| ==> Follows(p, path[i], path[j])
  }

  /** Some chain of calls leads from `a` to `b`.  If no target is missing these are all calls. */
  ghost predicate Reaches(p: Input, a: nat, b: nat) {
    exists path :: CallPath(p, path) && path[0] == a && path[|path| - 1] == b
  }

  ghost predicate Acyclic(p: Input) {
    forall k: nat :: !Reaches(p, k, k)
  }

  ghost predicate AllPresent(p: Input) {
    forall k :: 0 <= k < |p.raw| ==> Present(p, k, |p.relocs|)
  }

  /** The immediate of relocation `i` fits a 32-bit integer. */
  ghost predicate FitsAt(p: Input, k: nat, i: nat)
    requires k < |p.raw| && i < |p.relocs|
  {
    var a, r := Assembled(p, LinkedBodies(p), k, i + 1), p.relocs[i];
    r.target in a.offsets ==> INT32_MIN <= a.offsets[r.target] - r.source - 1 <= INT32_MAX
  }

  ghost predicate Fits(p: Input, k: nat, n: nat)
    requires k < |p.raw| && n <= |p.relocs|
  {
    forall i :: 0 <= i < n && p.Concerns(i, k) ==> FitsAt(p, k, i)
  }

  ghost predicate AllFit(p: Input) {
    forall k :: 0 <= k < |p.raw| ==> Fits(p, k, |p.relocs|)
  }

  /** What linking asks of its input. */
  ghost predicate Linkable(p: Input) {
    Acyclic(p) && AllPresent(p) && AllFit(p)
  }

  lemma {:induction false} OneCall(p: Input, a: nat, b: nat)
    requires Follows(p, a, b)
    ensures Reaches(p, a, b)
  {
    var path := [a, b];
    assert CallPath(p, path) && path[0] == a && path[|path| - 1] == b;
  }

  lemma {:induction false} OneMoreCall(p: Input, a: nat, b: nat, c: nat)
    requires Reaches(p, a, b) && Follows(p, b, c)
    ensures Reaches(p, a, c)
  {
    var path :| CallPath(p, path) && path[0] == a && path[|path| - 1] == b;
    var longer := path + [c];
    forall i, j | 0 <= i && j == i + 1 && j < |longer| ensures Follows(p, longer[i], longer[j]) {
      if j < |path| {
        assert Follows(p, path[i], path[j]);
      }
    }
    assert CallPath(p, longer) && longer[0] == a && longer[|longer| - 1] == c;
  }

  lemma {:induction false} CallBefore(p: Input, a: nat, b: nat, c: nat)
    requires Follows(p, a, b) && Reaches(p, b, c)
    ensures Reaches(p, a, c)
  {
    var path :| CallPath(p, path) && path[0] == b && path[|path| - 1] == c;
    var longer := [a] + path;
    forall i, j | 0 <= i && j == i + 1 && j < |longer| ensures Follows(p, longer[i], longer[j]) {
      if i > 0 {
        assert Follows(p, path[i - 1], path[j - 1]);
      }
    }
    assert CallPath(p, longer) && longer[0] == a && longer[|longer| - 1] == c;
  }

  lemma {:induction false} LastCall(p: Input, a: nat, b: nat)
    requires Reaches(p, a, b)
    ensures exists x :: Follows(p, x, b)
  {
    var path :| CallPath(p, path) && path[0] == a && path[|path| - 1] == b;
    assert Follows(p, path[|path| - 2], path[|path| - 1]);
  }

  // ----- missing targets -----

  /** Linking `k` stops at relocation `i`, whose target does not exist although its section does. */
  ghost predicate StopsAt(p: Input, k: nat, i: nat)
    requires k < |p.raw| && i < |p.relocs|
  {
    p.Concerns(i, k) && First(p, k, i) && Present(p, k, i) && Callee(p, i).None? && p.relocs[i].section.Some?
  }

  /** Linking `k` comes upon an invalid section. */
  ghost predicate InvalidAt(p: Input, k: nat, i: nat)
    requires k < |p.raw| && i < |p.relocs|
  {
    p.Concerns(i, k) && First(p, k, i) && Present(p, k, i) && p.relocs[i].section.None?
  }

  ghost predicate Stops(p: Input, k: nat) {
    k < |p.raw| && exists i :: 0 <= i < |p.relocs| && StopsAt(p, k, i)
  }

  /** Some target of `k` is missing. */
  ghost predicate Lacks(p: Input, k: nat) {
    k < |p.raw| && !Present(p, k, |p.relocs|)
  }

  /** Linking `k` comes upon a missing target, its own or that of a program it calls. */
  ghost predicate Doomed(p: Input, k: nat) {
    Lacks(p, k) || exists t :: Lacks(p, t) && Reaches(p, k, t)
  }

  /** Linking gets to a call of a program with a missing target. */
  ghost predicate CallsLacking(p: Input) {
    exists k, t :: Follows(p, k, t) && Lacks(p, t)
  }

  ghost predicate Called(p: Input, t: nat) {
    exists k :: Follows(p, k, t)
  }

  lemma {:induction false} DoomedCaller(p: Input, k: nat, t: nat)
    requires Follows(p, k, t) && Doomed(p, t)
    ensures Doomed(p, k)
  {
    hide Follows, Reaches, Lacks;
    if Lacks(p, t) {
      OneCall(p, k, t);
    } else {
      var x :| Lacks(p, x) && Reaches(p, t, x);
      CallBefore(p, k, t, x);
    }
  }

  lemma {:induction false} DoomedCallee(p: Input, k: nat)
    requires Called(p, k) && Doomed(p, k)
    ensures CallsLacking(p)
  {
    hide Follows, Reaches, Lacks;
    if !Lacks(p, k) {
      var x :| Lacks(p, x) && Reaches(p, k, x);
      LastCall(p, k, x);
    }
  }

  /** Every relocation that linking gets to has an immediate that fits. */
  ghost predicate ReachedFit(p: Input) {
    forall k, i :: 0 <= k < |p.raw| && 0 <= i < |p.relocs| && p.Concerns(i, k) && Present(p, k, i + 1) ==>
                     FitsAt(p, k, i)
  }

  /** What it takes for linking to go through although some targets may be missing: programs that lack
      one lie outside the desired section, name an existing section, and are not called. */
  ghost predicate Completes(p: Input, desired: string) {
    && Acyclic(p) && ReachedFit(p) && !CallsLacking(p)
    && forall k :: 0 <= k < |p.raw| && Lacks(p, k) ==> p.raw[k].section != desired && Stops(p, k)
  }

  /** Linking does not get beyond a missing target. */
  lemma {:induction false} NotBeyond(p: Input, k: nat, i: nat)
    requires k < |p.raw| && i < |p.relocs| && p.Concerns(i, k) && First(p, k, i) && Callee(p, i).None?
    ensures forall n: nat :: i < n <= |p.relocs| ==> !Present(p, k, n)
  {
  }

  lemma {:induction false} LacksOne(p: Input, k: nat)
    requires Lacks(p, k)
    ensures !AllPresent(p)
  {
  }

  lemma {:induction false} PresentPrefix(p: Input, k: nat, n: nat, m: nat)
    requires k < |p.raw| && n <= m <= |p.relocs| && Present(p, k, m)
    ensures Present(p, k, n)
  {
  }

  lemma {:induction false} FitIfPresent(p: Input)
    requires AllPresent(p)
    ensures ReachedFit(p) <==> AllFit(p)
  {
    hide Present, FitsAt;
    if ReachedFit(p) {
      forall k | 0 <= k < |p.raw| ensures Fits(p, k, |p.relocs|) {
        forall i | 0 <= i < |p.relocs| && p.Concerns(i, k) ensures FitsAt(p, k, i) {
          PresentPrefix(p, k, i + 1, |p.relocs|);
        }
      }
    }
    if AllFit(p) {
      forall k, i | 0 <= k < |p.raw| && 0 <= i < |p.relocs| && p.Concerns(i, k) ensures FitsAt(p, k, i) {
        assert Fits(p, k, |p.relocs|);
      }
    }
  }

  /** If no target is missing, completing means that everything is linked, whatever section is desired. */
  lemma {:induction false} CompletesIfPresent(p: Input, desired: string)
    requires AllPresent(p)
    ensures Completes(p, desired) <==> Linkable(p)
  {
    hide Present, Acyclic, ReachedFit, AllFit, Follows, Stops;
    FitIfPresent(p);
    forall k: nat ensures !Lacks(p, k) {
    }
  }

  // ----- settled programs -----

  /** From round `d` on, program `k` does not change. */
  ghost predicate Settles(p: Input, k: nat, d: nat)
    requires k < |p.raw|
  {
    forall f: nat :: f >= d ==> Round(p, f)[k] == Round(p, d)[k]
  }

  /** Programs in the order in which they were finished: the ones they call come first. */
  ghost predicate Finished(p: Input, order: seq<nat>) {
    && NoDup(order)
    && (forall i :: 0 <= i < |order| ==> order[i] < |p.raw|)
    && (forall i :: 0 <= i < |order| ==> FinishedAt(p, order, i))
  }

  ghost predicate FinishedAt(p: Input, order: seq<nat>, i: nat)
    requires i < |order| && order[i] < |p.raw|
  {
    && Present(p, order[i], |p.relocs|) && Fits(p, order[i], |p.relocs|)
    && Settles(p, order[i], i + 1)
    && forall t :: Calls(p, order[i], t) ==> t in order[..i]
  }

  lemma {:induction false} DistinctFit(order: seq<nat>, n: nat)
    requires NoDup(order) && forall x :: x in order ==> x < n
    ensures |order| <= n
    decreases n
  {
    if order != [] {
      assert order[0] in order;
      if n - 1 in order {
        var i :| 0 <= i < |order| && order[i] == n - 1;
        var rest := order[..i] + order[i + 1..];
        forall x | x in rest ensures x < n - 1 {
          assert x in order;
        }
        DistinctFit(rest, n - 1);
      } else {
        DistinctFit(order, n - 1);
      }
    }
  }

  /** A finished program has its linked body from its round on. */
  lemma {:induction false} FinishedBody(p: Input, order: seq<nat>, i: nat, f: nat)
    requires Finished(p, order) && i < |order| && f > i
    ensures order[i] < |p.raw| && Round(p, f)[order[i]] == LinkedBodies(p)[order[i]]
  {
    hide Present, Fits, NoDup, Round;
    OrderIsShort(p, order);
    assert FinishedAt(p, order, i);
    assert Round(p, f)[order[i]] == Round(p, i + 1)[order[i]];
    assert Round(p, |p.raw|)[order[i]] == Round(p, i + 1)[order[i]];
  }

  lemma {:induction false} OrderIsShort(p: Input, order: seq<nat>)
    requires Finished(p, order)
    ensures |order| <= |p.raw|
  {
    DistinctFit(order, |p.raw|);
  }

  /** Once all programs that `k` calls are finished, `k` assembled from their bodies is its linked body. */
  lemma {:induction false} AssembledIsLinked(p: Input, order: seq<nat>, k: nat, f: nat)
    requires Finished(p, order) && k < |p.raw| && f >= |order| && Present(p, k, |p.relocs|)
    requires forall t :: Calls(p, k, t) ==> t in order
    ensures Assembled(p, Round(p, f), k, |p.relocs|) == Assembled(p, LinkedBodies(p), k, |p.relocs|)
  {
    hide Finished, Round, LinkedBodies, Assembled, First;
    forall i | 0 <= i < |p.relocs| && p.Concerns(i, k) && First(p, k, i)
      ensures Round(p, f)[Callee(p, i).value] == LinkedBodies(p)[Callee(p, i).value]
    {
      var t := Callee(p, i).value;
      assert Calls(p, k, t);
      var j :| 0 <= j < |order| && order[j] == t;
      FinishedBody(p, order, j, f);
    }
    AssembledSame(p, LinkedBodies(p), Round(p, f), k, |p.relocs|);
  }

  lemma {:induction false} RoundStep(p: Input, f: nat, k: nat)
    requires f > 0 && k < |p.raw|
    ensures Round(p, f)[k] == Assembled(p, Round(p, f - 1), k, |p.relocs|).insts
  {
  }

  lemma {:induction false} FinishedMore(p: Input, order: seq<nat>, k: nat)
    requires Finished(p, order) && k < |p.raw| && k !in order && Present(p, k, |p.relocs|) && Fits(p, k, |p.relocs|)
    requires forall t :: Calls(p, k, t) ==> t in order
    ensures Finished(p, order + [k]) && LinkedBodies(p)[k] == Assembled(p, LinkedBodies(p), k, |p.relocs|).insts
  {
    hide Present, Fits, Round, LinkedBodies, Assembled, Calls;
    var longer := order + [k];
    var n := |order|;
    forall f: nat | f > n ensures Round(p, f)[k] == Assembled(p, LinkedBodies(p), k, |p.relocs|).insts {
      AssembledIsLinked(p, order, k, f - 1);
      RoundStep(p, f, k);
    }
    assert longer[..n] == order;
    forall i | 0 <= i < |longer| ensures longer[i] < |p.raw| && FinishedAt(p, longer, i) {
      if i < n {
        assert FinishedAt(p, order, i) && longer[..i] == order[..i];
      }
    }
    assert NoDup(longer) by {
      NoDupConcat(order, [k]);
    }
    assert Finished(p, longer);
    FinishedBody(p, longer, n, n + 1);
  }

  /** If all programs that are called can be put in order, no chain of calls returns to its start. */
  lemma {:induction false} FinishedIsAcyclic(p: Input, order: seq<nat>)
    requires Finished(p, order) && forall k: nat :: Called(p, k) ==> k in order
    ensures Acyclic(p)
  {
    hide Present, Fits, Settles, Calls, Follows;
    forall k: nat ensures !Reaches(p, k, k) {
      forall path | CallPath(p, path) && path[0] == k ensures path[|path| - 1] != k {
        if path[|path| - 1] == k {
          assert Follows(p, path[|path| - 2], path[|path| - 1]);
          PathDescends(p, order, path, |path| - 1);
        }
      }
    }
  }

  lemma {:induction false} PathDescends(p: Input, order: seq<nat>, path: seq<nat>, n: nat)
    requires Finished(p, order) && CallPath(p, path) && 0 < n < |path| && path[0] in order
    ensures path[n] != path[0]
    ensures exists i, j :: 0 <= j < i < |order| && order[i] == path[0] && order[j] == path[n]
  {
    hide Present, Fits, Settles, Calls, Follows;
    FollowsIsCall(p, path[n - 1], path[n]);
    if n == 1 {
      var i :| 0 <= i < |order| && order[i] == path[0];
      assert Follows(p, path[0], path[1]);
      assert FinishedAt(p, order, i);
      var j :| 0 <= j < |order[..i]| && order[..i][j] == path[1];
      assert order[j] == path[1];
    } else {
      PathDescends(p, order, path, n - 1);
      var i, j :| 0 <= j < i < |order| && order[i] == path[0] && order[j] == path[n - 1];
      assert Follows(p, path[n - 1], path[n]);
      assert FinishedAt(p, order, j);
      var l :| 0 <= l < |order[..j]| && order[..j][l] == path[n];
      assert order[l] == path[n];
    }
  }

  /** Every linked body is assembled from the linked bodies of the programs it calls. */
  ghost predicate Solved(p: Input) {
    forall k: nat :: k < |p.raw| ==> LinkedBodies(p)[k] == Assembled(p, LinkedBodies(p), k, |p.relocs|).insts
  }

  lemma {:induction false} FinishedIsSolved(p: Input, order: seq<nat>)
    requires Finished(p, order) && forall k: nat :: k < |p.raw| ==> k in order
    ensures Solved(p)
  {
    hide Present, Fits, LinkedBodies, Round, Assembled, Calls;
    forall k: nat | k < |p.raw| ensures LinkedBodies(p)[k] == Assembled(p, LinkedBodies(p), k, |p.relocs|).insts {
      assert k in order;
      var i :| 0 <= i < |order| && order[i] == k;
      assert FinishedAt(p, order, i);
      AssembledIsLinked(p, order, k, |order|);
      RoundStep(p, |order| + 1, k);
      FinishedBody(p, order, i, |order| + 1);
    }
  }

  /** A linked program is as long as its own instructions and the linked bodies of the programs that it
      calls directly, each counted once. */
  lemma {:induction false} LinkedLength(p: Input, k: nat)
    requires Solved(p) && AllPresent(p) && p.InRange() && k < |p.raw|
    ensures var a := Assembled(p, LinkedBodies(p), k, |p.relocs|);
            && |LinkedBodies(p)[k]| == |p.raw[k].insts| + TotalLength(LinkedBodies(p), a.appended)
            && NoDup(a.appended) && forall t: nat :: t in a.appended <==> Calls(p, k, t)
  {
    hide LinkedBodies, Assembled, Calls, First;
    AssembledPlaced(p, LinkedBodies(p), k, |p.relocs|);
    forall t: nat ensures t in Assembled(p, LinkedBodies(p), k, |p.relocs|).appended <==> Calls(p, k, t) {
      AppendedAreCallees(p, LinkedBodies(p), k, t);
    }
  }

  // ----- acyclic programs can be put in order -----

  /** A chain of calls without repetition. */
  ghost predicate Chain(p: Input, path: seq<nat>) {
    && path != [] && NoDup(path) && (forall x :: x in path ==> x < |p.raw|)
    && forall i, j :: 0 <= i && j == i + 1 && j < |path| ==> Follows(p, path[i], path[j])
  }

  lemma {:induction false} ChainGrows(p: Input, path: seq<nat>, t: nat)
    requires Acyclic(p) && Chain(p, path) && Follows(p, path[|path| - 1], t)
    ensures Chain(p, path + [t])
  {
    FollowsIsCall(p, path[|path| - 1], t);
    hide Follows;
    var longer := path + [t];
    forall i, j | 0 <= i && j == i + 1 && j < |longer| ensures Follows(p, longer[i], longer[j]) {
      if j < |path| {
        assert Follows(p, path[i], path[j]);
      }
    }
    forall i | 0 <= i < |path| ensures path[i] != t {
      var round := longer[i..];
      forall a, b | 0 <= a && b == a + 1 && b < |round| ensures Follows(p, round[a], round[b]) {
        assert Follows(p, longer[i + a], longer[i + b]);
      }
      assert CallPath(p, round) && round[|round| - 1] == t;
      assert Reaches(p, path[i], t);
    }
  }

  /** Some program outside the order calls only programs inside. */
  lemma {:induction false} NextInOrder(p: Input, order: seq<nat>, path: seq<nat>) returns (k: nat)
    requires Acyclic(p) && AllPresent(p) && Chain(p, path) && path[|path| - 1] !in order
    ensures k < |p.raw| && k !in order && forall t :: Calls(p, k, t) ==> t in order
    decreases |p.raw| - |path|
  {
    k := path[|path| - 1];
    assert k in path;
    if t :| Calls(p, k, t) && t !in order {
      FollowsIsCall(p, k, t);
      ChainGrows(p, path, t);
      DistinctFit(path + [t], |p.raw|);
      k := NextInOrder(p, order, path + [t]);
    }
  }

  lemma {:induction false} OrderAll(p: Input, order: seq<nat>) returns (all: seq<nat>)
    requires Linkable(p) && Finished(p, order)
    ensures Finished(p, all) && forall k: nat :: k < |p.raw| ==> k in all
    decreases |p.raw| - |order|
  {
    hide Finished, Follows, Calls, Acyclic, Present, Fits;
    all := order;
    if first: nat :| first < |p.raw| && first !in order {
      SingleChain(p, first);
      var k := NextInOrder(p, order, [first]);
      assert Present(p, k, |p.relocs|) && Fits(p, k, |p.relocs|);
      FinishedMore(p, order, k);
      OrderIsShort(p, order + [k]);
      all := OrderAll(p, order + [k]);
    }
  }

  lemma {:induction false} SingleChain(p: Input, k: nat)
    requires k < |p.raw|
    ensures Chain(p, [k])
  {
  }

  lemma {:induction false} EmptyOrder(p: Input)
    ensures Finished(p, [])
  {
  }

  /** The linked bodies of linkable programs solve the equations of linking. */
  lemma {:induction false} LinkableIsSolved(p: Input)
    requires Linkable(p)
    ensures Solved(p)
  {
    hide Finished, Linkable, Solved;
    EmptyOrder(p);
    var all := OrderAll(p, []);
    FinishedIsSolved(p, all);
  }
}
