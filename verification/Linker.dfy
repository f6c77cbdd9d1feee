/** Linking local calls (src/elf_loader.cpp:833-881, src/elf_loader.cpp:1086-1091). */
module Linker {
  import opened MachineIntegers
  import opened Options
  import opened LinkModel
  import opened LinkGraph

  datatype LinkResult =
    | Linked
    | NotFound(name: string)
    | InvalidSection
    | DirectRecursion
    | MutualRecursion
    | ImmediateOverflow

  /** Each failure has its cause in the input. */
  ghost predicate Explained(p: Input, r: LinkResult) {
    match r
    case Linked => true
    case NotFound(_) => exists k :: Stops(p, k)
    case InvalidSection => exists k, i :: 0 <= k < |p.raw| && 0 <= i < |p.relocs| && InvalidAt(p, k, i)
    case DirectRecursion => exists k :: Follows(p, k, k)
    case MutualRecursion => !Acyclic(p) || CallsLacking(p)
    case ImmediateOverflow =>
      exists k, i :: 0 <= k < |p.raw| && 0 <= i < |p.relocs| && p.Concerns(i, k) && Present(p, k, i + 1)
                     && !FitsAt(p, k, i)
  }

  /** What makes a whole load fail: the causes above, a missing target only if a program of the desired
      section comes upon it. */
  ghost predicate LoadFails(p: Input, desired: string, r: LinkResult) {
    && !r.Linked? && Explained(p, r)
    && (r.NotFound? ==> exists k :: 0 <= k < |p.raw| && p.raw[k].section == desired && Doomed(p, k))
  }

  lemma {:induction false} StopAndInvalid(p: Input, k: nat, i: nat)
    requires k < |p.raw| && i < |p.relocs| && InvalidAt(p, k, i)
    ensures Lacks(p, k) && !Stops(p, k)
  {
    NotBeyond(p, k, i);
    forall j | 0 <= j < |p.relocs| && p.Concerns(j, k) && First(p, k, j) && Callee(p, j).None?
      ensures j < i ==> !Present(p, k, i) {
      NotBeyond(p, k, j);
    }
    hide First, Present;
  }

  /** A load that fails does not complete by the conditions on its input. */
  lemma {:induction false} FailureExcludes(p: Input, desired: string, r: LinkResult)
    requires LoadFails(p, desired, r)
    ensures !Completes(p, desired)
  {
    hide Follows, Acyclic, Stops, InvalidAt, FitsAt, Present, Reaches;
    match r
    case NotFound(_) =>
      var k :| 0 <= k < |p.raw| && p.raw[k].section == desired && Doomed(p, k);
      if !Lacks(p, k) {
        var t :| Lacks(p, t) && Reaches(p, k, t);
        LastCall(p, k, t);
      }
    case InvalidSection =>
      var k, i :| 0 <= k < |p.raw| && 0 <= i < |p.relocs| && InvalidAt(p, k, i);
      StopAndInvalid(p, k, i);
    case DirectRecursion =>
      var k :| Follows(p, k, k);
      OneCall(p, k, k);
      SelfReach(p, k);
    case MutualRecursion =>
    case ImmediateOverflow =>
  }

  lemma {:induction false} SelfReach(p: Input, k: nat)
    requires Reaches(p, k, k)
    ensures !Acyclic(p)
  {
  }

  ghost predicate Inv(p: Input, programs: seq<RawProgram>, resolved: set<nat>, visiting: set<nat>, order: seq<nat>) {
    && |programs| == |p.raw|
    && p.InRange()
    && Finished(p, order)
    && (forall k :: k in resolved <==> k in order)
    && resolved !! visiting
    && (forall k :: k in visiting ==> k < |p.raw|)
    && (forall k: nat :: k < |p.raw| ==> programs[k].section == p.raw[k].section && programs[k].name == p.raw[k].name)
    && (forall k: nat :: k < |p.raw| && k !in visiting ==>
                           programs[k].insts == if k in resolved then LinkedBodies(p)[k] else p.raw[k].insts)
  }

  /** Names and sections never change, so searching finds what it would have found at the start. */
  lemma {:induction false} FindSame(a: seq<RawProgram>, b: seq<RawProgram>, section: string, name: string, from: nat)
    requires |a| == |b| && forall i :: 0 <= i < |a| ==> a[i].section == b[i].section && a[i].name == b[i].name
    ensures Find(a, section, name, from) == Find(b, section, name, from)
    decreases |a| - from
  {
    if from < |a| {
      FindSame(a, b, section, name, from + 1);
    }
  }

  /** Everything on the visiting list leads to `k` or was left there by an earlier failure. */
  ghost predicate LeadsTo(p: Input, visiting: set<nat>, stale: set<nat>, k: nat) {
    && (forall v :: v in visiting ==> v in stale || Reaches(p, v, k))
    && (forall v :: v in stale ==> Doomed(p, v))
    && (k in stale ==> Called(p, k))
  }

  lemma {:induction false} LeadsOn(p: Input, visiting: set<nat>, stale: set<nat>, k: nat, t: nat)
    requires LeadsTo(p, visiting, stale, k) && Follows(p, k, t)
    ensures LeadsTo(p, visiting + {k}, stale, t)
  {
    hide Doomed, Follows, Reaches;
    OneCall(p, k, t);
    forall v | v in visiting + {k} ensures v in stale || Reaches(p, v, t) {
      if v != k && v !in stale {
        OneMoreCall(p, v, k, t);
      }
    }
  }

  lemma {:induction false} Revisited(p: Input, visiting: set<nat>, stale: set<nat>, k: nat)
    requires LeadsTo(p, visiting, stale, k) && k in visiting
    ensures Explained(p, MutualRecursion)
  {
    hide Doomed, CallsLacking, Reaches, Called;
    if k in stale {
      DoomedCallee(p, k);
    } else {
      SelfReach(p, k);
    }
  }

  /** Linking `k` has stopped at a missing target of its own, with everything before it done. */
  ghost predicate Halted(p: Input, resolved: set<nat>, k: nat) {
    k < |p.raw| && exists i ::
      0 <= i < |p.relocs| && StopsAt(p, k, i) && CalleesResolved(p, resolved, k, i) && Fits(p, k, i)
  }

  lemma {:induction false} HaltedLater(p: Input, resolved: set<nat>, resolved': set<nat>, k: nat)
    requires Halted(p, resolved, k) && resolved <= resolved'
    ensures Halted(p, resolved', k)
  {
    hide First, StopsAt, Fits;
  }

  /** What a missing target leaves behind: the programs on the way to it stay on the visiting list. */
  ghost predicate Abandoned(p: Input, resolved: set<nat>, before: set<nat>, after: set<nat>, k: nat) {
    && before <= after && k in after && k !in before
    && (forall v :: v in after && v !in before ==> Doomed(p, v) && (v == k || Called(p, v)))
    && (Halted(p, resolved, k) || exists c :: c in after && c !in before && c != k)
  }

  lemma {:induction false} AbandonedHere(p: Input, resolved: set<nat>, before: set<nat>, k: nat, i: nat)
    requires k < |p.raw| && i < |p.relocs| && k !in before && StopsAt(p, k, i) && CalleesResolved(p, resolved, k, i)
             && Fits(p, k, i)
    ensures Abandoned(p, resolved, before, before + {k}, k) && Stops(p, k)
  {
    hide First, Fits, CalleesResolved;
    assert Lacks(p, k);
  }

  lemma {:induction false} AbandonedBelow(
    p: Input, resolved: set<nat>, before: set<nat>, after: set<nat>, k: nat, t: nat)
    requires Follows(p, k, t) && k !in before && Abandoned(p, resolved, before + {k}, after, t)
    ensures Abandoned(p, resolved, before, after, k)
  {
    hide Follows, Doomed, Halted;
    DoomedCaller(p, k, t);
    assert Called(p, t);
  }

  /** Program `k` is being linked and its first `i` relocations are done. */
  ghost predicate Midway(p: Input, programs: seq<RawProgram>, resolved: set<nat>, visiting: set<nat>, order: seq<nat>,
                         k: nat, i: nat, offsets: map<string, nat>)
  {
    && Inv(p, programs, resolved, visiting, order)
    && k in visiting && k < |p.raw| && i <= |p.relocs|
    && Present(p, k, i) && Fits(p, k, i)
    && programs[k].insts == Assembled(p, LinkedBodies(p), k, i).insts
    && offsets == Assembled(p, LinkedBodies(p), k, i).offsets
    && CalleesResolved(p, resolved, k, i)
  }

  ghost predicate CalleesResolved(p: Input, resolved: set<nat>, k: nat, i: nat)
    requires k < |p.raw| && i <= |p.relocs|
  {
    forall j :: 0 <= j < i && p.Concerns(j, k) && First(p, k, j) ==>
                  Callee(p, j).Some? && Callee(p, j).value in resolved
  }

  lemma {:induction false} Start(
    p: Input, programs: seq<RawProgram>, resolved: set<nat>, visiting: set<nat>, order: seq<nat>, k: nat)
    requires Inv(p, programs, resolved, visiting, order) && k < |p.raw| && k !in resolved && k !in visiting
    ensures Midway(p, programs, resolved, visiting + {k}, order, k, 0, map[])
  {
    hide Finished, LinkedBodies;
  }

  lemma {:induction false} Skip(
    p: Input, programs: seq<RawProgram>, resolved: set<nat>, visiting: set<nat>, order: seq<nat>,
    k: nat, i: nat, offsets: map<string, nat>)
    requires Midway(p, programs, resolved, visiting, order, k, i, offsets) && i < |p.relocs| && !p.Concerns(i, k)
    ensures Midway(p, programs, resolved, visiting, order, k, i + 1, offsets)
  {
    hide Finished, LinkedBodies, First, Inv, FitsAt;
  }

  /** A relocation whose name is known by now, either since before or because its body was just appended. */
  ghost predicate Known(p: Input, resolved: set<nat>, k: nat, i: nat, insts: seq<Inst>, offsets: map<string, nat>)
    requires k < |p.raw| && i < |p.relocs|
  {
    var a, name := Assembled(p, LinkedBodies(p), k, i), p.relocs[i].target;
    if name in a.offsets then insts == a.insts && offsets == a.offsets
    else Callee(p, i).Some? && Callee(p, i).value in resolved
         && insts == a.insts + LinkedBodies(p)[Callee(p, i).value] && offsets == a.offsets[name := |a.insts|]
  }

  lemma {:induction false} KnownExtends(
    p: Input, resolved: set<nat>, k: nat, i: nat, insts: seq<Inst>, offsets: map<string, nat>)
    requires k < |p.raw| && i < |p.relocs| && p.Concerns(i, k) && p.InRange()
             && Known(p, resolved, k, i, insts, offsets)
    ensures p.relocs[i].target in offsets && p.relocs[i].source < |insts|
    ensures var a := Assembled(p, LinkedBodies(p), k, i + 1);
            a.offsets == offsets && a.insts == Patched(insts, p.relocs[i].source, offsets[p.relocs[i].target])
    ensures FitsAt(p, k, i) <==> INT32_MIN <= offsets[p.relocs[i].target] - p.relocs[i].source - 1 <= INT32_MAX
  {
    hide LinkedBodies;
  }

  lemma {:induction false} KnownTarget(
    p: Input, resolved: set<nat>, k: nat, i: nat, insts: seq<Inst>, offsets: map<string, nat>)
    requires k < |p.raw| && i < |p.relocs| && Present(p, k, i) && Known(p, resolved, k, i, insts, offsets)
    ensures First(p, k, i) ==> Callee(p, i).Some?
  {
    hide First, Present, LinkedBodies;
    NewIsFirst(p, k, i);
  }

  lemma {:induction false} NotFitting(p: Input, k: nat, i: nat)
    requires k < |p.raw| && i < |p.relocs| && p.Concerns(i, k) && !FitsAt(p, k, i)
    requires Present(p, k, i) && (First(p, k, i) ==> Callee(p, i).Some?)
    ensures Explained(p, ImmediateOverflow)
  {
    hide FitsAt, First;
    assert Present(p, k, i + 1);
  }

  lemma {:induction false} Invalid(p: Input, k: nat, i: nat)
    requires k < |p.raw| && i < |p.relocs| && InvalidAt(p, k, i)
    ensures Explained(p, InvalidSection)
  {
  }

  /** A name without an offset is met for the first time. */
  lemma {:induction false} NewIsFirst(p: Input, k: nat, i: nat)
    requires k < |p.raw| && i < |p.relocs| && Present(p, k, i)
    ensures p.relocs[i].target !in Assembled(p, LinkedBodies(p), k, i).offsets <==> First(p, k, i)
  {
    NamesPlaced(p, LinkedBodies(p), k, i);
    FirstIffNew(p, k, i, Assembled(p, LinkedBodies(p), k, i));
  }

  lemma {:induction false} CalleesResolvedMore(p: Input, resolved: set<nat>, resolved': set<nat>, k: nat, i: nat)
    requires k < |p.raw| && i < |p.relocs| && CalleesResolved(p, resolved, k, i) && resolved <= resolved'
    requires p.Concerns(i, k) && First(p, k, i) ==> Callee(p, i).Some? && Callee(p, i).value in resolved'
    ensures CalleesResolved(p, resolved', k, i + 1)
  {
    hide First;
  }

  lemma {:induction false} PresentMore(p: Input, k: nat, i: nat)
    requires k < |p.raw| && i < |p.relocs| && Present(p, k, i) && Fits(p, k, i)
    requires p.Concerns(i, k) ==> FitsAt(p, k, i) && (First(p, k, i) ==> Callee(p, i).Some?)
    ensures Present(p, k, i + 1) && Fits(p, k, i + 1)
  {
    hide First, FitsAt;
  }

  /** The state with program `k` given new instructions while it is being visited. */
  lemma {:induction false} InvRewritten(
    p: Input, programs: seq<RawProgram>, resolved: set<nat>, visiting: set<nat>, order: seq<nat>, k: nat,
    insts: seq<Inst>)
    requires Inv(p, programs, resolved, visiting, order) && k in visiting && k < |p.raw|
    ensures Inv(p, programs[k := programs[k].(insts := insts)], resolved, visiting, order)
  {
    hide Finished, LinkedBodies, Input.InRange;
  }

  lemma {:induction false} Advance(
    p: Input, programs: seq<RawProgram>, resolved: set<nat>, visiting: set<nat>, order: seq<nat>,
    k: nat, i: nat, insts: seq<Inst>, offsets: map<string, nat>)
    requires Inv(p, programs, resolved, visiting, order) && k in visiting && k < |p.raw| && i < |p.relocs|
             && p.Concerns(i, k)
    requires Present(p, k, i) && Fits(p, k, i) && CalleesResolved(p, resolved, k, i)
    requires Known(p, resolved, k, i, insts, offsets)
    requires p.relocs[i].target in offsets && p.relocs[i].source < |insts|
    requires INT32_MIN <= offsets[p.relocs[i].target] - p.relocs[i].source - 1 <= INT32_MAX
    ensures var insts' := Patched(insts, p.relocs[i].source, offsets[p.relocs[i].target]);
            Midway(p, programs[k := programs[k].(insts := insts')], resolved, visiting, order, k, i + 1, offsets)
  {
    var insts' := Patched(insts, p.relocs[i].source, offsets[p.relocs[i].target]);
    assert p.InRange();
    InvRewritten(p, programs, resolved, visiting, order, k, insts');
    hide Inv, LinkedBodies, Assembled, Present, Fits, CalleesResolved, Patched, Input.InRange, First;
    KnownExtends(p, resolved, k, i, insts, offsets);
    NewIsFirst(p, k, i);
    CalleesResolvedMore(p, resolved, resolved, k, i);
    PresentMore(p, k, i);
    SizesAgree(p, programs, resolved, visiting, order);
  }

  lemma {:induction false} SizesAgree(
    p: Input, programs: seq<RawProgram>, resolved: set<nat>, visiting: set<nat>, order: seq<nat>)
    requires Inv(p, programs, resolved, visiting, order)
    ensures |programs| == |p.raw| && p.InRange()
    ensures forall k: nat ::
              k < |p.raw| ==> programs[k].section == p.raw[k].section && programs[k].name == p.raw[k].name
    ensures forall k: nat :: k in resolved ==> k < |p.raw| && programs[k].insts == LinkedBodies(p)[k]
  {
    hide LinkedBodies;
  }

  /** Program `k` is done. */
  lemma {:induction false} Finish(
    p: Input, programs: seq<RawProgram>, resolved: set<nat>, visiting: set<nat>, order: seq<nat>, k: nat,
    offsets: map<string, nat>)
    requires Midway(p, programs, resolved, visiting, order, k, |p.relocs|, offsets)
    ensures Inv(p, programs, resolved + {k}, visiting - {k}, order + [k])
  {
    hide LinkedBodies, Assembled, Present, Fits, Input.InRange;
    forall t | Calls(p, k, t) ensures t in order {
    }
    FinishedMore(p, order, k);
    hide Finished;
  }

  class ProgramReader {
    const relocations: seq<Relocation>
    var programs: seq<RawProgram>
    var resolved: set<nat>
    var visiting: set<nat>
    ghost const input: Input
    ghost var order: seq<nat>
    ghost var stale: set<nat>

    ghost predicate Valid()
      reads this
    {
      relocations == input.relocs && Inv(input, programs, resolved, visiting, order)
    }

    constructor (raw: seq<RawProgram>, relocations: seq<Relocation>)
      requires Input(raw, relocations).InRange()
      ensures Valid() && input == Input(raw, relocations) && resolved == {} && visiting == {} && stale == {}
    {
      this.relocations := relocations;
      programs := raw;
      resolved, visiting := {}, {};
      input := Input(raw, relocations);
      order, stale := [], {};
    }

    /** Points the call of relocation `i` at its target, unless the distance does not fit 32 bits. */
    method PatchSite(k: nat, i: nat, offsets: map<string, nat>) returns (ok: bool)
      requires Valid() && k in visiting && k < |programs| && i < |relocations| && i < |input.relocs| && k < |input.raw|
      requires input.Concerns(i, k) && Present(input, k, i) && Fits(input, k, i)
               && CalleesResolved(input, resolved, k, i)
      requires Known(input, resolved, k, i, programs[k].insts, offsets)
      modifies this`programs
      ensures |programs| == old(|programs|) && forall j ::
                0 <= j < |programs| && j != k ==> programs[j] == old(programs)[j]
      ensures ok ==> Midway(input, programs, resolved, visiting, order, k, i + 1, offsets)
      ensures !ok ==> Explained(input, ImmediateOverflow)
    {
      hide Inv, LinkedBodies, Present, Fits, Input.InRange, First, FitsAt, CalleesResolved, Assembled, Patched,
        Explained;
      SizesAgree(input, programs, resolved, visiting, order);
      var reloc := relocations[i];
      KnownTarget(input, resolved, k, i, programs[k].insts, offsets);
      KnownExtends(input, resolved, k, i, programs[k].insts, offsets);
      var imm := offsets[reloc.target] - reloc.source - 1;
      if imm < INT32_MIN || imm > INT32_MAX {
        NotFitting(input, k, i);
        return false;
      }
      Advance(input, programs, resolved, visiting, order, k, i, programs[k].insts, offsets);
      programs := programs[k := programs[k].(insts := Patched(programs[k].insts, reloc.source, offsets[reloc.target]))];
      return true;
    }

    /** Appends to program `k` the linked bodies of all programs that it calls and points its calls at
        them. */
    method AppendSubprograms(k: nat) returns (r: LinkResult)
      requires Valid() && k < |programs| && LeadsTo(input, visiting, stale, k)
      modifies this
      ensures Explained(input, r) && stale == old(stale)
      ensures |programs| == old(|programs|)
      ensures r.Linked? || r.NotFound? ==> Valid() && old(resolved) <= resolved
      ensures r.Linked? ==> k in resolved && visiting == old(visiting)
      ensures r.Linked? ==> forall j :: j in visiting && j < |programs| ==> programs[j] == old(programs)[j]
      ensures r.NotFound? ==> Abandoned(input, resolved, old(visiting), visiting, k)
      decreases Indices(|programs|) - visiting
    {
      hide Inv, LeadsTo, LinkedBodies, Present, Fits, Input.InRange, Follows, First, FitsAt, CalleesResolved,
        Assembled, Patched,
        Acyclic, Indices, Explained, Abandoned, CallsLacking;
      ExplainedLinked(input);
      SizesAgree(input, programs, resolved, visiting, order);
      if k in resolved {
        return Linked;
      }
      if k in visiting {
        Revisited(input, visiting, stale, k);
        return MutualRecursion;
      }
      Start(input, programs, resolved, visiting, order, k);
      ghost var entered := visiting;
      visiting := visiting + {k};
      IndicesShrink(|programs|, entered, k);
      var offsets: map<string, nat> := map[];
      var i := 0;
      while i < |relocations|
        invariant relocations == input.relocs && visiting == entered + {k} && 0 <= i <= |relocations|
        invariant Midway(input, programs, resolved, visiting, order, k, i, offsets)
        invariant |programs| == old(|programs|) && old(resolved) <= resolved && stale == old(stale)
        invariant forall j :: j in entered && j < |programs| ==> programs[j] == old(programs)[j]
      {
        SizesAgree(input, programs, resolved, visiting, order);
        var reloc := relocations[i];
        if reloc.progIndex >= |programs| || programs[reloc.progIndex].name != programs[k].name {
          Skip(input, programs, resolved, visiting, order, k, i, offsets);
          i := i + 1;
          continue;
        }
        assert input.Concerns(i, k);
        NewIsFirst(input, k, i);
        var isNew := reloc.target !in offsets;
        if isNew {
          if reloc.section.None? {
            Invalid(input, k, i);
            return InvalidSection;
          }
          FindSame(programs, input.raw, reloc.section.value, reloc.target, 0);
          var sub := Find(programs, reloc.section.value, reloc.target);
          assert sub == Callee(input, i);
          if sub.None? {
            AbandonedHere(input, resolved, entered, k, i);
            ExplainedNotFound(input, k, reloc.target);
            return NotFound(reloc.target);
          }
          CallFound(input, k, i, sub.value);
          if sub.value == k {
            ExplainedDirect(input, k);
            return DirectRecursion;
          }
          LeadsOn(input, entered, stale, k, sub.value);
          ghost var before, known := programs, resolved;
          var err := AppendSubprograms(sub.value);
          if !err.Linked? {
            if err.NotFound? {
              AbandonedBelow(input, resolved, entered, visiting, k, sub.value);
            }
            return err;
          }
          Resume(input, before, known, programs, resolved, visiting, order, k, i, offsets);
          SizesAgree(input, programs, resolved, visiting, order);
          offsets := offsets[reloc.target := |programs[k].insts|];
          InvRewritten(input, programs, resolved, visiting, order, k, programs[k].insts + programs[sub.value].insts);
          programs := programs[k := programs[k].(insts := programs[k].insts + programs[sub.value].insts)];
        }
        var patched := PatchSite(k, i, offsets);
        if !patched {
          return ImmediateOverflow;
        }
        i := i + 1;
      }
      Finish(input, programs, resolved, visiting, order, k, offsets);
      visiting := visiting - {k};
      resolved := resolved + {k};
      order := order + [k];
      return Linked;
    }

    /** Links every program.  A missing target fails the whole load only if it concerns a program of
        the desired section. */
    method LinkPrograms(desired: string) returns (v: Verdict)
      requires Valid() && resolved == {} && visiting == {} && stale == {}
      modifies this
      ensures v.Failed? <==> !Completes(input, desired)
      ensures v.AllLinked? <==> Linkable(input)
      ensures v.SomeUnlinked? <==> Completes(input, desired) && !AllPresent(input)
      ensures v.Failed? ==> LoadFails(input, desired, v.error)
      ensures !v.Failed? ==> |programs| == |input.raw|
      ensures !v.Failed? ==> forall k: nat :: k < |programs| && Present(input, k, |input.relocs|) ==>
                                                programs[k] == input.raw[k].(insts := LinkedBodies(input)[k])
      ensures v.AllLinked? ==> Solved(input)
    {
      hide Inv, LeadsTo, LinkedBodies, Acyclic, AllPresent, Explained, Solved, LoadFails, Completes, Abandoned,
        Linkable, Pending, Present;
      SizesAgree(input, programs, resolved, visiting, order);
      NothingPending(input, desired);
      var k := 0;
      while k < |programs|
        invariant Valid() && 0 <= k <= |programs| && stale == visiting
        invariant Pending(input, desired, resolved, visiting, k)
        invariant |programs| == |input.raw|
      {
        ghost var known, before := resolved, visiting;
        SizesAgree(input, programs, resolved, visiting, order);
        PendingLeads(input, desired, resolved, visiting, k);
        var err := AppendSubprograms(k);
        if err.NotFound? {
          SizesAgree(input, programs, resolved, visiting, order);
          if programs[k].section == desired {
            AbandonedFails(input, desired, resolved, before, visiting, k, err);
            FailureExcludes(input, desired, err);
            CompletesOrNot(input, desired);
            return Failed(err);
          }
          Disjoint(input, programs, resolved, visiting, order);
          PendingAfterMissing(input, desired, known, resolved, before, visiting, k);
          stale := visiting;
        } else if !err.Linked? {
          OtherFails(input, desired, err);
          FailureExcludes(input, desired, err);
          CompletesOrNot(input, desired);
          return Failed(err);
        } else {
          SizesAgree(input, programs, resolved, visiting, order);
          Disjoint(input, programs, resolved, visiting, order);
          PendingAfterLink(input, desired, known, resolved, visiting, k);
        }
        k := k + 1;
      }
      AllDone(input, desired, programs, resolved, visiting, order);
      CompletesOrNot(input, desired);
      if visiting != {} {
        return SomeUnlinked;
      }
      return AllLinked;
    }
  }

  datatype Verdict = AllLinked | SomeUnlinked | Failed(error: LinkResult)

  lemma {:induction false} ExplainedLinked(p: Input)
    ensures Explained(p, Linked)
  {
  }

  lemma {:induction false} ExplainedNotFound(p: Input, k: nat, name: string)
    requires Stops(p, k)
    ensures Explained(p, NotFound(name))
  {
  }

  lemma {:induction false} ExplainedDirect(p: Input, k: nat)
    requires Follows(p, k, k)
    ensures Explained(p, DirectRecursion)
  {
  }

  // ----- the loop over all programs -----

  /** Programs before `k` are linked or have been given up; what was given up on the way and comes later
      is called by some program. */
  ghost predicate Pending(p: Input, desired: string, resolved: set<nat>, visiting: set<nat>, k: nat) {
    && (forall j: nat :: j < k ==> j in resolved || j in visiting)
    && (forall v :: v in visiting ==> v < |p.raw| && Doomed(p, v) && PendingAt(p, desired, resolved, visiting, k, v))
  }

  ghost predicate PendingAt(p: Input, desired: string, resolved: set<nat>, visiting: set<nat>, k: nat, v: nat)
    requires v < |p.raw|
  {
    if v >= k then Called(p, v)
    else p.raw[v].section != desired && (Halted(p, resolved, v) || exists c :: c in visiting && c >= k)
  }

  lemma {:induction false} NothingPending(p: Input, desired: string)
    ensures Pending(p, desired, {}, {}, 0)
  {
  }

  lemma {:induction false} PendingLeads(p: Input, desired: string, resolved: set<nat>, visiting: set<nat>, k: nat)
    requires Pending(p, desired, resolved, visiting, k)
    ensures LeadsTo(p, visiting, visiting, k)
  {
    hide Doomed, Called, Halted;
  }

  lemma {:induction false} PendingAfterLink(
    p: Input, desired: string, known: set<nat>, resolved: set<nat>, visiting: set<nat>, k: nat)
    requires Pending(p, desired, known, visiting, k) && known <= resolved && k in resolved && resolved !! visiting
    ensures Pending(p, desired, resolved, visiting, k + 1)
  {
    hide Doomed, PendingAt;
    assert k !in visiting;
    forall v | v in visiting ensures v < |p.raw| && PendingAt(p, desired, resolved, visiting, k + 1, v) {
      PendingStep(p, desired, known, resolved, visiting, visiting, k, v);
    }
  }

  /** A program that was given up stays so; unless `k` itself was on the list, its excuse lies beyond `k`. */
  lemma {:induction false} PendingStep(
    p: Input, desired: string, known: set<nat>, resolved: set<nat>, before: set<nat>, visiting: set<nat>,
    k: nat, v: nat)
    requires v < |p.raw| && v in before && PendingAt(p, desired, known, before, k, v)
    requires known <= resolved && before <= visiting && k !in before
    ensures PendingAt(p, desired, resolved, visiting, k + 1, v)
  {
    hide Called, Halted;
    if v < k {
      if Halted(p, known, v) {
        HaltedLater(p, known, resolved, v);
      } else {
        var c :| c in before && c >= k;
        assert c in visiting && c >= k + 1;
      }
    }
  }

  lemma {:induction false} Disjoint(
    p: Input, programs: seq<RawProgram>, resolved: set<nat>, visiting: set<nat>, order: seq<nat>)
    requires Inv(p, programs, resolved, visiting, order)
    ensures resolved !! visiting && forall v :: v in visiting ==> v < |p.raw|
  {
  }

  lemma {:induction false} PendingAfterMissing(
    p: Input, desired: string, known: set<nat>, resolved: set<nat>, before: set<nat>, visiting: set<nat>,
    k: nat)
    requires k < |p.raw| && Pending(p, desired, known, before, k) && known <= resolved && p.raw[k].section != desired
    requires resolved !! visiting && (forall v :: v in visiting ==> v < |p.raw|)
             && Abandoned(p, resolved, before, visiting, k)
    ensures Pending(p, desired, resolved, visiting, k + 1)
  {
    hide Doomed, Called, Halted;
    forall c | c in visiting && c !in before && c != k ensures c >= k + 1 {
      assert c !in resolved;
    }
    forall v | v in visiting ensures PendingAt(p, desired, resolved, visiting, k + 1, v) {
      if v in before {
        PendingStep(p, desired, known, resolved, before, visiting, k, v);
      }
    }
  }

  lemma {:induction false} AbandonedFails(
    p: Input, desired: string, resolved: set<nat>, before: set<nat>, visiting: set<nat>, k: nat, r: LinkResult)
    requires k < |p.raw| && p.raw[k].section == desired && r.NotFound? && Explained(p, r)
    requires Abandoned(p, resolved, before, visiting, k)
    ensures LoadFails(p, desired, r)
  {
    hide Doomed, Explained;
  }

  lemma {:induction false} OtherFails(p: Input, desired: string, r: LinkResult)
    requires !r.Linked? && !r.NotFound? && Explained(p, r)
    ensures LoadFails(p, desired, r)
  {
    hide Explained;
  }

  lemma {:induction false} CompletesOrNot(p: Input, desired: string)
    ensures AllPresent(p) ==> (Completes(p, desired) <==> Linkable(p))
    ensures Linkable(p) ==> AllPresent(p) && Completes(p, desired)
  {
    hide Completes, AllPresent;
    if AllPresent(p) {
      CompletesIfPresent(p, desired);
    }
  }

  /** Program `k` is linked, or has stopped at a missing target of its own outside the desired section. */
  ghost predicate DoneOrHalted(p: Input, desired: string, resolved: set<nat>, k: nat)
    requires k < |p.raw|
  {
    if k in resolved then
      Present(p, k, |p.relocs|) && Fits(p, k, |p.relocs|) && forall t :: Calls(p, k, t) ==> t in resolved
    else p.raw[k].section != desired && Halted(p, resolved, k)
  }

  lemma {:induction false} OneDone(
    p: Input, desired: string, programs: seq<RawProgram>, resolved: set<nat>, visiting: set<nat>, order: seq<nat>,
    k: nat)
    requires Inv(p, programs, resolved, visiting, order) && Pending(p, desired, resolved, visiting, |p.raw|)
             && k < |p.raw|
    ensures DoneOrHalted(p, desired, resolved, k) && (k in visiting <==> k !in resolved)
  {
    hide LinkedBodies, Doomed, Halted, Called, Present, Fits, Calls, Settles;
    if k in resolved {
      var i :| 0 <= i < |order| && order[i] == k;
      assert FinishedAt(p, order, i);
    } else {
      assert PendingAt(p, desired, resolved, visiting, |p.raw|, k);
    }
  }

  /** Every call that linking gets to has been linked. */
  lemma {:induction false} CalleeDone(p: Input, desired: string, resolved: set<nat>, k: nat, t: nat)
    requires Follows(p, k, t) && DoneOrHalted(p, desired, resolved, k)
    ensures t in resolved
  {
    hide First, Fits;
    if k in resolved {
      FollowsIsCall(p, k, t);
    } else {
      var i :| 0 <= i < |p.relocs| && StopsAt(p, k, i) && CalleesResolved(p, resolved, k, i);
      var j :| 0 <= j < |p.relocs| && FollowsAt(p, k, j, t);
      NotBeyond(p, k, i);
    }
  }

  lemma {:induction false} ReachedOneFits(p: Input, desired: string, resolved: set<nat>, k: nat, i: nat)
    requires k < |p.raw| && DoneOrHalted(p, desired, resolved, k) && i < |p.relocs| && p.Concerns(i, k)
             && Present(p, k, i + 1)
    ensures FitsAt(p, k, i)
  {
    hide First, FitsAt, Calls;
    if k !in resolved {
      var j :| 0 <= j < |p.relocs| && StopsAt(p, k, j) && Fits(p, k, j);
      NotBeyond(p, k, j);
    }
  }

  lemma {:induction false} LackingStops(p: Input, desired: string, resolved: set<nat>, k: nat)
    requires k < |p.raw| && DoneOrHalted(p, desired, resolved, k)
    ensures Lacks(p, k) <==> k !in resolved
    ensures Lacks(p, k) ==> p.raw[k].section != desired && Stops(p, k)
  {
    hide First, Fits, Calls, CalleesResolved;
  }

  lemma {:induction false} DoneCompletes(p: Input, desired: string, resolved: set<nat>, order: seq<nat>)
    requires Finished(p, order) && forall k :: k in resolved <==> k in order
    requires forall k: nat :: k < |p.raw| ==> DoneOrHalted(p, desired, resolved, k)
    ensures Completes(p, desired)
  {
    forall k, t | Follows(p, k, t) ensures t in order && !Lacks(p, t) {
      FollowsIsCall(p, k, t);
      CalleeDone(p, desired, resolved, k, t);
      LackingStops(p, desired, resolved, t);
    }
    hide Finished, DoneOrHalted, Lacks, Stops, FitsAt, Follows, Present;
    FinishedIsAcyclic(p, order);
    hide Acyclic;
    forall k, i | 0 <= k < |p.raw| && 0 <= i < |p.relocs| && p.Concerns(i, k) && Present(p, k, i + 1)
      ensures FitsAt(p, k, i) {
      ReachedOneFits(p, desired, resolved, k, i);
    }
    forall k | 0 <= k < |p.raw| && Lacks(p, k) ensures p.raw[k].section != desired && Stops(p, k) {
      LackingStops(p, desired, resolved, k);
    }
  }

  lemma {:induction false} InvParts(
    p: Input, programs: seq<RawProgram>, resolved: set<nat>, visiting: set<nat>, order: seq<nat>)
    requires Inv(p, programs, resolved, visiting, order)
    ensures Finished(p, order) && |programs| == |p.raw| && forall k :: k in resolved <==> k in order
    ensures forall k: nat :: k < |p.raw| && k in resolved ==> programs[k] == p.raw[k].(insts := LinkedBodies(p)[k])
    ensures forall v :: v in visiting ==> v < |p.raw|
  {
    hide LinkedBodies;
  }

  /** Every program has been linked, or has stopped at a missing target of its own. */
  lemma {:induction false} AllDone(
    p: Input, desired: string, programs: seq<RawProgram>, resolved: set<nat>, visiting: set<nat>, order: seq<nat>)
    requires Inv(p, programs, resolved, visiting, order) && Pending(p, desired, resolved, visiting, |p.raw|)
    ensures Completes(p, desired) && (visiting == {} <==> AllPresent(p)) && (visiting == {} ==> Solved(p))
    ensures |programs| == |p.raw| && forall k: nat :: k < |programs| && Present(p, k, |p.relocs|) ==>
                                                        programs[k] == p.raw[k].(insts := LinkedBodies(p)[k])
  {
    InvParts(p, programs, resolved, visiting, order);
    hide Inv, Pending, LinkedBodies, Finished, Completes, Solved, Present, DoneOrHalted;
    forall k: nat | k < |p.raw|
      ensures DoneOrHalted(p, desired, resolved, k) && (k in visiting <==> Lacks(p, k))
              && (k in resolved <==> !Lacks(p, k)) {
      OneDone(p, desired, programs, resolved, visiting, order, k);
      LackingStops(p, desired, resolved, k);
    }
    DoneCompletes(p, desired, resolved, order);
    assert visiting == {} <==> AllPresent(p) by {
      if visiting == {} {
        forall k | 0 <= k < |p.raw| ensures Present(p, k, |p.relocs|) {
          assert !Lacks(p, k);
        }
      } else {
        var k :| k in visiting;
        LacksOne(p, k);
      }
    }
    if visiting == {} {
      FinishedIsSolved(p, order);
    }
  }

  function Indices(n: nat): (r: set<nat>)
    ensures forall i: nat :: i in r <==> i < n
  {
    if n == 0 then {} else Indices(n - 1) + {n - 1}
  }

  lemma {:induction false} IndicesShrink(n: nat, visiting: set<nat>, k: nat)
    requires k < n && k !in visiting
    ensures Indices(n) - (visiting + {k}) < Indices(n) - visiting
  {
    assert k in Indices(n) - visiting;
  }

  lemma {:induction false} CallFound(p: Input, k: nat, i: nat, t: nat)
    requires k < |p.raw| && i < |p.relocs| && p.Concerns(i, k) && First(p, k, i) && Present(p, k, i)
             && Callee(p, i) == Some(t)
    ensures Follows(p, k, t)
  {
    hide First, Present;
    assert FollowsAt(p, k, i, t);
  }

  /** A call to another program leaves the program being linked as it was. */
  lemma {:induction false} Resume(
    p: Input, programs: seq<RawProgram>, resolved: set<nat>, programs': seq<RawProgram>, resolved': set<nat>,
    visiting: set<nat>, order': seq<nat>, k: nat, i: nat, offsets: map<string, nat>)
    requires |programs| == |p.raw| && k in visiting && k < |p.raw| && i <= |p.relocs|
             && CalleesResolved(p, resolved, k, i)
    requires Inv(p, programs', resolved', visiting, order') && |programs'| == |p.raw| && programs'[k] == programs[k]
             && resolved <= resolved'
    requires Present(p, k, i) && Fits(p, k, i) && programs[k].insts == Assembled(p, LinkedBodies(p), k, i).insts
    requires offsets == Assembled(p, LinkedBodies(p), k, i).offsets
    ensures Midway(p, programs', resolved', visiting, order', k, i, offsets)
  {
    hide Inv, LinkedBodies, Assembled, Present, Fits, First;
  }

  // ----- a missing target reported as recursion -----

  const CALL := Inst(INST_OP_CALL, 0, INST_CALL_LOCAL, 0, -1)

  /** Program `a` calls `b`, and `b` calls something that does not exist. */
  function Orphan(): Input {
    Input([RawProgram("text", "a", [CALL]), RawProgram("text", "b", [CALL])],
          [Relocation(0, 0, Some("text"), "b"), Relocation(1, 0, Some("text"), "c")])
  }

  lemma {:induction false} OrphanFacts()
    ensures var p := Orphan();
            && p.Concerns(0, 0) && !p.Concerns(0, 1) && !p.Concerns(1, 0) && p.Concerns(1, 1) && p.InRange()
            && Callee(p, 0) == Some(1) && Callee(p, 1) == None
  {
    var p := Orphan();
    assert p.raw[0].name == "a" && p.raw[1].name == "b" && |p.raw| == 2 && |p.relocs| == 2;
    assert forall k :: 0 <= k < 2 ==> |p.raw[k].insts| == 1;
    assert forall i :: 0 <= i < 2 ==> p.relocs[i].source == 0;
    assert "a"[0] != "b"[0] && "c"[0] != "a"[0] && "c"[0] != "b"[0];
    assert Find(p.raw, "text", "b", 2) == None && Find(p.raw, "text", "c", 2) == None;
    assert Find(p.raw, "text", "c", 1) == None;
  }

  lemma {:induction false} OrphanCalls()
    ensures var p := Orphan();
            && (forall k, t :: Follows(p, k, t) <==> k == 0 && t == 1)
            && (forall k :: Lacks(p, k) <==> k == 1) && Acyclic(p) && CallsLacking(p)
  {
    var p := Orphan();
    OrphanFacts();
    hide Callee, Input.Concerns, Input.InRange;
    assert First(p, 0, 0) && First(p, 1, 1) && Present(p, 0, 0) && !Present(p, 1, 2);
    assert FollowsAt(p, 0, 0, 1);
    forall k, t | Follows(p, k, t) ensures k == 0 && t == 1 {
      var i :| 0 <= i < |p.relocs| && FollowsAt(p, k, i, t);
    }
    assert Present(p, 0, 2) && Lacks(p, 1) && Follows(p, 0, 1);
    hide Follows;
    forall k: nat ensures !Reaches(p, k, k) {
      forall path | CallPath(p, path) && path[0] == k ensures path[|path| - 1] != k {
        assert Follows(p, path[0], path[1]) && Follows(p, path[|path| - 2], path[|path| - 1]);
      }
    }
  }

  lemma {:induction false} OrphanFails(desired: string, r: LinkResult)
    requires desired != "text" && LoadFails(Orphan(), desired, r)
    ensures r == MutualRecursion
  {
    var p := Orphan();
    OrphanFacts();
    OrphanCalls();
    hide Callee, Input.Concerns, Input.InRange, Follows, Reaches, Acyclic, CallsLacking, Lacks;
    if r.ImmediateOverflow? {
      forall k, i | 0 <= k < |p.raw| && 0 <= i < |p.relocs| && p.Concerns(i, k) && Present(p, k, i + 1)
        ensures FitsAt(p, k, i) {
        OrphanFits(k, i);
      }
    }
  }

  lemma {:induction false} OrphanFits(k: nat, i: nat)
    requires k < 2 && i < 2 && Orphan().Concerns(i, k) && Present(Orphan(), k, i + 1)
    ensures FitsAt(Orphan(), k, i)
  {
    var p := Orphan();
    OrphanFacts();
    hide LinkedBodies;
    assert First(p, 1, 1);
    assert k == 0 && i == 0;
    assert Assembled(p, LinkedBodies(p), 0, 0).offsets == map[];
    assert Assembled(p, LinkedBodies(p), 0, 1).offsets == map["b" := 1];
  }

  /** No program calls itself, and neither is wanted, yet loading stops with a report of recursion: `b`
      stays on the visiting list after `a` has been given up. */
  method OrphanIsReportedAsRecursion(desired: string) returns (v: Verdict)
    requires desired != "text"
    ensures v == Failed(MutualRecursion) && Acyclic(Orphan())
  {
    OrphanFacts();
    OrphanCalls();
    hide Acyclic, CallsLacking, LoadFails, Linkable, AllPresent, Solved, LinkedBodies, Present;
    var reader := new ProgramReader(Orphan().raw, Orphan().relocs);
    v := reader.LinkPrograms(desired);
    OrphanFails(desired, v.error);
  }
}
