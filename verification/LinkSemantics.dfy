/** What linking preserves: the linked program behaves step by step as the programs read, with local
    calls taken by name.

    In the linked program the immediate of a local call counts from the instruction after it
    (RFC 9669, section 4.3.2). */
module LinkSemantics {
  import opened Options
  import opened LinkModel
  import opened LinkGraph
  import Linker

  /** Where an instruction other than a local call goes: relative to the next one, or back to the caller. */
  datatype Control = Go(delta: int) | Return

  /** What instructions do to data `D`, and how calls enter and leave: `leave` also sees the data at the
      time of the call. */
  datatype Behaviour<!D> = Behaviour(
    exec: (Inst, D, D, Control) -> bool,
    enter: (D, D) -> bool,
    leave: (D, D, D) -> bool)

  /** A call in progress in program `program`, with the data at the time of the call. */
  datatype NamedFrame<D> = NamedFrame(program: nat, pc: int, saved: D)

  /** Programs calling each other by name; the last frame runs. */
  datatype Named<D> = Named(frames: seq<NamedFrame<D>>, data: D)

  datatype FlatFrame<D> = FlatFrame(pc: int, saved: D)

  datatype Flat<D> = Flat(frames: seq<FlatFrame<D>>, data: D)

  ghost predicate UniqueNames(p: Input) {
    forall i, j :: 0 <= i < j < |p.raw| ==> p.raw[i].name != p.raw[j].name
  }

  /** Relocation `i` is of the instruction at `pc` of program `k`. */
  ghost predicate Own(p: Input, i: int, k: nat, pc: int) {
    0 <= i < |p.relocs| && p.relocs[i].progIndex == k && p.relocs[i].source == pc
  }

  /** The instruction at `pc` of program `k` calls by name. */
  ghost predicate CallSite(p: Input, k: nat, pc: int) {
    exists i :: Own(p, i, k, pc)
  }

  /** Function relocations are recorded for local calls only. */
  ghost predicate SitesAreCalls(p: Input) {
    forall k, pc :: 0 <= k < |p.raw| && 0 <= pc < |p.raw[k].insts| && CallSite(p, k, pc) ==>
                      p.raw[k].insts[pc].IsLocalCall()
  }

  /** Relocations of one program agree on the target if they are of one instruction, and on the section if
      they name one target. */
  ghost predicate Consistent(p: Input) {
    forall i, j ::
      0 <= i < |p.relocs| && 0 <= j < |p.relocs| && p.relocs[i].progIndex == p.relocs[j].progIndex ==>
        && (p.relocs[i].source == p.relocs[j].source ==> p.relocs[i].target == p.relocs[j].target)
        && (p.relocs[i].target == p.relocs[j].target ==> p.relocs[i].section == p.relocs[j].section)
  }

  /** `t` is the program that the call at `pc` of program `k` names, by section and name. */
  ghost predicate Names(p: Input, k: nat, pc: int, t: nat) {
    t < |p.raw| && exists i ::
      Own(p, i, k, pc) && p.relocs[i].section == Some(p.raw[t].section) && p.relocs[i].target == p.raw[t].name
  }

  // ----- which relocations a program heeds -----

  /** Where names are unique, a program heeds its own relocations and no others. */
  lemma {:induction false} HeedsItsOwn(p: Input, i: nat, k: nat)
    requires UniqueNames(p) && i < |p.relocs| && k < |p.raw|
    ensures p.Concerns(i, k) <==> p.relocs[i].progIndex == k
  {
  }

  lemma {:induction false} SitesAgree(p: Input, k: nat, pc: nat)
    requires UniqueNames(p) && k < |p.raw|
    ensures IsSite(p, k, |p.relocs|, pc) <==> CallSite(p, k, pc)
  {
    hide UniqueNames, Input.Concerns;
    forall i | 0 <= i < |p.relocs| ensures p.Concerns(i, k) <==> p.relocs[i].progIndex == k {
      HeedsItsOwn(p, i, k);
    }
    if CallSite(p, k, pc) {
      var i :| Own(p, i, k, pc);
      assert p.Concerns(i, k);
    }
    if IsSite(p, k, |p.relocs|, pc) {
      var i :| 0 <= i < |p.relocs| && p.Concerns(i, k) && p.relocs[i].source == pc;
      assert Own(p, i, k, pc);
    }
  }

  lemma {:induction false} ConsistentIsOneTarget(p: Input)
    requires UniqueNames(p) && Consistent(p)
    ensures OneTarget(p)
  {
    hide UniqueNames, Input.Concerns;
    forall i, k | 0 <= i < |p.relocs| && 0 <= k < |p.raw| ensures p.Concerns(i, k) <==> p.relocs[i].progIndex == k {
      HeedsItsOwn(p, i, k);
    }
  }

  /** The running frame stands on an instruction of its program. */
  ghost predicate Running<D>(p: Input, s: Named<D>) {
    s.frames != [] &&
    var f := s.frames[|s.frames| - 1];
    f.program < |p.raw| && 0 <= f.pc < |p.raw[f.program].insts|
  }

  ghost predicate NamedStep<D(!new)>(p: Input, b: Behaviour<D>, s: Named<D>, s': Named<D>) {
    Running(p, s) &&
    var n := |s.frames| - 1;
    var f := s.frames[n];
    var inst := p.raw[f.program].insts[f.pc];
    var below := s.frames[..n];
    if CallSite(p, f.program, f.pc) then
      && b.enter(s.data, s'.data)
      && exists t :: Names(p, f.program, f.pc, t) && s'.frames == below + [f.(pc := f.pc + 1), NamedFrame(t, 0, s.data)]
    else if inst.IsLocalCall() then
      && b.enter(s.data, s'.data)
      && s'.frames == below + [f.(pc := f.pc + 1), NamedFrame(f.program, f.pc + 1 + inst.imm, s.data)]
    else
      || (exists delta :: b.exec(inst, s.data, s'.data, Go(delta)) && s'.frames == below + [f.(pc := f.pc + 1 + delta)])
      || (exists d :: b.exec(inst, s.data, d, Return) && b.leave(f.saved, d, s'.data) && s'.frames == below)
  }

  ghost predicate FlatStep<D(!new)>(main: seq<Inst>, b: Behaviour<D>, s: Flat<D>, s': Flat<D>) {
    s.frames != [] &&
    var n := |s.frames| - 1;
    var f := s.frames[n];
    var below := s.frames[..n];
    0 <= f.pc < |main| &&
    var inst := main[f.pc];
    if inst.IsLocalCall() then
      && b.enter(s.data, s'.data)
      && s'.frames == below + [f.(pc := f.pc + 1), FlatFrame(f.pc + 1 + inst.imm, s.data)]
    else
      || (exists delta :: b.exec(inst, s.data, s'.data, Go(delta)) && s'.frames == below + [f.(pc := f.pc + 1 + delta)])
      || (exists d :: b.exec(inst, s.data, d, Return) && b.leave(f.saved, d, s'.data) && s'.frames == below)
  }

  // ----- correspondence -----

  /** The flat frame stands at the same place of some copy of the program's linked body. */
  ghost predicate FrameMatch<D>(p: Input, main: seq<Inst>, f: NamedFrame<D>, g: FlatFrame<D>) {
    f.program < |p.raw| && f.saved == g.saved && HasCopyAt(p, main, g.pc - f.pc, f.program)
  }

  ghost predicate HasCopyAt(p: Input, main: seq<Inst>, base: int, k: nat)
    requires k < |p.raw|
  {
    base >= 0 && HasCopy(main, base, LinkedBodies(p)[k])
  }

  ghost predicate Match<D>(p: Input, main: seq<Inst>, s: Named<D>, t: Flat<D>) {
    && s.data == t.data && |s.frames| == |t.frames|
    && forall i :: 0 <= i < |s.frames| ==> FrameMatch(p, main, s.frames[i], t.frames[i])
  }

  /** What a linked load is assumed to be. */
  ghost predicate Load(p: Input) {
    p.InRange() && UniqueNames(p) && Consistent(p) && SitesAreCalls(p) && AllPresent(p) && Solved(p)
  }

  /** What a linker that succeeds provides; the rest is up to the file that was read. */
  lemma {:induction false} LinkableIsLoad(p: Input)
    requires p.InRange() && Linkable(p) && UniqueNames(p) && Consistent(p) && SitesAreCalls(p)
    ensures Load(p)
  {
    LinkableIsSolved(p);
  }

  lemma {:induction false} CopyInCopy(main: seq<Inst>, base: nat, body: seq<Inst>, offset: nat, sub: seq<Inst>)
    requires HasCopy(main, base, body) && HasCopy(body, offset, sub)
    ensures HasCopy(main, base + offset, sub)
  {
    forall j | 0 <= j < |sub| ensures main[base + offset + j] == sub[j] {
      assert body[offset..offset + |sub|][j] == body[offset + j];
      assert main[base..base + |body|][offset + j] == main[base + offset + j];
    }
    assert main[base + offset..base + offset + |sub|] == sub;
  }

  lemma {:induction false} InstInCopy(main: seq<Inst>, base: nat, body: seq<Inst>, pc: nat)
    requires HasCopy(main, base, body) && pc < |body|
    ensures base + pc < |main| && main[base + pc] == body[pc]
  {
    assert main[base..base + |body|][pc] == main[base + pc];
  }

  /** The call at a site of a linked body leads to a copy of the linked body of the program it names,
      wherever the caller's own copy sits. */
  lemma {:induction false} SiteLeadsToCopy(p: Input, main: seq<Inst>, base: nat, k: nat, pc: nat, t: nat)
    requires Load(p) && k < |p.raw| && HasCopy(main, base, LinkedBodies(p)[k]) && Names(p, k, pc, t)
    ensures base + pc < |main| && main[base + pc].IsLocalCall()
    ensures HasCopyAt(p, main, base + pc + 1 + main[base + pc].imm, t)
  {
    hide LinkedBodies, Assembled, Present, Calls, HasCopy, OneTarget, Input.Concerns;
    var bodies := LinkedBodies(p);
    var a := Assembled(p, bodies, k, |p.relocs|);
    var i :| Own(p, i, k, pc) && p.relocs[i].section == Some(p.raw[t].section) && p.relocs[i].target == p.raw[t].name;
    HeedsItsOwn(p, i, k);
    ConsistentIsOneTarget(p);
    assert bodies[k] == a.insts;
    AssembledPlaced(p, bodies, k, |p.relocs|);
    SourceExists(p, k, i);
    SitePatched(p, bodies, k, |p.relocs|, i);
    OwnInstructions(p, bodies, k, |p.relocs|, pc);
    assert CallSite(p, k, pc);
    assert a.callees[p.relocs[i].target] == t;
    InstInCopy(main, base, bodies[k], pc);
    CopyInCopy(main, base, bodies[k], a.offsets[p.relocs[i].target], bodies[t]);
  }

  /** Away from call sites a linked body holds the program's own instructions. */
  lemma {:induction false} OwnInCopy(p: Input, main: seq<Inst>, base: nat, k: nat, pc: nat)
    requires Load(p) && k < |p.raw| && HasCopy(main, base, LinkedBodies(p)[k]) && pc < |p.raw[k].insts|
             && !CallSite(p, k, pc)
    ensures base + pc < |main| && main[base + pc] == p.raw[k].insts[pc]
  {
    hide LinkedBodies, Assembled, Present, Calls, HasCopy, OneTarget, IsSite, CallSite, Input.Concerns;
    SitesAgree(p, k, pc);
    OwnInstructions(p, LinkedBodies(p), k, |p.relocs|, pc);
    InstInCopy(main, base, LinkedBodies(p)[k], pc);
  }

  /** The program that a relocation names exists. */
  lemma {:induction false} TargetExists(p: Input, k: nat, i: nat) returns (t: nat)
    requires Load(p) && k < |p.raw| && i < |p.relocs| && p.relocs[i].progIndex == k
    ensures t < |p.raw| && p.relocs[i].section == Some(p.raw[t].section) && p.relocs[i].target == p.raw[t].name
  {
    hide LinkedBodies, Assembled, Calls, HasCopy, OneTarget, First, Input.Concerns, Solved;
    HeedsItsOwn(p, i, k);
    var bodies := LinkedBodies(p);
    NamesPlaced(p, bodies, k, |p.relocs|);
    var a := Assembled(p, bodies, k, |p.relocs|);
    assert FirstNamed(p, k, |p.relocs|, p.relocs[i].target);
    var j :| 0 <= j < |p.relocs| && p.Concerns(j, k) && First(p, k, j) && p.relocs[j].target == p.relocs[i].target;
    HeedsItsOwn(p, j, k);
    t := Callee(p, j).value;
  }

  lemma {:induction false} SiteHasTarget(p: Input, k: nat, pc: nat)
    requires Load(p) && k < |p.raw| && CallSite(p, k, pc)
    ensures exists t :: Names(p, k, pc, t)
  {
    hide Load;
    var i :| Own(p, i, k, pc);
    var t := TargetExists(p, k, i);
    assert Names(p, k, pc, t);
  }

  /** After linking, the call of every relocation leads to a copy of the linked body of the program with the
      section and the name that the relocation gives. */
  lemma {:induction false} EveryCallIsLinked(p: Input, i: nat) returns (t: nat)
    requires Load(p) && i < |p.relocs| && p.relocs[i].progIndex < |p.raw|
    ensures t < |p.raw| && p.relocs[i].section == Some(p.raw[t].section) && p.relocs[i].target == p.raw[t].name
    ensures var r, body := p.relocs[i], LinkedBodies(p)[p.relocs[i].progIndex];
            && r.source < |body| && body[r.source].IsLocalCall()
            && HasCopyAt(p, body, r.source + 1 + body[r.source].imm, t)
  {
    hide Load, LinkedBodies, HasCopyAt;
    var k, pc := p.relocs[i].progIndex, p.relocs[i].source;
    t := TargetExists(p, k, i);
    assert Own(p, i, k, pc);
    assert Names(p, k, pc, t);
    var body := LinkedBodies(p)[k];
    assert body[0..|body|] == body;
    SiteLeadsToCopy(p, body, 0, k, pc, t);
  }

  lemma {:induction false} MatchBuilt<D>(p: Input, main: seq<Inst>, s: Named<D>, t: Flat<D>, s': Named<D>, t': Flat<D>,
                                         tops: seq<NamedFrame<D>>, tops': seq<FlatFrame<D>>)
    requires Match(p, main, s, t) && s.frames != [] && s'.data == t'.data && |tops| == |tops'|
    requires s'.frames == s.frames[..|s.frames| - 1] + tops && t'.frames == t.frames[..|t.frames| - 1] + tops'
    requires forall i :: 0 <= i < |tops| ==> FrameMatch(p, main, tops[i], tops'[i])
    ensures Match(p, main, s', t')
  {
    hide FrameMatch;
    var n := |s.frames| - 1;
    forall i | 0 <= i < |s'.frames| ensures FrameMatch(p, main, s'.frames[i], t'.frames[i]) {
      if i < n {
        assert s'.frames[i] == s.frames[i] && t'.frames[i] == t.frames[i];
      } else {
        assert s'.frames[i] == tops[i - n] && t'.frames[i] == tops'[i - n];
      }
    }
  }

  // ----- one step -----

  /** Whatever the programs can do by name, the linked program can do too. */
  lemma {:induction false} StepForward<D(!new)>(
    p: Input, b: Behaviour<D>, main: seq<Inst>, s: Named<D>, s': Named<D>, t: Flat<D>) returns (t': Flat<D>)
    requires Load(p) && Match(p, main, s, t) && NamedStep(p, b, s, s')
    ensures FlatStep(main, b, t, t') && Match(p, main, s', t')
  {
    hide Load, HasCopyAt, Names, CallSite, LinkedBodies;
    var n := |s.frames| - 1;
    var f, g := s.frames[n], t.frames[n];
    var below := t.frames[..n];
    assert FrameMatch(p, main, f, g);
    var base := g.pc - f.pc;
    CopyAt(p, main, base, f.program);
    var inst := p.raw[f.program].insts[f.pc];
    if CallSite(p, f.program, f.pc) {
      var k :| Names(p, f.program, f.pc, k)
               && s'.frames == s.frames[..n] + [f.(pc := f.pc + 1), NamedFrame(k, 0, s.data)];
      SiteLeadsToCopy(p, main, base, f.program, f.pc, k);
      t' := Flat(below + [g.(pc := g.pc + 1), FlatFrame(g.pc + 1 + main[g.pc].imm, t.data)], s'.data);
      NameExists(p, f.program, f.pc, k);
      MatchBuilt(p, main, s, t, s', t', [f.(pc := f.pc + 1), NamedFrame(k, 0, s.data)],
                 [g.(pc := g.pc + 1), FlatFrame(g.pc + 1 + main[g.pc].imm, t.data)]);
    } else {
      OwnInCopy(p, main, base, f.program, f.pc);
      if inst.IsLocalCall() {
        t' := Flat(below + [g.(pc := g.pc + 1), FlatFrame(g.pc + 1 + inst.imm, t.data)], s'.data);
        MatchBuilt(p, main, s, t, s', t', [f.(pc := f.pc + 1), NamedFrame(f.program, f.pc + 1 + inst.imm, s.data)],
                   [g.(pc := g.pc + 1), FlatFrame(g.pc + 1 + inst.imm, t.data)]);
      } else if delta :| b.exec(inst, s.data, s'.data, Go(delta))
                         && s'.frames == s.frames[..n] + [f.(pc := f.pc + 1 + delta)] {
        t' := Flat(below + [g.(pc := g.pc + 1 + delta)], s'.data);
        MatchBuilt(p, main, s, t, s', t', [f.(pc := f.pc + 1 + delta)], [g.(pc := g.pc + 1 + delta)]);
      } else {
        t' := Flat(below, s'.data);
        MatchBuilt(p, main, s, t, s', t', [], []);
      }
    }
  }

  lemma {:induction false} CopyAt(p: Input, main: seq<Inst>, base: int, k: nat)
    requires k < |p.raw| && HasCopyAt(p, main, base, k)
    ensures base >= 0 && HasCopy(main, base, LinkedBodies(p)[k])
  {
  }

  lemma {:induction false} NameExists(p: Input, k: nat, pc: nat, t: nat)
    requires Names(p, k, pc, t)
    ensures t < |p.raw|
  {
  }

  /** And the other way round, as long as the running frame has not left its own program. */
  lemma {:induction false} StepBackward<D(!new)>(
    p: Input, b: Behaviour<D>, main: seq<Inst>, s: Named<D>, t: Flat<D>, t': Flat<D>) returns (s': Named<D>)
    requires Load(p) && Match(p, main, s, t) && FlatStep(main, b, t, t') && Running(p, s)
    ensures NamedStep(p, b, s, s') && Match(p, main, s', t')
  {
    hide Load, HasCopyAt, Names, CallSite, LinkedBodies;
    var n := |s.frames| - 1;
    var f, g := s.frames[n], t.frames[n];
    var below := s.frames[..n];
    assert FrameMatch(p, main, f, g);
    var base := g.pc - f.pc;
    CopyAt(p, main, base, f.program);
    var inst := p.raw[f.program].insts[f.pc];
    if CallSite(p, f.program, f.pc) {
      SiteHasTarget(p, f.program, f.pc);
      var k :| Names(p, f.program, f.pc, k);
      SiteLeadsToCopy(p, main, base, f.program, f.pc, k);
      NameExists(p, f.program, f.pc, k);
      s' := Named(below + [f.(pc := f.pc + 1), NamedFrame(k, 0, s.data)], t'.data);
      MatchBuilt(p, main, s, t, s', t', [f.(pc := f.pc + 1), NamedFrame(k, 0, s.data)],
                 [g.(pc := g.pc + 1), FlatFrame(g.pc + 1 + main[g.pc].imm, t.data)]);
    } else {
      OwnInCopy(p, main, base, f.program, f.pc);
      if inst.IsLocalCall() {
        s' := Named(below + [f.(pc := f.pc + 1), NamedFrame(f.program, f.pc + 1 + inst.imm, s.data)], t'.data);
        MatchBuilt(p, main, s, t, s', t', [f.(pc := f.pc + 1), NamedFrame(f.program, f.pc + 1 + inst.imm, s.data)],
                   [g.(pc := g.pc + 1), FlatFrame(g.pc + 1 + inst.imm, t.data)]);
      } else if delta :| b.exec(inst, t.data, t'.data, Go(delta))
                         && t'.frames == t.frames[..n] + [g.(pc := g.pc + 1 + delta)] {
        s' := Named(below + [f.(pc := f.pc + 1 + delta)], t'.data);
        MatchBuilt(p, main, s, t, s', t', [f.(pc := f.pc + 1 + delta)], [g.(pc := g.pc + 1 + delta)]);
      } else {
        s' := Named(below, t'.data);
        MatchBuilt(p, main, s, t, s', t', [], []);
      }
    }
  }

  // ----- whole runs -----

  ghost predicate NamedRun<D(!new)>(p: Input, b: Behaviour<D>, run: seq<Named<D>>) {
    run != [] && forall i, j :: 0 <= i && j == i + 1 && j < |run| ==> NamedStep(p, b, run[i], run[j])
  }

  ghost predicate FlatRun<D(!new)>(main: seq<Inst>, b: Behaviour<D>, run: seq<Flat<D>>) {
    run != [] && forall i, j :: 0 <= i && j == i + 1 && j < |run| ==> FlatStep(main, b, run[i], run[j])
  }

  ghost predicate RunsMatch<D>(p: Input, main: seq<Inst>, run: seq<Named<D>>, flat: seq<Flat<D>>) {
    |run| == |flat| && forall i :: 0 <= i < |run| ==> Match(p, main, run[i], flat[i])
  }

  ghost function NamedStart<D>(k: nat, data: D): Named<D> {
    Named([NamedFrame(k, 0, data)], data)
  }

  ghost function FlatStart<D>(data: D): Flat<D> {
    Flat([FlatFrame(0, data)], data)
  }

  lemma {:induction false} StartsMatch<D>(p: Input, k: nat, data: D)
    requires k < |p.raw|
    ensures Match(p, LinkedBodies(p)[k], NamedStart(k, data), FlatStart(data))
  {
    hide LinkedBodies;
    var body := LinkedBodies(p)[k];
    assert body[0..|body|] == body;
  }

  /** Every run of program `k` by name is a run of its linked body. */
  lemma {:induction false} LinkingKeepsRuns<D(!new)>(p: Input, b: Behaviour<D>, k: nat, run: seq<Named<D>>)
    returns (flat: seq<Flat<D>>)
    requires Load(p) && k < |p.raw| && NamedRun(p, b, run) && run[0] == NamedStart(k, run[0].data)
    ensures FlatRun(LinkedBodies(p)[k], b, flat) && flat[0] == FlatStart(run[0].data)
    ensures RunsMatch(p, LinkedBodies(p)[k], run, flat)
    decreases |run|
  {
    hide Load, LinkedBodies, Match, NamedStep, FlatStep;
    var n := |run| - 1;
    if n == 0 {
      StartsMatch(p, k, run[0].data);
      flat := [FlatStart(run[0].data)];
    } else {
      flat := LinkingKeepsRuns(p, b, k, run[..n]);
      var next := StepForward(p, b, LinkedBodies(p)[k], run[n - 1], run[n], flat[n - 1]);
      flat := flat + [next];
    }
  }

  /** Every run of the linked body is a run by name, up to where a frame leaves its own program. */
  lemma {:induction false} LinkingAddsNoRuns<D(!new)>(p: Input, b: Behaviour<D>, k: nat, flat: seq<Flat<D>>)
    returns (run: seq<Named<D>>)
    requires Load(p) && k < |p.raw| && FlatRun(LinkedBodies(p)[k], b, flat) && flat[0] == FlatStart(flat[0].data)
    ensures NamedRun(p, b, run) && run[0] == NamedStart(k, flat[0].data) && |run| <= |flat|
    ensures RunsMatch(p, LinkedBodies(p)[k], run, flat[..|run|])
    ensures |run| < |flat| ==> !Running(p, run[|run| - 1])
    decreases |flat|
  {
    hide Load, LinkedBodies, Match, NamedStep, FlatStep, Running;
    var n := |flat| - 1;
    if n == 0 {
      StartsMatch(p, k, flat[0].data);
      run := [NamedStart(k, flat[0].data)];
    } else {
      run := LinkingAddsNoRuns(p, b, k, flat[..n]);
      assert flat[..n][..|run|] == flat[..|run|];
      if |run| == n && Running(p, run[n - 1]) {
        assert Match(p, LinkedBodies(p)[k], run[n - 1], flat[..n][n - 1]);
        var next := StepBackward(p, b, LinkedBodies(p)[k], run[n - 1], flat[n - 1], flat[n]);
        run := run + [next];
      }
    }
  }

  // ----- what the linker's notions come to -----

  /** The program that relocation `i` names, by section and name. */
  ghost predicate Targets(p: Input, i: int, t: int) {
    && 0 <= i < |p.relocs| && 0 <= t < |p.raw|
    && p.relocs[i].section == Some(p.raw[t].section) && p.relocs[i].target == p.raw[t].name
  }

  /** Where names are unique, a relocation finds exactly the program that it names. */
  lemma {:induction false} CalleeIsTarget(p: Input, i: nat, t: nat)
    requires UniqueNames(p) && i < |p.relocs| && t < |p.raw|
    ensures Callee(p, i) == Some(t) <==> Targets(p, i, t)
  {
    if Targets(p, i, t) {
      assert Callee(p, i).Some?;
    }
  }

  /** No target of a program is missing exactly if each of its relocations names a program that there is. */
  lemma {:induction false} PresentIff(p: Input, k: nat)
    requires UniqueNames(p) && Consistent(p) && k < |p.raw|
    ensures Present(p, k, |p.relocs|) <==>
            forall i :: 0 <= i < |p.relocs| && p.relocs[i].progIndex == k ==> exists t :: Targets(p, i, t)
  {
    hide Input.Concerns, UniqueNames, Callee, Targets;
    forall i | 0 <= i < |p.relocs| ensures p.Concerns(i, k) <==> p.relocs[i].progIndex == k {
      HeedsItsOwn(p, i, k);
    }
    if Present(p, k, |p.relocs|) {
      forall i | 0 <= i < |p.relocs| && p.relocs[i].progIndex == k ensures exists t :: Targets(p, i, t) {
        var j := FirstOf(p, k, i);
        CalleeFound(p, j);
        SameTargets(p, i, j, Callee(p, j).value);
      }
    }
    forall i | 0 <= i < |p.relocs| && p.relocs[i].progIndex == k && exists t :: Targets(p, i, t)
      ensures Callee(p, i).Some? {
      var t :| Targets(p, i, t);
      TargetInRange(p, i, t);
      CalleeIsTarget(p, i, t);
    }
  }

  lemma {:induction false} TargetInRange(p: Input, i: int, t: int)
    requires Targets(p, i, t)
    ensures 0 <= t < |p.raw|
  {
  }

  lemma {:induction false} CalleeFound(p: Input, i: nat)
    requires i < |p.relocs| && Callee(p, i).Some?
    ensures Targets(p, i, Callee(p, i).value)
  {
  }

  lemma {:induction false} SameTargets(p: Input, i: nat, j: nat, t: int)
    requires Consistent(p) && i < |p.relocs| && j < |p.relocs| && p.relocs[i].progIndex == p.relocs[j].progIndex
    requires p.relocs[i].target == p.relocs[j].target && Targets(p, j, t)
    ensures Targets(p, i, t)
  {
  }

  /** The first relocation with the target of `i`. */
  lemma {:induction false} FirstOf(p: Input, k: nat, i: nat) returns (j: nat)
    requires k < |p.raw| && i < |p.relocs| && p.Concerns(i, k)
    ensures j <= i && p.Concerns(j, k) && p.relocs[j].target == p.relocs[i].target && First(p, k, j)
  {
    hide Input.Concerns;
    if First(p, k, i) {
      j := i;
    } else {
      var h :| 0 <= h < i && p.Concerns(h, k) && p.relocs[h].target == p.relocs[i].target;
      j := FirstOf(p, k, h);
    }
  }

  /** A load that goes through leaves nothing unresolved in the desired section. */
  lemma {:induction false} DesiredIsComplete(p: Input, desired: string, i: nat)
    requires UniqueNames(p) && Consistent(p) && Completes(p, desired)
    requires i < |p.relocs| && p.relocs[i].progIndex < |p.raw| && p.raw[p.relocs[i].progIndex].section == desired
    ensures exists t :: Targets(p, i, t)
  {
    hide UniqueNames, Consistent, Acyclic, ReachedFit, CallsLacking, Targets, Present;
    PresentIff(p, p.relocs[i].progIndex);
  }

  /** A program calls another exactly if one of its relocations names it. */
  lemma {:induction false} CallsIff(p: Input, k: nat, t: nat)
    requires UniqueNames(p) && Consistent(p) && k < |p.raw| && t < |p.raw|
    ensures Calls(p, k, t) <==> exists i :: 0 <= i < |p.relocs| && p.relocs[i].progIndex == k && Targets(p, i, t)
  {
    hide Input.Concerns, UniqueNames, Callee, Targets, First, Consistent;
    if Calls(p, k, t) {
      var i :| 0 <= i < |p.relocs| && p.Concerns(i, k) && First(p, k, i) && Callee(p, i) == Some(t);
      HeedsItsOwn(p, i, k);
      CalleeFound(p, i);
    }
    if i :| 0 <= i < |p.relocs| && p.relocs[i].progIndex == k && Targets(p, i, t) {
      HeedsItsOwn(p, i, k);
      var j := FirstOf(p, k, i);
      HeedsItsOwn(p, j, k);
      SameTargets(p, j, i, t);
      CalleeIsTarget(p, j, t);
    }
  }

  /** Where a body has been placed it stays. */
  lemma {:induction false} OffsetStays(p: Input, bodies: seq<seq<Inst>>, k: nat, n: nat, m: nat, name: string)
    requires k < |p.raw| && n <= m <= |p.relocs| && |bodies| == |p.raw|
    requires name in Assembled(p, bodies, k, n).offsets
    ensures name in Assembled(p, bodies, k, m).offsets
    ensures Assembled(p, bodies, k, m).offsets[name] == Assembled(p, bodies, k, n).offsets[name]
    decreases m
  {
    hide Callee, Input.Concerns, Patched;
    if n < m {
      OffsetStays(p, bodies, k, n, m - 1, name);
    }
  }

  /** All immediates fit 32 bits exactly if those that end up in the calls of the linked programs do. */
  lemma {:induction false} FitIffImmediates(p: Input)
    requires Load(p)
    ensures AllFit(p) <==> forall i :: 0 <= i < |p.relocs| && p.relocs[i].progIndex < |p.raw| ==> ImmediateFits(p, i)
  {
    hide Load, ImmediateFits, FitsAt, Input.Concerns;
    forall i, k | 0 <= i < |p.relocs| && 0 <= k < |p.raw|
      ensures p.Concerns(i, k) <==> p.relocs[i].progIndex == k
      ensures p.Concerns(i, k) ==> (FitsAt(p, k, i) <==> ImmediateFits(p, i))
    {
      LoadUnique(p);
      HeedsItsOwn(p, i, k);
      if p.Concerns(i, k) {
        FitsByImmediate(p, k, i);
      }
    }
    if AllFit(p) {
      forall i | 0 <= i < |p.relocs| && p.relocs[i].progIndex < |p.raw| ensures ImmediateFits(p, i) {
        var k: nat := p.relocs[i].progIndex;
        assert Fits(p, k, |p.relocs|);
        assert p.Concerns(i, k);
        assert FitsAt(p, k, i);
      }
    }
  }

  lemma {:induction false} LoadUnique(p: Input)
    requires Load(p)
    ensures UniqueNames(p)
  {
  }

  /** The immediate of the call of relocation `i` in the linked program fits 32 bits. */
  ghost predicate ImmediateFits(p: Input, i: int)
    requires 0 <= i < |p.relocs| && p.relocs[i].progIndex < |p.raw|
  {
    var body, pc := LinkedBodies(p)[p.relocs[i].progIndex], p.relocs[i].source;
    pc < |body| && -0x8000_0000 <= body[pc].imm < 0x8000_0000
  }

  lemma {:induction false} FitsByImmediate(p: Input, k: nat, i: nat)
    requires Load(p) && k < |p.raw| && i < |p.relocs| && p.Concerns(i, k) && p.relocs[i].progIndex == k
    ensures FitsAt(p, k, i) <==> ImmediateFits(p, i)
  {
    hide LinkedBodies, Assembled, Calls, HasCopy, OneTarget, Input.Concerns, First, Present;
    var bodies, all := LinkedBodies(p), |p.relocs|;
    ConsistentIsOneTarget(p);
    AssembledPlaced(p, bodies, k, all);
    PresentUpTo(p, k, all, i + 1);
    SitePatched(p, bodies, k, i + 1, i);
    SitePatched(p, bodies, k, all, i);
    OffsetStays(p, bodies, k, i + 1, all, p.relocs[i].target);
  }

  lemma {:induction false} PresentUpTo(p: Input, k: nat, n: nat, m: nat)
    requires k < |p.raw| && m <= n <= |p.relocs| && Present(p, k, n)
    ensures Present(p, k, m)
  {
  }

  /** Links all programs; if that succeeds for all of them, every call of the linked programs leads to the
      linked body that its relocation names, with an immediate that fits. */
  method LinkAll(raw: seq<RawProgram>, relocs: seq<Relocation>, desired: string)
    returns (v: Linker.Verdict, programs: seq<RawProgram>)
    requires Input(raw, relocs).InRange()
    ensures v.AllLinked? ==> |programs| == |raw| && forall k: nat ::
                               k < |raw| ==> programs[k].section == raw[k].section && programs[k].name == raw[k].name
    ensures var p := Input(raw, relocs);
            v.AllLinked? && UniqueNames(p) && Consistent(p) && SitesAreCalls(p) ==>
              forall i :: 0 <= i < |relocs| && relocs[i].progIndex < |raw| ==> CallLinked(p, programs, i)
  {
    hide LinkedBodies, Linkable, Solved, Present, Load, CallLinked;
    var reader := new Linker.ProgramReader(raw, relocs);
    v := reader.LinkPrograms(desired);
    programs := reader.programs;
    ghost var p := Input(raw, relocs);
    if v.AllLinked? {
      EachPresent(p);
      if UniqueNames(p) && Consistent(p) && SitesAreCalls(p) {
        LinkableIsLoad(p);
        forall i | 0 <= i < |relocs| && relocs[i].progIndex < |raw| ensures CallLinked(p, programs, i) {
          CallIsLinked(p, programs, i);
        }
      }
    }
  }

  /** The call of relocation `i` leads to a copy of a program that the relocation names. */
  ghost predicate CallLinked(p: Input, programs: seq<RawProgram>, i: int)
    requires 0 <= i < |p.relocs| && p.relocs[i].progIndex < |p.raw|
  {
    |programs| == |p.raw| &&
    var insts, pc := programs[p.relocs[i].progIndex].insts, p.relocs[i].source;
    && pc < |insts| && insts[pc].IsLocalCall() && -0x8000_0000 <= insts[pc].imm < 0x8000_0000
    && exists t :: Targets(p, i, t) && pc + 1 + insts[pc].imm >= 0
                   && HasCopy(insts, pc + 1 + insts[pc].imm, programs[t].insts)
  }

  lemma {:induction false} EachPresent(p: Input)
    requires Linkable(p)
    ensures forall k: nat :: k < |p.raw| ==> Present(p, k, |p.relocs|)
  {
    hide Present;
  }

  lemma {:induction false} CallIsLinked(p: Input, programs: seq<RawProgram>, i: nat)
    requires Load(p) && Linkable(p) && i < |p.relocs| && p.relocs[i].progIndex < |p.raw| && |programs| == |p.raw|
    requires forall k: nat :: k < |programs| ==> programs[k].insts == LinkedBodies(p)[k]
    ensures CallLinked(p, programs, i)
  {
    hide Load, LinkedBodies, HasCopy, Acyclic, Fits;
    var t := EveryCallIsLinked(p, i);
    FitIffImmediates(p);
    assert ImmediateFits(p, i);
    assert Targets(p, i, t);
  }

  // ----- where names are not unique -----

  const MOVE: Inst := Inst(0xb7, 0, 0, 0, 7)
  const LOCAL_CALL: Inst := Inst(INST_OP_CALL, 0, INST_CALL_LOCAL, 0, -1)

  /** Two programs named `f` in two sections; only the first has a relocation. */
  function Namesakes(): Input {
    Input([RawProgram("a", "f", [LOCAL_CALL]), RawProgram("b", "f", [MOVE]), RawProgram("t", "g", [MOVE])],
          [Relocation(0, 0, Some("t"), "g")])
  }

  /** A program heeds the relocations of its namesakes: linking the second `f` changes an instruction that no
      relocation is of. */
  lemma {:induction false} NamesakeIsPatched(bodies: seq<seq<Inst>>)
    requires |bodies| == 3
    ensures var p := Namesakes();
            && p.Concerns(0, 1) && !CallSite(p, 1, 0)
            && Assembled(p, bodies, 1, 1).insts == [MOVE.(imm := 0)] + bodies[2]
            && p.raw[1].insts == [MOVE] && MOVE != MOVE.(imm := 0)
  {
    var p := Namesakes();
    assert p.Concerns(0, 1);
    assert "f"[0] != "g"[0] && "a"[0] != "t"[0] && "b"[0] != "t"[0];
    assert Find(p.raw, "t", "g", 1) == Find(p.raw, "t", "g", 2) == Some(2);
    assert Callee(p, 0) == Some(2);
    assert Assembled(p, bodies, 1, 0) == Assembly([MOVE], map[], map[], []);
    assert Assembled(p, bodies, 1, 1) == Extended(p, bodies, 1, 0, Assembled(p, bodies, 1, 0));
    assert Patched([MOVE] + bodies[2], 0, 1) == [MOVE.(imm := 0)] + bodies[2];
  }

  /** A program that calls two programs named `f` in two sections. */
  function TwoTargets(): Input {
    Input([RawProgram("m", "main", [LOCAL_CALL, LOCAL_CALL]), RawProgram("x", "f", [MOVE]), RawProgram("y", "f", [])],
          [Relocation(0, 0, Some("x"), "f"), Relocation(0, 1, Some("y"), "f")])
  }

  /** Only the first of them is appended, and both calls lead to it. */
  lemma {:induction false} SecondTargetIsLost(bodies: seq<seq<Inst>>)
    requires |bodies| == 3
    ensures var p, a := TwoTargets(), Assembled(TwoTargets(), bodies, 0, 2);
            && Callee(p, 0) == Some(1) && Callee(p, 1) == Some(2) && a.appended == [1]
            && |a.insts| >= 2 && 1 + a.insts[0].imm == 2 + a.insts[1].imm == a.offsets["f"]
  {
    var p := TwoTargets();
    assert p.Concerns(0, 0) && p.Concerns(1, 0);
    assert "x"[0] != "m"[0] && "y"[0] != "m"[0] && "x"[0] != "y"[0];
    assert Find(p.raw, "x", "f", 1) == Some(1);
    assert Find(p.raw, "y", "f", 1) == Find(p.raw, "y", "f", 2) == Some(2);
    assert Callee(p, 0) == Some(1) && Callee(p, 1) == Some(2);
    var own := [LOCAL_CALL, LOCAL_CALL];
    assert Assembled(p, bodies, 0, 0) == Assembly(own, map[], map[], []);
    var one := Assembled(p, bodies, 0, 1);
    assert one == Extended(p, bodies, 0, 0, Assembled(p, bodies, 0, 0));
    assert one.offsets == map["f" := 2] && one.appended == [1];
    assert Assembled(p, bodies, 0, 2) == Extended(p, bodies, 0, 1, one);
  }
}
