/** Programs with unresolved local calls and what linking makes of one program, given the linked
    bodies of the programs it calls (src/elf_loader.cpp:161-176, src/elf_loader.cpp:833-881). */
module LinkModel {
  import opened Options
  import opened WtoTree

  datatype Inst = Inst(opcode: nat, dst: nat, src: nat, offset: int, imm: int)
  {
    predicate IsLocalCall() {
      opcode == INST_OP_CALL && src == INST_CALL_LOCAL
    }
  }

  const INST_OP_CALL: nat := 0x85
  const INST_CALL_LOCAL: nat := 1

  datatype RawProgram = RawProgram(section: string, name: string, insts: seq<Inst>)

  /** A call in program `progIndex` at instruction `source` of the symbol `target`, which is defined
      in `section`; the section is missing if the symbol's section index is invalid. */
  datatype Relocation = Relocation(progIndex: nat, source: nat, section: Option<string>, target: string)

  /** What there is to link. */
  datatype Input = Input(raw: seq<RawProgram>, relocs: seq<Relocation>)
  {
    /** The relocation belongs to the program: by function name, as the loader tells them apart. */
    predicate Concerns(i: nat, k: nat)
      requires i < |relocs| && k < |raw|
    {
      relocs[i].progIndex < |raw| && raw[relocs[i].progIndex].name == raw[k].name
    }

    /** Every relocated instruction exists. */
    ghost predicate InRange() {
      forall i, k :: 0 <= i < |relocs| && 0 <= k < |raw| && Concerns(i, k) ==> relocs[i].source < |raw[k].insts|
    }
  }

  /** The first program of a section with a given name. */
  function Find(raw: seq<RawProgram>, section: string, name: string, from: nat := 0): (r: Option<nat>)
    ensures r.Some? ==> from <= r.value < |raw| && raw[r.value].section == section && raw[r.value].name == name
    ensures forall i :: from <= i < (if r.Some? then r.value else |raw|) ==>
                          !(raw[i].section == section && raw[i].name == name)
    decreases |raw| - from
  {
    if from >= |raw| then None
    else if raw[from].section == section && raw[from].name == name then Some(from)
    else Find(raw, section, name, from + 1)
  }

  function Callee(p: Input, i: nat): Option<nat>
    requires i < |p.relocs|
  {
    if p.relocs[i].section.None? then None else Find(p.raw, p.relocs[i].section.value, p.relocs[i].target)
  }

  /** A program under construction: its instructions, where the body of each name called so far starts,
      which program that is, and the programs appended in order. */
  datatype Assembly = Assembly(insts: seq<Inst>, offsets: map<string, nat>, callees: map<string, nat>,
                               appended: seq<nat>)

  function Patched(insts: seq<Inst>, source: nat, offset: nat): seq<Inst>
    requires source < |insts|
  {
    insts[source := insts[source].(imm := offset - source - 1)]
  }

  /** The program after the first `n` relocations; `bodies` holds the linked bodies. */
  function Assembled(p: Input, bodies: seq<seq<Inst>>, k: nat, n: nat): (a: Assembly)
    requires k < |p.raw| && n <= |p.relocs| && |bodies| == |p.raw|
    ensures |p.raw[k].insts| <= |a.insts|
  {
    if n == 0 then Assembly(p.raw[k].insts, map[], map[], [])
    else
      var a := Assembled(p, bodies, k, n - 1);
      if p.Concerns(n - 1, k) then Extended(p, bodies, k, n - 1, a) else a
  }

  function Extended(p: Input, bodies: seq<seq<Inst>>, k: nat, i: nat, a: Assembly): (a': Assembly)
    requires k < |p.raw| && i < |p.relocs| && |bodies| == |p.raw| && |p.raw[k].insts| <= |a.insts|
    ensures |p.raw[k].insts| <= |a'.insts|
  {
    var r := p.relocs[i];
    var b := if r.target in a.offsets || Callee(p, i).None? then a
             else Assembly(a.insts + bodies[Callee(p, i).value], a.offsets[r.target := |a.insts|],
                           a.callees[r.target := Callee(p, i).value], a.appended + [Callee(p, i).value]);
    if r.target in b.offsets
       && r.source < |b.insts| then b.(insts := Patched(b.insts, r.source, b.offsets[r.target])) else b
  }

  /** The first `n` relocations of program `k` all find their targets, other than `k` itself. */
  ghost predicate Present(p: Input, k: nat, n: nat)
    requires k < |p.raw| && n <= |p.relocs|
  {
    forall i :: 0 <= i < n && p.Concerns(i, k) && First(p, k, i) ==> Callee(p, i).Some?
  }

  /** No earlier relocation of program `k` names the same target. */
  ghost predicate First(p: Input, k: nat, i: nat)
    requires k < |p.raw| && i < |p.relocs|
  {
    forall j :: 0 <= j < i && p.Concerns(j, k) ==> p.relocs[j].target != p.relocs[i].target
  }

  /** Program `k` calls program `t`. */
  ghost predicate Calls(p: Input, k: nat, t: nat) {
    k < |p.raw| && exists i :: 0 <= i < |p.relocs| && p.Concerns(i, k) && First(p, k, i) && Callee(p, i) == Some(t)
  }

  // ----- what an assembly contains -----

  ghost predicate HasCopy(insts: seq<Inst>, offset: nat, body: seq<Inst>) {
    offset + |body| <= |insts| && insts[offset..offset + |body|] == body
  }

  function TotalLength(bodies: seq<seq<Inst>>, appended: seq<nat>): nat {
    if appended == [] then 0
    else
      var t := appended[|appended| - 1];
      TotalLength(bodies, appended[..|appended| - 1]) + if t < |bodies| then |bodies[t]| else 0
  }

  /** Copies sit where the offsets say, after the program's own instructions, and add up to its length. */
  ghost predicate WellPlaced(p: Input, bodies: seq<seq<Inst>>, k: nat, a: Assembly)
    requires k < |p.raw| && |bodies| == |p.raw|
  {
    && a.offsets.Keys == a.callees.Keys
    && (forall name :: name in a.offsets ==>
                         && a.callees[name] < |p.raw| && p.raw[a.callees[name]].name == name
                         && |p.raw[k].insts| <= a.offsets[name]
                         && HasCopy(a.insts, a.offsets[name], bodies[a.callees[name]]))
    && NoDup(a.appended)
    && (forall t: nat ::
          t in a.appended <==> t < |p.raw| && p.raw[t].name in a.callees && a.callees[p.raw[t].name] == t)
    && |a.insts| == |p.raw[k].insts| + TotalLength(bodies, a.appended)
  }

  lemma {:induction false} CopyKept(
    insts: seq<Inst>, offset: nat, body: seq<Inst>, source: nat, target: nat, more: seq<Inst>)
    requires HasCopy(insts, offset, body)
    ensures HasCopy(insts + more, offset, body)
    ensures source < offset && source < |insts| ==> HasCopy(Patched(insts, source, target), offset, body)
  {
    assert (insts + more)[offset..offset + |body|] == insts[offset..offset + |body|];
    if source < offset && source < |insts| {
      assert Patched(insts, source, target)[offset..offset + |body|] == insts[offset..offset + |body|];
    }
  }

  lemma {:induction false} AppendPlaced(p: Input, bodies: seq<seq<Inst>>, k: nat, a: Assembly, name: string, t: nat)
    requires k < |p.raw| && |bodies| == |p.raw| && t < |p.raw| && p.raw[t].name == name && name !in a.offsets
    requires |p.raw[k].insts| <= |a.insts| && WellPlaced(p, bodies, k, a)
    ensures WellPlaced(
              p, bodies, k,
              Assembly(a.insts + bodies[t], a.offsets[name := |a.insts|], a.callees[name := t], a.appended + [t]))
  {
    hide HasCopy;
    var b := Assembly(a.insts + bodies[t], a.offsets[name := |a.insts|], a.callees[name := t], a.appended + [t]);
    forall x | x in b.offsets ensures HasCopy(b.insts, b.offsets[x], bodies[b.callees[x]]) {
      if x == name {
        NewCopy(a.insts, bodies[t]);
      } else {
        CopyKept(a.insts, a.offsets[x], bodies[a.callees[x]], 0, 0, bodies[t]);
      }
    }
    assert t !in a.appended;
    assert b.appended[..|a.appended|] == a.appended;
  }

  lemma {:induction false} NewCopy(insts: seq<Inst>, body: seq<Inst>)
    ensures HasCopy(insts + body, |insts|, body)
  {
  }

  lemma {:induction false} PatchPlaced(p: Input, bodies: seq<seq<Inst>>, k: nat, a: Assembly, source: nat, target: nat)
    requires k < |p.raw| && |bodies| == |p.raw| && source < |p.raw[k].insts| <= |a.insts| && WellPlaced(p, bodies, k, a)
    ensures WellPlaced(p, bodies, k, a.(insts := Patched(a.insts, source, target)))
  {
    hide HasCopy;
    forall x | x in a.offsets ensures HasCopy(Patched(a.insts, source, target), a.offsets[x], bodies[a.callees[x]]) {
      CopyKept(a.insts, a.offsets[x], bodies[a.callees[x]], source, target, []);
    }
  }

  lemma {:induction false} AssembledPlaced(p: Input, bodies: seq<seq<Inst>>, k: nat, n: nat)
    requires k < |p.raw| && n <= |p.relocs| && |bodies| == |p.raw| && p.InRange()
    ensures WellPlaced(p, bodies, k, Assembled(p, bodies, k, n))
  {
    hide WellPlaced, Patched;
    if n == 0 {
      NothingPlaced(p, bodies, k);
    } else {
      AssembledPlaced(p, bodies, k, n - 1);
      if p.Concerns(n - 1, k) {
        var a, r := Assembled(p, bodies, k, n - 1), p.relocs[n - 1];
        if r.target !in a.offsets && Callee(p, n - 1).Some? {
          AppendPlaced(p, bodies, k, a, r.target, Callee(p, n - 1).value);
          PatchPlaced(p, bodies, k, Assembly(a.insts + bodies[Callee(p, n - 1).value], a.offsets[r.target := |a.insts|],
                                             a.callees[r.target := Callee(p, n - 1).value],
                                             a.appended + [Callee(p, n - 1).value]),
                      r.source, |a.insts|);
        } else if r.target in a.offsets {
          PatchPlaced(p, bodies, k, a, r.source, a.offsets[r.target]);
        }
      }
    }
  }

  lemma {:induction false} NothingPlaced(p: Input, bodies: seq<seq<Inst>>, k: nat)
    requires k < |p.raw| && |bodies| == |p.raw|
    ensures WellPlaced(p, bodies, k, Assembly(p.raw[k].insts, map[], map[], []))
  {
  }

  // ----- names called -----

  /** The names placed are those of the first `n` relocations. */
  ghost predicate Named(p: Input, k: nat, n: nat, a: Assembly)
    requires k < |p.raw| && n <= |p.relocs|
  {
    && a.offsets.Keys == a.callees.Keys
    && (forall i :: 0 <= i < n && p.Concerns(i, k) ==> p.relocs[i].target in a.offsets)
    && (forall i :: 0 <= i < n && p.Concerns(i, k) && First(p, k, i) ==>
                      Callee(p, i) == Some(a.callees[p.relocs[i].target]))
    && (forall name :: name in a.offsets ==> FirstNamed(p, k, n, name))
  }

  ghost predicate FirstNamed(p: Input, k: nat, n: nat, name: string)
    requires k < |p.raw| && n <= |p.relocs|
  {
    exists i :: 0 <= i < n && p.Concerns(i, k) && First(p, k, i) && p.relocs[i].target == name
  }

  lemma {:induction false} FirstIffNew(p: Input, k: nat, n: nat, a: Assembly)
    requires k < |p.raw| && n < |p.relocs| && Named(p, k, n, a)
    ensures First(p, k, n) <==> p.relocs[n].target !in a.offsets
  {
    if p.relocs[n].target in a.offsets {
      assert FirstNamed(p, k, n, p.relocs[n].target);
    }
  }

  lemma {:induction false} FirstNamedLater(p: Input, k: nat, n: nat, name: string)
    requires k < |p.raw| && n < |p.relocs| && FirstNamed(p, k, n, name)
    ensures FirstNamed(p, k, n + 1, name)
  {
  }

  lemma {:induction false} NamesPlaced(p: Input, bodies: seq<seq<Inst>>, k: nat, n: nat)
    requires k < |p.raw| && n <= |p.relocs| && |bodies| == |p.raw| && Present(p, k, n)
    ensures Named(p, k, n, Assembled(p, bodies, k, n))
  {
    hide Patched, FirstNamed, First, Callee, Input.Concerns;
    if n > 0 {
      NamesPlaced(p, bodies, k, n - 1);
      var a, a' := Assembled(p, bodies, k, n - 1), Assembled(p, bodies, k, n);
      FirstIffNew(p, k, n - 1, a);
      forall name | name in a.offsets ensures FirstNamed(p, k, n, name) {
        FirstNamedLater(p, k, n - 1, name);
      }
      if p.Concerns(n - 1, k) {
        assert p.relocs[n - 1].target in a'.offsets;
        assert FirstNamed(p, k, n, p.relocs[n - 1].target) by {
          if p.relocs[n - 1].target !in a.offsets {
            LastIsFirst(p, k, n);
          }
        }
      }
    }
  }

  lemma {:induction false} LastIsFirst(p: Input, k: nat, n: nat)
    requires k < |p.raw| && 0 < n <= |p.relocs| && p.Concerns(n - 1, k) && First(p, k, n - 1)
    ensures FirstNamed(p, k, n, p.relocs[n - 1].target)
  {
  }

  /** The programs appended are exactly those called directly, each once. */
  lemma {:induction false} AppendedAreCallees(p: Input, bodies: seq<seq<Inst>>, k: nat, t: nat)
    requires k < |p.raw| && |bodies| == |p.raw| && Present(p, k, |p.relocs|) && p.InRange()
    ensures t in Assembled(p, bodies, k, |p.relocs|).appended <==> Calls(p, k, t)
  {
    hide HasCopy, Assembled, First;
    AssembledPlaced(p, bodies, k, |p.relocs|);
    NamesPlaced(p, bodies, k, |p.relocs|);
    var a := Assembled(p, bodies, k, |p.relocs|);
    if t in a.appended {
      assert FirstNamed(p, k, |p.relocs|, p.raw[t].name);
    }
  }

  /** Assembling looks only at the bodies of called programs. */
  lemma {:induction false} AssembledSame(p: Input, bodies: seq<seq<Inst>>, bodies': seq<seq<Inst>>, k: nat, n: nat)
    requires k < |p.raw| && n <= |p.relocs| && |bodies| == |bodies'| == |p.raw| && Present(p, k, n)
    requires forall i ::
               0 <= i < n && p.Concerns(i, k) && First(p, k, i) ==>
                 bodies'[Callee(p, i).value] == bodies[Callee(p, i).value]
    ensures Assembled(p, bodies', k, n) == Assembled(p, bodies, k, n)
  {
    hide Named, Callee;
    if n > 0 {
      AssembledSame(p, bodies, bodies', k, n - 1);
      NamesPlaced(p, bodies, k, n - 1);
      FirstIffNew(p, k, n - 1, Assembled(p, bodies, k, n - 1));
      hide First, Present;
    }
  }

  // ----- call sites -----

  /** Relocations of one instruction of a program agree on the target. */
  ghost predicate OneTarget(p: Input) {
    forall i, j, k ::
      (0 <= i < |p.relocs| && 0 <= j < |p.relocs| && 0 <= k < |p.raw| && p.Concerns(i, k) && p.Concerns(j, k)
       && p.relocs[i].source == p.relocs[j].source) ==> p.relocs[i].target == p.relocs[j].target
  }

  ghost predicate IsSite(p: Input, k: nat, n: nat, j: nat)
    requires k < |p.raw| && n <= |p.relocs|
  {
    exists i :: 0 <= i < n && p.Concerns(i, k) && p.relocs[i].source == j
  }

  /** Own instructions keep everything but the immediates of their call sites. */
  lemma {:induction false} OwnInstructions(p: Input, bodies: seq<seq<Inst>>, k: nat, n: nat, j: nat)
    requires k < |p.raw| && n <= |p.relocs| && |bodies| == |p.raw| && j < |p.raw[k].insts| && p.InRange()
    ensures var a := Assembled(p, bodies, k, n);
            && a.insts[j].(imm := 0) == p.raw[k].insts[j].(imm := 0)
            && (!IsSite(p, k, n, j) ==> a.insts[j] == p.raw[k].insts[j])
  {
    if n > 0 {
      OwnInstructions(p, bodies, k, n - 1, j);
      if IsSite(p, k, n - 1, j) {
        var i :| 0 <= i < n - 1 && p.Concerns(i, k) && p.relocs[i].source == j;
        assert IsSite(p, k, n, j);
      }
      if p.Concerns(n - 1, k) && p.relocs[n - 1].source == j {
        assert IsSite(p, k, n, j);
      }
    }
  }

  /** The immediate of a call site leads to the body of its target. */
  lemma {:induction false} SitePatched(p: Input, bodies: seq<seq<Inst>>, k: nat, n: nat, i: nat)
    requires k < |p.raw| && n <= |p.relocs| && |bodies| == |p.raw| && p.InRange() && OneTarget(p) && Present(p, k, n)
    requires i < n && p.Concerns(i, k)
    ensures var a, r := Assembled(p, bodies, k, n), p.relocs[i];
            r.target in a.offsets && r.source < |a.insts| && r.source + 1 + a.insts[r.source].imm == a.offsets[r.target]
  {
    hide First, Callee, Input.Concerns, Input.InRange, Present, OneTarget, Extended, Named;
    SourceExists(p, k, i);
    PresentEarlier(p, k, n);
    var a := Assembled(p, bodies, k, n - 1);
    if i < n - 1 {
      SitePatched(p, bodies, k, n - 1, i);
      if p.Concerns(n - 1, k) {
        SiteKept(p, bodies, k, n - 1, i, a);
      }
    } else {
      NamesPlaced(p, bodies, k, n);
      SiteMade(p, bodies, k, n, a);
    }
  }

  lemma {:induction false} SourceExists(p: Input, k: nat, i: nat)
    requires k < |p.raw| && i < |p.relocs| && p.InRange() && p.Concerns(i, k)
    ensures p.relocs[i].source < |p.raw[k].insts|
  {
  }

  lemma {:induction false} PresentEarlier(p: Input, k: nat, n: nat)
    requires k < |p.raw| && n <= |p.relocs| && Present(p, k, n)
    ensures n > 0 ==> Present(p, k, n - 1)
  {
  }

  lemma {:induction false} SiteMade(p: Input, bodies: seq<seq<Inst>>, k: nat, n: nat, a: Assembly)
    requires k < |p.raw| && 0 < n <= |p.relocs| && |bodies| == |p.raw| && p.Concerns(n - 1, k)
             && |p.raw[k].insts| <= |a.insts|
    requires p.relocs[n - 1].source < |a.insts| && Named(p, k, n, Extended(p, bodies, k, n - 1, a))
    ensures var a', r := Extended(p, bodies, k, n - 1, a), p.relocs[n - 1];
            r.target in a'.offsets && r.source < |a'.insts|
            && r.source + 1 + a'.insts[r.source].imm == a'.offsets[r.target]
  {
  }

  lemma {:induction false} SiteKept(p: Input, bodies: seq<seq<Inst>>, k: nat, n: nat, i: nat, a: Assembly)
    requires k < |p.raw| && n < |p.relocs| && |bodies| == |p.raw| && OneTarget(p)
    requires i < n && p.Concerns(i, k) && p.Concerns(n, k) && |p.raw[k].insts| <= |a.insts|
    requires p.relocs[i].target in a.offsets && p.relocs[i].source < |a.insts|
    requires p.relocs[i].source + 1 + a.insts[p.relocs[i].source].imm == a.offsets[p.relocs[i].target]
    ensures var a', r := Extended(p, bodies, k, n, a), p.relocs[i];
            r.target in a'.offsets && r.source < |a'.insts|
            && r.source + 1 + a'.insts[r.source].imm == a'.offsets[r.target]
  {
  }
}
