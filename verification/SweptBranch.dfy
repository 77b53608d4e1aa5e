/** The branches the analysis reports against the processor: what kind each is, and where it goes. */
module SweptBranches {
  import opened Options
  import opened Words
  import opened Processor
  import opened InstructionSet
  import opened Execution
  import opened Analysis
  import StepPlanning

  // ---- what is reported ----------------------------------------------------------------------------------------------------

  /** The address that a displacement from the end of an instruction names. */
  ghost predicate Names(end: nat, rel: int, target: nat) {
    target < WORD && exists turns: int :: end + rel == target + turns * WORD
  }

  /** A site of this kind is reported for the instruction, and no other. */
  ghost predicate OnlySite(sites: seq<BranchSite>, a: nat, next: nat, kind: BranchKind, rel: Option<int>) {
    && (exists i :: 0 <= i < |sites| && sites[i].address == a)
    && forall i :: 0 <= i < |sites| && sites[i].address == a ==>
         && sites[i].next == next && sites[i].kind == kind
         && (if rel.Some? then Names(next, rel.value, sites[i].target) else sites[i].target == 0)
  }

  ghost predicate NoSite(sites: seq<BranchSite>, a: nat) {
    forall i :: 0 <= i < |sites| ==> sites[i].address != a
  }

  /** An instruction of the sweep is reported as what it is. */
  ghost predicate Reported(sites: seq<BranchSite>, a: nat, f: Form) {
    var next := a + f.length;
    match f.category
    case Plain => NoSite(sites, a)
    case ConditionalBranch => if f.relative.Some? then OnlySite(sites, a, next, Conditional, f.relative) else NoSite(sites, a)
    case UnconditionalBranch => OnlySite(sites, a, next, if f.relative.Some? then UnconditionalJmp else IndirectJump, f.relative)
    case CallBranch => OnlySite(sites, a, next, if f.relative.Some? then Call else IndirectCall, f.relative)
    case ReturnBranch => OnlySite(sites, a, next, Return, None)
  }

  lemma SumNames(end: nat, rel: int)
    ensures Names(end, rel, (end + rel) % WORD)
  {
    assert end + rel == (end + rel) % WORD + (end + rel) / WORD * WORD;
  }

  lemma SiteOf(f: Form, start: nat, a: nat)
    ensures var s := SiteAt(f, start, a);
      && (s.None? <==> f.category.Plain? || (f.category.ConditionalBranch? && f.relative.None?))
      && (s.Some? ==> Reported([s.value], a, f))
  {
    if f.relative.Some? {
      SumNames(a + f.length, f.relative.value);
    }
    var s := SiteAt(f, start, a);
    assert s.Some? ==> [s.value][0].address == a;
  }

  /** Each instruction of the sweep is reported exactly as its category and displacement say. */
  lemma SweepIsReported(isa: Isa, b: seq<Byte>, start: nat, x: nat)
    requires Reaches(isa, b, 0, x) && At(isa, b, x).Some?
    ensures Reported(Branches(isa, b, start, 0), start + x, At(isa, b, x).value)
  {
    hide Names;
    var sites, f, a := Branches(isa, b, start, 0), At(isa, b, x).value, start + x;
    var s := SiteAt(f, start, a);
    SiteOf(f, start, a);
    forall i | 0 <= i < |sites| && sites[i].address == a ensures s == Some(sites[i]) {
      BranchIsReached(isa, b, start, 0, sites[i]);
    }
    if s.Some? {
      StepPlanning.ReachedIsFound(isa, b, start, 0, x);
      var i :| 0 <= i < |sites| && sites[i] == s.value;
      assert [s.value][0] == sites[i];
    }
  }

  /** Nothing else is reported, and a back edge is a direct jump to its own function's start or past it, but before itself. */
  lemma OnlySweptIsReported(isa: Isa, b: seq<Byte>, start: nat, site: BranchSite)
    requires site in Branches(isa, b, start, 0)
    ensures start <= site.address && Reaches(isa, b, 0, site.address - start) && At(isa, b, site.address - start).Some?
    ensures site.backEdge <==> (site.kind == Conditional || site.kind == UnconditionalJmp) && 0 != site.target && start <= site.target < site.address
  {
    BranchIsReached(isa, b, start, 0, site);
  }

  // ---- where the processor goes ----------------------------------------------------------------------------------------------

  lemma NamesOne(end: nat, rel: int, t: nat, u: nat)
    requires Names(end, rel, t) && Names(end, rel, u)
    ensures t == u
  {
    var m: int :| end + rel == t + m * WORD;
    var n: int :| end + rel == u + n * WORD;
    assert t - u == (n - m) * WORD;
  }

  lemma WrapNames(end: Word, rel: int)
    requires -WORD <= end + rel < 2 * WORD
    ensures Names(end, rel, Wrap(end + rel))
  {
    var t := Wrap(end + rel);
    assert end + rel == t + (if end + rel < 0 then -1 else if end + rel >= WORD then 1 else 0) * WORD;
  }

  /** The bytes of a function as they lie in the code. */
  ghost predicate LiesAt(code: Memory, start: nat, b: seq<Byte>) {
    start + |b| < WORD && forall i :: 0 <= i < |b| ==> code[start + i] == b[i]
  }

  lemma SweptWindow(isa: Isa, code: Memory, s: Cpu, b: seq<Byte>, start: nat, x: nat)
    requires Lawful(isa) && LiesAt(code, start, b) && s.rip == start + x && At(isa, b, x).Some?
    ensures var f := At(isa, b, x).value;
      1 <= f.length <= 15 && x + f.length <= |b| && isa.decode(Window(code, s)) == Some(f)
  {
    DecodeBounds(isa, b[x..]);
    hide Lawful;
    var f := At(isa, b, x).value;
    forall i | 0 <= i < f.length ensures Window(code, s)[i] == b[x..][i] {
      assert code[start + (x + i)] == b[x + i];
    }
    assert b[x..][..f.length] == Window(code, s)[..f.length];
    DecodeLocal(isa, b[x..], Window(code, s));
  }

  /**
   A reported direct jump with a documented encoding goes to its target when it is taken and to its next address when it
   is not.
   */
  lemma KnownJumpGoes(isa: Isa, code: Memory, s: Cpu, b: seq<Byte>, start: nat, x: nat, site: BranchSite)
    requires Lawful(isa) && LiesAt(code, start, b) && s.rip == start + x && Reaches(isa, b, 0, x) && At(isa, b, x).Some?
    requires site in Branches(isa, b, start, 0) && site.address == start + x
    ensures var d := Known(Window(code, s));
      && (d.Some? && d.value.instruction.JumpRelative? ==> site.kind == UnconditionalJmp && Next(code, s).rip == site.target)
      && (d.Some? && d.value.instruction.JumpBelow? ==>
            && site.kind == Conditional
            && Next(code, s.(flags := s.flags.(carry := true))).rip == site.target
            && Next(code, s.(flags := s.flags.(carry := false))).rip == site.next)
  {
    hide Names;
    var w, f := Window(code, s), At(isa, b, x).value;
    SweptWindow(isa, code, s, b, start, x);
    SweepIsReported(isa, b, start, x);
    assert Agrees(isa, w);
    KnownEncodable(w);
    var d := Known(w);
    if d.Some? && (d.value.instruction.JumpRelative? || d.value.instruction.JumpBelow?) {
      var rel := f.relative.value;
      hide Lawful, Known, Branches, At;
      var i :| 0 <= i < |Branches(isa, b, start, 0)| && Branches(isa, b, start, 0)[i] == site;
      WrapNames(start + x + f.length, rel);
      NamesOne(start + x + f.length, rel, site.target, Wrap(start + x + f.length + rel));
    }
  }

  /**
   Where an instruction may go: one that is not a branch goes on, a conditional branch has a displacement and goes on or to
   what it names, and a jump or call with a displacement goes to what it names.
   */
  ghost predicate GoesBy(f: Form, end: nat, t: nat) {
    match f.category
    case Plain => t == end
    case ConditionalBranch => f.relative.Some? && (t == end || Names(end, f.relative.value, t))
    case UnconditionalBranch => f.relative.Some? ==> Names(end, f.relative.value, t)
    case CallBranch => f.relative.Some? ==> Names(end, f.relative.value, t)
    case ReturnBranch => true
  }

  /** What is asked of the effects of instructions other than the emitted ones. */
  ghost predicate Steers(isa: Isa) {
    forall b: seq<Byte>, s: Cpu :: SteersAt(isa, b, s)
  }

  ghost predicate SteersAt(isa: Isa, b: seq<Byte>, s: Cpu) {
    var d := isa.decode(b);
    d.Some? && d.value.length <= 15 && d.value.length <= |b| && s.rip + d.value.length < WORD
    && (d.value.operandAt.Some? ==> d.value.operandAt.value + 4 <= d.value.length) ==>
      var f, insn := d.value, b[..d.value.length];
      GoesBy(f, s.rip + f.length, isa.effect(Zeroed(insn, f), OperandAddress(insn, f, s.rip), Advance(s, f.length)).rip)
  }

  /** The emitted instructions alone, with their documented effects, are such a set. */
  function KnownEffect(z: seq<Byte>, operand: Word, s: Cpu): Cpu {
    KnownEncodable(z);
    if Known(z).Some? then Execute(s.memory, s, Known(z).value.instruction) else s
  }

  lemma KnownAloneSteers()
    ensures Lawful(Isa(KnownForm, KnownEffect)) && Steers(Isa(KnownForm, KnownEffect))
  {
    var isa := Isa(KnownForm, KnownEffect);
    KnownAloneIsLawful(KnownEffect);
    hide Lawful, Names;
    forall b: seq<Byte>, s: Cpu ensures SteersAt(isa, b, s) {
      if Known(b).Some? && s.rip + Known(b).value.length < WORD {
        var n := Known(b).value.length;
        KnownPrefix(b, b[..n]);
        KnownEncodable(b);
        ExecuteGoesBy(s.memory, Advance(s, n), Known(b).value.instruction, KnownForm(b).value);
      }
    }
  }

  lemma ExecuteGoesBy(code: Memory, s: Cpu, i: Instruction, f: Form)
    requires Encodable(i) && Jumps(i, f) && (f.category.Plain? <==> !i.JumpBelow? && !i.JumpRelative? && !i.JumpMemory?)
    ensures GoesBy(f, s.rip, Execute(code, s, i).rip)
  {
    hide Names;
    if i.JumpBelow? || i.JumpRelative? {
      WrapNames(s.rip, f.relative.value);
    }
  }

  lemma StepGoesBy(isa: Isa, code: Memory, s: Cpu, b: seq<Byte>, start: nat, x: nat)
    requires Lawful(isa) && Steers(isa) && LiesAt(code, start, b) && s.rip == start + x && At(isa, b, x).Some?
    ensures var f := At(isa, b, x).value; GoesBy(f, start + x + f.length, Step(isa, code, s).rip)
  {
    hide Names;
    var w, f := Window(code, s), At(isa, b, x).value;
    SweptWindow(isa, code, s, b, start, x);
    assert Agrees(isa, w) && SteersAt(isa, w, s);
    DecodeBounds(isa, w);
    KnownEncodable(w);
    hide Lawful, Steers, At;
    if Known(w).Some? {
      ExecuteGoesBy(code, Advance(s, f.length), Known(w).value.instruction, f);
    }
  }

  /** Every executed step of a swept instruction goes where the analysis says. */
  lemma StepGoesWhereReported(isa: Isa, code: Memory, s: Cpu, b: seq<Byte>, start: nat, x: nat)
    requires Lawful(isa) && Steers(isa) && LiesAt(code, start, b) && s.rip == start + x && Reaches(isa, b, 0, x) && At(isa, b, x).Some?
    ensures var sites, a, t := Branches(isa, b, start, 0), start + x, Step(isa, code, s).rip;
      && (NoSite(sites, a) ==> t == a + At(isa, b, x).value.length)
      && forall i :: 0 <= i < |sites| && sites[i].address == a ==>
           && sites[i].next == a + At(isa, b, x).value.length
           && (sites[i].kind == UnconditionalJmp || sites[i].kind == Call ==> t == sites[i].target)
           && (sites[i].kind == Conditional ==> t == sites[i].target || t == sites[i].next)
  {
    StepGoesBy(isa, code, s, b, start, x);
    SweepIsReported(isa, b, start, x);
    var sites, f, t := Branches(isa, b, start, 0), At(isa, b, x).value, Step(isa, code, s).rip;
    hide Names, Lawful, Steers, At, Branches, Step;
    forall i | 0 <= i < |sites| && sites[i].address == start + x && f.relative.Some? && Names(start + x + f.length, f.relative.value, t)
      ensures !f.category.Plain? && !f.category.ReturnBranch? ==> t == sites[i].target
    {
      if !f.category.Plain? && !f.category.ReturnBranch? {
        NamesOne(start + x + f.length, f.relative.value, t, sites[i].target);
      }
    }
  }
}
