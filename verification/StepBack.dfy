/** Stepping back over what was executed: the source of a step is among the candidates, by what the processor did. */
module StepsBack {
  import opened Options
  import opened Words
  import opened Processor
  import opened InstructionSet
  import opened Instrumentation
  import opened Execution
  import opened Analysis
  import opened Blocks
  import opened Predecessors
  import opened SweptBranches

  /** The sweep of the function has an instruction at the address. */
  ghost predicate Swept(isa: Isa, image: Memory, fn: FunctionRange, a: nat) {
    && 0 < fn.start <= a < fn.end < WORD
    && Reaches(isa, Body(image, fn), 0, a - fn.start) && At(isa, Body(image, fn), a - fn.start).Some?
  }

  function LengthAt(isa: Isa, image: Memory, fn: FunctionRange, a: nat): nat
    requires fn.start <= a && fn.start <= fn.end < WORD
  {
    var f := At(isa, Body(image, fn), a - fn.start);
    if f.Some? then f.value.length else 0
  }

  /** The instruction at a ends at b, and is reported neither as a jump that is always taken, nor as a return or a call. */
  ghost predicate GoesOn(isa: Isa, image: Memory, fn: FunctionRange, a: nat, b: nat) {
    && Swept(isa, image, fn, a) && a + LengthAt(isa, image, fn, a) == b < fn.end
    && forall i :: 0 <= i < |SitesOf(isa, image, fn)| && SitesOf(isa, image, fn)[i].address == a ==>
         var kind := SitesOf(isa, image, fn)[i].kind;
         kind != UnconditionalJmp && kind != IndirectJump && kind != Return && kind != Call && kind != IndirectCall
  }

  /** What is reported of a swept instruction decides whether its category falls through. */
  lemma CategoryIsReported(isa: Isa, image: Memory, fn: FunctionRange, a: nat)
    requires Swept(isa, image, fn, a)
    ensures FallsThrough(At(isa, Body(image, fn), a - fn.start).value) <==>
      forall i :: 0 <= i < |SitesOf(isa, image, fn)| && SitesOf(isa, image, fn)[i].address == a ==>
        var kind := SitesOf(isa, image, fn)[i].kind;
        kind != UnconditionalJmp && kind != IndirectJump && kind != Return && kind != Call && kind != IndirectCall
  {
    SweepIsReported(isa, Body(image, fn), fn.start, a - fn.start);
    hide Names, Branches, Reaches, At, Fetch;
    var sites, f := SitesOf(isa, image, fn), At(isa, Body(image, fn), a - fn.start).value;
    assert Reported(sites, a, f);
    if !FallsThrough(f) {
      var i :| 0 <= i < |sites| && sites[i].address == a;
    }
  }

  /** The code's test on the category agrees with what is reported. */
  lemma FallsIsGoesOn(isa: Isa, image: Memory, fn: FunctionRange, a: nat, b: nat)
    requires 0 < fn.start < fn.end < WORD
    ensures FallsIn(isa, image, fn, a, b) <==> GoesOn(isa, image, fn, a, b)
  {
    if Swept(isa, image, fn, a) {
      CategoryIsReported(isa, image, fn, a);
    }
    hide Branches, Reaches, At, Fetch, FallsThrough;
  }

  /** The first function of the list that holds the address. */
  ghost predicate Holder(functions: seq<FunctionAnalysis>, k: nat, b: nat) {
    && k < |functions| && functions[k].info.start <= b < functions[k].info.end
    && forall j :: 0 <= j < k ==> !(functions[j].info.start <= b < functions[j].info.end)
  }

  lemma {:induction false} HolderIs(functions: seq<FunctionAnalysis>, k: nat, b: nat)
    requires Holder(functions, k, b)
    ensures Containing(functions, b) == Some(functions[k])
  {
    if k > 0 {
      HolderIs(functions[1..], k - 1, b);
    }
  }

  /** What is found to fall through to b is exactly the instruction of b's function that ends there and goes on. */
  lemma FallthroughGoesOn(cfg: Config, image: Memory, h: History, functions: seq<FunctionAnalysis>, k: nat, a: nat, b: nat)
    requires Analysed(cfg, image, h, functions) && Holder(functions, k, b) && a != 0
    ensures PristineFallthrough(cfg.isa, image, functions, b) == a <==> GoesOn(cfg.isa, image, functions[k].info, a, b)
    ensures Falls(cfg.isa, image, functions, a, b) <==> GoesOn(cfg.isa, image, functions[k].info, a, b)
  {
    HolderIs(functions, k, b);
    ContainedReady(cfg, image, h, functions, b);
    FallthroughIs(cfg, image, h, functions, a, b);
    FallsIsGoesOn(cfg.isa, image, functions[k].info, a, b);
    hide Analysed, PristineFallthrough, FallsIn, GoesOn;
  }

  lemma {:induction false} SourceFoundIn(branches: seq<BranchSite>, i: nat)
    requires i < |branches|
    ensures branches[i].address in SourcesIn(branches, branches[i].target)
  {
    if i < |branches| - 1 {
      SourceFoundIn(branches[..|branches| - 1], i);
    }
  }

  lemma {:induction false} SourceFound(functions: seq<FunctionAnalysis>, k: nat, i: nat)
    requires k < |functions| && i < |functions[k].branches|
    ensures var site := functions[k].branches[i]; site.address in Sources(functions, site.target)
  {
    if k < |functions| - 1 {
      SourceFound(functions[..|functions| - 1], k, i);
    } else {
      SourceFoundIn(functions[k].branches, i);
    }
  }

  /** An executed step, not by an indirect jump, a return or an indirect call, is by going on or by a reported branch to there. */
  lemma StepIsReported(cfg: Config, image: Memory, h: History, functions: seq<FunctionAnalysis>, j: nat, s: Cpu)
    requires Analysed(cfg, image, h, functions) && j < |functions| && Lawful(cfg.isa) && Steers(cfg.isa)
    requires Swept(cfg.isa, image, functions[j].info, s.rip)
    requires forall i :: 0 <= i < |functions[j].branches| && functions[j].branches[i].address == s.rip ==>
      var kind := functions[j].branches[i].kind; kind != IndirectJump && kind != Return && kind != IndirectCall
    ensures var a, b := s.rip, Step(cfg.isa, image, s).rip;
      || a in Sources(functions, b)
      || (b == a + LengthAt(cfg.isa, image, functions[j].info, a) && (b < functions[j].info.end ==> GoesOn(cfg.isa, image, functions[j].info, a, b)))
  {
    hide Lawful, Steers, Step, Branches, At, Reaches, Sources, Body, Ready;
    var isa, fn := cfg.isa, functions[j].info;
    assert functions[j].branches == SitesOf(isa, image, fn);
    StepLeads(isa, image, fn, s);
    if i :| 0 <= i < |functions[j].branches| && functions[j].branches[i].address == s.rip && functions[j].branches[i].target == Step(isa, image, s).rip {
      SourceFound(functions, j, i);
    }
  }

  /** An executed step is to a reported target, or goes on. */
  lemma StepLeads(isa: Isa, image: Memory, fn: FunctionRange, s: Cpu)
    requires Lawful(isa) && Steers(isa) && Swept(isa, image, fn, s.rip)
    requires forall i :: 0 <= i < |SitesOf(isa, image, fn)| && SitesOf(isa, image, fn)[i].address == s.rip ==>
      var kind := SitesOf(isa, image, fn)[i].kind; kind != IndirectJump && kind != Return && kind != IndirectCall
    ensures var sites, b := SitesOf(isa, image, fn), Step(isa, image, s).rip;
      || (exists i :: 0 <= i < |sites| && sites[i].address == s.rip && sites[i].target == b)
      || (b == s.rip + LengthAt(isa, image, fn, s.rip)
          && forall i :: 0 <= i < |sites| && sites[i].address == s.rip ==>
               var kind := sites[i].kind;
               kind != UnconditionalJmp && kind != IndirectJump && kind != Return && kind != Call && kind != IndirectCall)
  {
    var body := Body(image, fn);
    assert LiesAt(image, fn.start, body);
    StepGoesWhereReported(isa, image, s, body, fn.start, s.rip - fn.start);
    hide Lawful, Steers, Step, Branches, At, Reaches;
    assert SitesOf(isa, image, fn) == Branches(isa, body, fn.start, 0);
  }

  /**
   For an executed step from a to b, by no indirect jump, return or indirect call: the candidates at b name a's true address
   with exactly the counter the thread held there if and only if b is a counted leader or a goes on to b.
   */
  lemma ExecutedStepIsCandidate(cfg: Config, image: Memory, h: History, functions: seq<FunctionAnalysis>, leaders: set<nat>,
                                j: nat, k: nat, s: Cpu, trace: seq<nat>, n: nat, first: Word)
    requires Analysed(cfg, image, h, functions) && Maps.MapsOk(cfg, h) && Lawful(cfg.isa) && Steers(cfg.isa)
    requires n + 1 < |trace| && trace[n] == s.rip && trace[n + 1] == Step(cfg.isa, image, s).rip
    requires j < |functions| && Swept(cfg.isa, image, functions[j].info, s.rip) && Holder(functions, k, trace[n + 1])
    requires trace[n + 1] == s.rip + LengthAt(cfg.isa, image, functions[j].info, s.rip) ==> j == k
    requires forall i :: 0 <= i < |functions[j].branches| && functions[j].branches[i].address == s.rip ==>
      var kind := functions[j].branches[i].kind; kind != IndirectJump && kind != Return && kind != IndirectCall
    ensures var a, b := trace[n], trace[n + 1];
      Candidate(TrueOf(h.st, a), CounterAt(leaders, trace, n, first), b in leaders)
        in Candidates(cfg.isa, image, h.st, functions, leaders, b, CounterAt(leaders, trace, n + 1, first))
      <==> b in leaders || GoesOn(cfg.isa, image, functions[k].info, a, b)
  {
    StepIsReported(cfg, image, h, functions, j, s);
    FallthroughGoesOn(cfg, image, h, functions, k, trace[n], trace[n + 1]);
    hide Analysed, Maps.MapsOk, Falls, GoesOn, Sources, Candidates, CounterAt, Lawful, Steers, Swept, Step;
    assert trace[n] in Sources(functions, trace[n + 1]) || GoesOn(cfg.isa, image, functions[k].info, trace[n], trace[n + 1]);
    StepIsCandidate(cfg, image, h, functions, leaders, trace, n, first);
  }
}
