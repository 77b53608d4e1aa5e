/** Whole runs through instrumented blocks: the patched program follows the pristine one and its counter counts the blocks. */
module PatchedRuns {
  import opened Words
  import opened Processor
  import Stub = CounterStub
  import opened InstructionSet
  import opened Relocation
  import opened Instrumentation
  import Maps = AddressMaps
  import opened Execution
  import opened Preservation
  import Predecessors
  import Modules = ModuleInstrumentation

  type History = Maps.History

  /**
   From the start of a placed block: its displaced instructions, then some more steps, up to the next block that is placed;
   and the bytes that may differ by then.
   */
  datatype Lap = Lap(site: nat, rest: nat, dead: iset<Word>)

  // ---- states that agree ----------------------------------------------------------------------------------------------------

  /** The 16 bytes below a stack pointer. */
  predicate IsBelow(top: Word, a: Word) {
    Wrap(top - 1 - a) < 16
  }

  ghost function Below(top: Word): iset<Word> {
    iset a: Word | IsBelow(top, a)
  }

  /** Equal but for the counter, the dead bytes and the number of stops. */
  ghost predicate Agree(slot: Word, dead: iset<Word>, s: Cpu, t: Cpu) {
    && t == s.(memory := t.memory, traps := t.traps)
    && forall a: Word :: !InSlot(slot, a) && a !in dead ==> s.memory[a] == t.memory[a]
  }

  lemma AgreeAlike(slot: Word, dead: iset<Word>, s: Cpu, t: Cpu, u: Cpu)
    requires Agree(slot, dead, s, t) && Alike(slot, s.rsp, t, u)
    ensures Agree(slot, dead + Below(s.rsp), s, u)
  {
  }

  /**
   For m steps the pristine program takes the same way whatever the counter and the dead bytes are, and in the end only
   the counter, which it has not set, and the bytes of end can differ for it.
   */
  ghost predicate Quiet(isa: Isa, image: Memory, slot: Word, dead: iset<Word>, s: Cpu, m: nat, end: iset<Word>)
    requires Lawful(isa)
  {
    forall t: Cpu :: Agree(slot, dead, s, t) ==> Follows(isa, image, slot, s, t, m, end)
  }

  ghost predicate Follows(isa: Isa, image: Memory, slot: Word, s: Cpu, t: Cpu, m: nat, end: iset<Word>)
    requires Lawful(isa)
  {
    && (forall k: nat :: k <= m ==> SameWay(isa, image, s, t, k))
    && var s', t' := Run(isa, image, s, m), Run(isa, image, t, m);
    Agree(slot, end, s', t') && Load(t'.memory, slot) == Load(t.memory, slot) && t'.traps + s.traps == s'.traps + t.traps
  }

  ghost predicate SameWay(isa: Isa, image: Memory, s: Cpu, t: Cpu, k: nat)
    requires Lawful(isa)
  {
    Run(isa, image, s, k).rip == Run(isa, image, t, k).rip
  }

  // ---- code that is not patched -----------------------------------------------------------------------------------------------

  ghost predicate Unpatched(cfg: Config, h: History, x: Word) {
    (x < cfg.base || cfg.base + |h.st.code| <= x) && forall i: nat :: i < |h.sites| ==> !InLeader(h.sites[i], x)
  }

  ghost predicate AllUnpatched(cfg: Config, h: History, a: Word, n: nat) {
    forall x: Word :: Wrap(x - a) < n ==> Unpatched(cfg, h, x)
  }

  /** The instruction at an address, and the word it jumps through, hold no patched byte. */
  ghost predicate Clear(cfg: Config, image: Memory, h: History, a: Word) {
    var w := Fetch(image, a, 15);
    && cfg.isa.decode(w).Some?
    && AllUnpatched(cfg, h, a, cfg.isa.decode(w).value.length)
    && match Known(w)
       case Some(Decoded(JumpMemory(disp), _)) => Int32(disp) && AllUnpatched(cfg, h, Wrap(Wrap(a + 6) + disp), 8)
       case _ => true
  }

  lemma SameBytes(cfg: Config, image: Memory, h: History, a: Word, n: nat)
    requires Laid(cfg, image, h) && Separate(cfg, h) && AllUnpatched(cfg, h, a, n) && n <= 15
    ensures Fetch(CommittedImage(cfg, image, h), a, n) == Fetch(image, a, n)
  {
    hide CommittedImage, Laid, Separate;
    var q := CommittedImage(cfg, image, h);
    forall i | 0 <= i < n ensures Fetch(q, a, n)[i] == Fetch(image, a, n)[i] {
      assert Wrap(Wrap(a + i) - a) == i;
      assert Unpatched(cfg, h, Wrap(a + i));
      CommittedBytes(cfg, image, h, Wrap(a + i));
    }
  }

  /** Windows that share an instruction know the same one. */
  lemma SameKnown(isa: Isa, w: seq<Byte>, v: seq<Byte>)
    requires Lawful(isa) && isa.decode(w).Some? && |w| == |v| == 15 && isa.decode(w).value.length <= 15
    requires v[..isa.decode(w).value.length] == w[..isa.decode(w).value.length]
    ensures isa.decode(v) == isa.decode(w) && Known(v) == Known(w)
  {
    DecodeLocal(isa, w, v);
    assert Agrees(isa, w) && Agrees(isa, v);
    hide Lawful, Known;
    if Known(w).Some? {
      KnownPrefix(w, v);
    } else if Known(v).Some? {
      KnownPrefix(v, w);
    }
  }

  /** An instruction without a patched byte does the same in both images. */
  lemma ClearStep(cfg: Config, image: Memory, h: History, s: Cpu)
    requires Lawful(cfg.isa) && Laid(cfg, image, h) && Separate(cfg, h) && Clear(cfg, image, h, s.rip)
    ensures Step(cfg.isa, CommittedImage(cfg, image, h), s) == Step(cfg.isa, image, s)
  {
    hide Lawful, CommittedImage, Laid, Separate, AllUnpatched, Known, Fetch, Execute;
    var q, w := CommittedImage(cfg, image, h), Window(image, s);
    var v := Window(q, s);
    DecodeBounds(cfg.isa, w);
    var n := cfg.isa.decode(w).value.length;
    SameBytes(cfg, image, h, s.rip, n);
    WindowStart(q, s, n);
    WindowStart(image, s, n);
    SameKnown(cfg.isa, w, v);
    if Known(w).Some? {
      ClearKnown(cfg, image, h, s);
    }
  }

  lemma WindowStart(code: Memory, s: Cpu, n: nat)
    requires n <= 15
    ensures Window(code, s)[..n] == Fetch(code, s.rip, n)
  {
  }

  lemma ClearKnown(cfg: Config, image: Memory, h: History, s: Cpu)
    requires Lawful(cfg.isa) && Laid(cfg, image, h) && Separate(cfg, h) && Clear(cfg, image, h, s.rip)
    requires var w := Window(image, s); Known(w).Some? && Known(Window(CommittedImage(cfg, image, h), s)) == Known(w)
    ensures Next(CommittedImage(cfg, image, h), s) == Next(image, s)
  {
    hide Lawful, CommittedImage, Laid, Separate, AllUnpatched, Fetch;
    var q, w := CommittedImage(cfg, image, h), Window(image, s);
    var d := Known(w).value;
    KnownEncodable(w);
    match d.instruction {
      case JumpMemory(disp) =>
        assert d.length == 6;
        SameBytes(cfg, image, h, Wrap(Wrap(s.rip + 6) + disp), 8);
      case _ =>
        PlainNeedsNoCode(q, image, Advance(s, d.length), d.instruction);
    }
  }

  // ---- one lap ------------------------------------------------------------------------------------------------------------------

  /** The number of displaced instructions. */
  ghost function Leads(h: History, lap: Lap): nat {
    if lap.site < |h.sites| then |h.sites[lap.site].forms| else 0
  }

  /** The lap's steps in the pristine program. */
  ghost function LapSteps(h: History, lap: Lap): nat {
    Leads(h, lap) + lap.rest
  }

  /** From the n-th step up to the m-th, nothing patched is executed. */
  ghost predicate ClearRun(cfg: Config, image: Memory, h: History, s: Cpu, n: nat, m: nat)
    requires Lawful(cfg.isa)
  {
    forall k: nat :: n <= k < m ==> Clear(cfg, image, h, Run(cfg.isa, image, s, k).rip)
  }

  /** Unpatched code runs the same in both images. */
  lemma {:induction false} ClearRuns(cfg: Config, image: Memory, h: History, s: Cpu, n: nat, m: nat)
    requires Lawful(cfg.isa) && Laid(cfg, image, h) && Separate(cfg, h) && ClearRun(cfg, image, h, s, n, m) && n <= m
    ensures Run(cfg.isa, CommittedImage(cfg, image, h), Run(cfg.isa, image, s, n), m - n) == Run(cfg.isa, image, s, m)
    decreases m
  {
    hide Lawful, CommittedImage, Laid, Separate, Step, Clear;
    if n < m {
      ClearRuns(cfg, image, h, s, n, m - 1);
      ClearStep(cfg, image, h, Run(cfg.isa, image, s, m - 1));
    }
  }

  /** The patched program's steps for a lap. */
  ghost function PatchedSteps(cfg: Config, image: Memory, h: History, t: Cpu, lap: Lap): nat
    requires InPlace(cfg, image, h, lap.site)
  {
    1 + Stub.StubSteps(StubSite(cfg, image, h, h.sites[lap.site]), t) + Leads(h, lap) + 1 + lap.rest
  }

  /** The stub stops the thread once when the new count has reached the target. */
  ghost predicate Reached(cfg: Config, image: Memory, h: History, t: Cpu, lap: Lap, count: Word)
    requires InPlace(cfg, image, h, lap.site)
  {
    count >= ValueAt(t.memory, Stub.Target(StubSite(cfg, image, h, h.sites[lap.site]), t))
  }

  /** A lap of the patched program: its first block is entered, and from the stubbed state on it meets no patched byte. */
  ghost predicate Passes(cfg: Config, image: Memory, h: History, t: Cpu, lap: Lap)
    requires Lawful(cfg.isa)
  {
    && InPlace(cfg, image, h, lap.site) && Enters(cfg, image, h, lap.site, t)
    && ClearRun(cfg, image, h, Stubbed(cfg, image, h, lap.site, t), Leads(h, lap), LapSteps(h, lap))
  }

  /** A lap of the patched program is exactly the pristine lap from the stubbed state, whatever the program does. */
  lemma LapIsExact(cfg: Config, image: Memory, h: History, t: Cpu, lap: Lap)
    requires Lawful(cfg.isa) && Laid(cfg, image, h) && Separate(cfg, h) && Passes(cfg, image, h, t, lap)
    ensures Run(cfg.isa, CommittedImage(cfg, image, h), t, PatchedSteps(cfg, image, h, t, lap))
         == Run(cfg.isa, image, Stubbed(cfg, image, h, lap.site, t), LapSteps(h, lap))
    ensures OneMore(cfg, image, h, lap.site, t, Stubbed(cfg, image, h, lap.site, t))
  {
    hide Lawful, CommittedImage, Laid, Separate, Step, Run, ClearRun, Enters, OneMore;
    var u := Stubbed(cfg, image, h, lap.site, t);
    BlockIsExact(cfg, image, h, lap.site, t);
    ClearRuns(cfg, image, h, u, Leads(h, lap), LapSteps(h, lap));
    RunSplit(cfg.isa, CommittedImage(cfg, image, h), t, PatchedSteps(cfg, image, h, t, lap) - lap.rest, lap.rest);
  }

  /**
   What is asked of a lap of the pristine program: its displaced instructions can be moved, up to the next placed block it
   executes no patched byte, and neither the counter nor the bytes that may differ, the 16 below RSP among them, change
   its way or anything outside lap.dead at its end.
   */
  ghost predicate LapOk(cfg: Config, image: Memory, h: History, slot: Word, dead: iset<Word>, s: Cpu, lap: Lap)
    requires Lawful(cfg.isa)
  {
    && InPlace(cfg, image, h, lap.site) && Enters(cfg, image, h, lap.site, s) && slot == Wrap(s.gs + cfg.counter)
    && ClearRun(cfg, image, h, s, Leads(h, lap), LapSteps(h, lap))
    && Quiet(cfg.isa, image, slot, dead + Below(s.rsp), s, LapSteps(h, lap), lap.dead)
  }

  /** After a lap the states agree again, one block more is counted, and the thread has stopped once more if due. */
  ghost predicate Counted(cfg: Config, image: Memory, h: History, slot: Word, s: Cpu, t: Cpu, lap: Lap)
    requires Lawful(cfg.isa) && InPlace(cfg, image, h, lap.site)
  {
    var s', t' := Run(cfg.isa, image, s, LapSteps(h, lap)), Run(cfg.isa, CommittedImage(cfg, image, h), t, PatchedSteps(cfg, image, h, t, lap));
    && Agree(slot, lap.dead, s', t')
    && ValueAt(t'.memory, slot) == Stub.Bumped(ValueAt(t.memory, slot))
    && t'.traps + s.traps == s'.traps + t.traps + if Reached(cfg, image, h, t, lap, ValueAt(t'.memory, slot)) then 1 else 0
  }

  lemma EntersAlike(cfg: Config, image: Memory, h: History, slot: Word, dead: iset<Word>, s: Cpu, t: Cpu, i: nat)
    requires InPlace(cfg, image, h, i) && Enters(cfg, image, h, i, s) && Agree(slot, dead, s, t)
    ensures Enters(cfg, image, h, i, t)
    ensures Stub.Counter(StubSite(cfg, image, h, h.sites[i]), t) == Wrap(s.gs + cfg.counter)
  {
    hide AllMovable, Apart, Built;
  }

  lemma LapAgrees(cfg: Config, image: Memory, h: History, slot: Word, dead: iset<Word>, s: Cpu, t: Cpu, lap: Lap)
    requires Lawful(cfg.isa) && Laid(cfg, image, h) && Separate(cfg, h)
    requires LapOk(cfg, image, h, slot, dead, s, lap) && Agree(slot, dead, s, t)
    ensures Counted(cfg, image, h, slot, s, t, lap)
  {
    hide Lawful, CommittedImage, Laid, Separate, Step, Clear, Load, Run, Alike, Below, Enters, Agree, SameWay;
    var u, m := Stubbed(cfg, image, h, lap.site, t), LapSteps(h, lap);
    EntersAlike(cfg, image, h, slot, dead, s, t, lap.site);
    BlockIsExact(cfg, image, h, lap.site, t);
    SameTop(slot, dead, s, t);
    AgreeAlike(slot, dead, s, t, u);
    assert Follows(cfg.isa, image, slot, s, u, m, lap.dead);
    forall k: nat | Leads(h, lap) <= k < m ensures Clear(cfg, image, h, Run(cfg.isa, image, u, k).rip) {
      SameRip(cfg.isa, image, s, u, k);
    }
    LapIsExact(cfg, image, h, t, lap);
  }

  lemma SameTop(slot: Word, dead: iset<Word>, s: Cpu, t: Cpu)
    requires Agree(slot, dead, s, t)
    ensures s.rsp == t.rsp && s.gs == t.gs
  {
  }

  lemma SameRip(isa: Isa, image: Memory, s: Cpu, t: Cpu, k: nat)
    requires Lawful(isa) && SameWay(isa, image, s, t, k)
    ensures Run(isa, image, s, k).rip == Run(isa, image, t, k).rip
  {
  }

  // ---- many laps -----------------------------------------------------------------------------------------------------------------

  /** A run of the pristine program, from block to block; what one lap leaves different may differ for the next. */
  ghost predicate LapsOk(cfg: Config, image: Memory, h: History, slot: Word, dead: iset<Word>, s: Cpu, laps: seq<Lap>)
    requires Lawful(cfg.isa)
    decreases |laps|
  {
    laps == [] ||
    (LapOk(cfg, image, h, slot, dead, s, laps[0])
     && LapsOk(cfg, image, h, slot, laps[0].dead, Run(cfg.isa, image, s, LapSteps(h, laps[0])), laps[1..]))
  }

  /** What may differ after all laps. */
  ghost function EndDead(dead: iset<Word>, laps: seq<Lap>): iset<Word> {
    if laps == [] then dead else laps[|laps| - 1].dead
  }

  ghost function AllSteps(h: History, laps: seq<Lap>): nat {
    if laps == [] then 0 else LapSteps(h, laps[0]) + AllSteps(h, laps[1..])
  }

  /** Block after block the patched program follows the pristine one, and its counter shows the blocks entered. */
  lemma {:induction false} LapsAgree(cfg: Config, image: Memory, h: History, slot: Word, dead: iset<Word>, s: Cpu, t: Cpu, laps: seq<Lap>)
    returns (n: nat)
    requires Lawful(cfg.isa) && Laid(cfg, image, h) && Separate(cfg, h)
    requires LapsOk(cfg, image, h, slot, dead, s, laps) && Agree(slot, dead, s, t)
    ensures var t' := Run(cfg.isa, CommittedImage(cfg, image, h), t, n);
      && Agree(slot, EndDead(dead, laps), Run(cfg.isa, image, s, AllSteps(h, laps)), t')
      && ValueAt(t'.memory, slot) == (ValueAt(t.memory, slot) + |laps|) % WORD
    decreases |laps|
  {
    hide Lawful, CommittedImage, Laid, Separate, Step, Agree, ValueAt, Quiet, ClearRun, Enters, Stub.SiteOk, Built;
    if laps == [] {
      n := 0;
    } else {
      LapAgrees(cfg, image, h, slot, dead, s, t, laps[0]);
      var m, k := LapSteps(h, laps[0]), PatchedSteps(cfg, image, h, t, laps[0]);
      var s1, t1 := Run(cfg.isa, image, s, m), Run(cfg.isa, CommittedImage(cfg, image, h), t, k);
      n := LapsAgree(cfg, image, h, slot, laps[0].dead, s1, t1, laps[1..]);
      RunSplit(cfg.isa, image, s, m, AllSteps(h, laps[1..]));
      RunSplit(cfg.isa, CommittedImage(cfg, image, h), t, k, n);
      n := k + n;
    }
  }

  /** The counting program: the pristine one, but that each lap starts from the stubbed state. */
  ghost predicate AllPass(cfg: Config, image: Memory, h: History, t: Cpu, laps: seq<Lap>)
    requires Lawful(cfg.isa)
    decreases |laps|
  {
    laps == [] || (Passes(cfg, image, h, t, laps[0]) && AllPass(cfg, image, h, AfterLap(cfg, image, h, t, laps[0]), laps[1..]))
  }

  ghost function AfterLap(cfg: Config, image: Memory, h: History, t: Cpu, lap: Lap): Cpu
    requires Lawful(cfg.isa) && InPlace(cfg, image, h, lap.site)
  {
    Run(cfg.isa, image, Stubbed(cfg, image, h, lap.site, t), LapSteps(h, lap))
  }

  ghost function AfterLaps(cfg: Config, image: Memory, h: History, t: Cpu, laps: seq<Lap>): Cpu
    requires Lawful(cfg.isa) && AllPass(cfg, image, h, t, laps)
    decreases |laps|
  {
    if laps == [] then t else AfterLaps(cfg, image, h, AfterLap(cfg, image, h, t, laps[0]), laps[1..])
  }

  /** Whatever the program uses or sets, the patched program is exactly the counting one. */
  lemma {:induction false} LapsAreExact(cfg: Config, image: Memory, h: History, t: Cpu, laps: seq<Lap>) returns (n: nat)
    requires Lawful(cfg.isa) && Laid(cfg, image, h) && Separate(cfg, h) && AllPass(cfg, image, h, t, laps)
    ensures Run(cfg.isa, CommittedImage(cfg, image, h), t, n) == AfterLaps(cfg, image, h, t, laps)
    decreases |laps|
  {
    hide Lawful, CommittedImage, Laid, Separate, Step, Enters, Built, Stub.SiteOk, ClearRun;
    if laps == [] {
      n := 0;
    } else {
      LapIsExact(cfg, image, h, t, laps[0]);
      var k := PatchedSteps(cfg, image, h, t, laps[0]);
      n := LapsAreExact(cfg, image, h, AfterLap(cfg, image, h, t, laps[0]), laps[1..]);
      RunSplit(cfg.isa, CommittedImage(cfg, image, h), t, k, n);
      n := k + n;
    }
  }

  // ---- the counter along the address trace -----------------------------------------------------------------------------------------

  /** The addresses of the instructions that are executed. */
  ghost function Trace(isa: Isa, image: Memory, s: Cpu, n: nat): (a: seq<nat>)
    requires Lawful(isa)
    ensures |a| == n && forall k :: 0 <= k < n ==> a[k] == Run(isa, image, s, k).rip
  {
    seq(n, k requires 0 <= k < n => Run(isa, image, s, k).rip)
  }

  /** A trace may be counted in two pieces. */
  lemma {:induction false} CounterSplit(leaders: set<nat>, trace: seq<nat>, j: nat, i: nat, first: Word)
    requires j <= i < |trace|
    ensures Predecessors.CounterAt(leaders, trace, i, first)
         == Predecessors.CounterAt(leaders, trace[j..], i - j, Predecessors.CounterAt(leaders, trace, j, first))
    decreases i
  {
    if i > j {
      CounterSplit(leaders, trace, j, i - 1, first);
      assert trace[j..][i - j] == trace[i];
    }
  }

  lemma {:induction false} CounterStays(leaders: set<nat>, trace: seq<nat>, i: nat, first: Word)
    requires i < |trace| && forall k :: 0 < k <= i ==> trace[k] !in leaders
    ensures Predecessors.CounterAt(leaders, trace, i, first) == first
  {
    if i > 0 {
      CounterStays(leaders, trace, i - 1, first);
    }
  }

  lemma StartCounts(cfg: Config, image: Memory, h: History, i: nat, leaders: set<nat>)
    requires Laid(cfg, image, h) && i < |h.sites| && Modules.StartsOf(h, leaders)
    ensures h.sites[i].start in leaders && |h.sites[i].forms| > 0 && InLeader(h.sites[i], h.sites[i].start)
  {
    assert Built(cfg, image, h.sites[i]);
  }

  lemma OnlyStart(cfg: Config, image: Memory, h: History, i: nat, leaders: set<nat>, x: nat)
    requires Laid(cfg, image, h) && Separate(cfg, h) && i < |h.sites| && Modules.StartsOf(h, leaders)
    requires InLeader(h.sites[i], x) && x != h.sites[i].start
    ensures x !in leaders
  {
    hide Laid;
    if x in leaders {
      var j :| 0 <= j < |h.sites| && h.sites[j].start == x;
      StartCounts(cfg, image, h, j, leaders);
    }
  }

  lemma ClearIsNoStart(cfg: Config, image: Memory, h: History, leaders: set<nat>, x: Word)
    requires Lawful(cfg.isa) && Laid(cfg, image, h) && Modules.StartsOf(h, leaders) && Clear(cfg, image, h, x)
    ensures x !in leaders
  {
    hide Laid, Lawful;
    DecodeBounds(cfg.isa, Fetch(image, x, 15));
    assert Wrap(x - x) == 0 && Unpatched(cfg, h, x);
    if x in leaders {
      var j :| 0 <= j < |h.sites| && h.sites[j].start == x;
      StartCounts(cfg, image, h, j, leaders);
    }
  }

  lemma TotalGrows(isa: Isa, b: seq<Byte>, forms: seq<Form>, k: nat)
    requires Decodes(isa, b, forms) && 0 < k < |forms|
    ensures 0 < Total(forms[..k]) < Total(forms)
  {
    OffsetIsTotal(forms, k);
    OffsetIsTotal(forms, |forms|);
    assert forms[..|forms|] == forms;
    var p := Maps.Placement(0, forms, [], [], 0);
    Maps.DecodesSized(isa, b, p);
    Maps.OffsetGrows(p, 0, k);
    Maps.OffsetGrows(p, k, |forms|);
  }

  lemma LeaderIsNoStart(cfg: Config, image: Memory, h: History, i: nat, s: Cpu, leaders: set<nat>, k: nat)
    requires Lawful(cfg.isa) && Laid(cfg, image, h) && Separate(cfg, h) && Modules.StartsOf(h, leaders)
    requires InPlace(cfg, image, h, i) && Enters(cfg, image, h, i, s) && 0 < k < |h.sites[i].forms|
    ensures Run(cfg.isa, image, s, k).rip !in leaders
  {
    LeadingLies(image, h.sites[i]);
    PlainRun(cfg.isa, image, s, Leading(image, h.sites[i]), h.sites[i].forms, k);
    TotalGrows(cfg.isa, Leading(image, h.sites[i]), h.sites[i].forms, k);
    hide Lawful, Laid, Separate, Modules.StartsOf, Total, Run;
    OnlyStart(cfg, image, h, i, leaders, Run(cfg.isa, image, s, k).rip);
  }

  /** A lap starts at a counted block and comes by no other start. */
  lemma LapTrace(cfg: Config, image: Memory, h: History, slot: Word, dead: iset<Word>, s: Cpu, lap: Lap, leaders: set<nat>, k: nat)
    requires Lawful(cfg.isa) && Laid(cfg, image, h) && Separate(cfg, h) && Modules.StartsOf(h, leaders)
    requires LapOk(cfg, image, h, slot, dead, s, lap) && k < LapSteps(h, lap)
    ensures Run(cfg.isa, image, s, k).rip in leaders <==> k == 0
  {
    hide Lawful, CommittedImage, Step, Quiet, Laid, Separate, Clear, Modules.StartsOf, Total, Built;
    var n := Leads(h, lap);
    StartCounts(cfg, image, h, lap.site, leaders);
    if 0 < k < n {
      LeaderIsNoStart(cfg, image, h, lap.site, s, leaders, k);
    } else if k >= n {
      ClearIsNoStart(cfg, image, h, leaders, Run(cfg.isa, image, s, k).rip);
    }
  }

  lemma FirstLap(cfg: Config, image: Memory, h: History, slot: Word, dead: iset<Word>, s: Cpu, laps: seq<Lap>)
    requires Lawful(cfg.isa) && Laid(cfg, image, h) && LapsOk(cfg, image, h, slot, dead, s, laps) && laps != []
    ensures LapOk(cfg, image, h, slot, dead, s, laps[0]) && LapSteps(h, laps[0]) > 0
    ensures LapsOk(cfg, image, h, slot, laps[0].dead, Run(cfg.isa, image, s, LapSteps(h, laps[0])), laps[1..])
    ensures AllSteps(h, laps) == LapSteps(h, laps[0]) + AllSteps(h, laps[1..])
  {
    hide Lawful, Quiet, Enters, ClearRun, Stub.SiteOk, Run, StubCode, StubSite;
    assert Built(cfg, image, h.sites[laps[0].site]);
  }

  /** The count along the trace of a run of laps goes up by one with each lap after the first. */
  lemma {:induction false} LapsCount(cfg: Config, image: Memory, h: History, slot: Word, dead: iset<Word>, s: Cpu, laps: seq<Lap>,
                                     leaders: set<nat>, first: Word)
    requires Lawful(cfg.isa) && Laid(cfg, image, h) && Separate(cfg, h) && Modules.StartsOf(h, leaders)
    requires LapsOk(cfg, image, h, slot, dead, s, laps) && laps != []
    ensures var n := AllSteps(h, laps);
      n > 0 && Predecessors.CounterAt(leaders, Trace(cfg.isa, image, s, n), n - 1, first) == (first + |laps| - 1) % WORD
    decreases |laps|
  {
    hide Lawful, CommittedImage, Laid, Separate, Step, Modules.StartsOf, LapsOk, LapOk, LapSteps, Run, Predecessors.CounterAt, Trace;
    FirstLap(cfg, image, h, slot, dead, s, laps);
    var m, n, isa := LapSteps(h, laps[0]), AllSteps(h, laps), cfg.isa;
    var trace, s1 := Trace(isa, image, s, n), Run(isa, image, s, m);
    forall k: nat | k < m ensures trace[k] in leaders <==> k == 0 {
      LapTrace(cfg, image, h, slot, dead, s, laps[0], leaders, k);
    }
    CounterStays(leaders, trace, m - 1, first);
    if |laps| == 1 {
      assert laps[1..] == [] && n == m by { NoMore(h, laps); }
    } else {
      LapsCount(cfg, image, h, slot, laps[0].dead, s1, laps[1..], leaders, Stub.Bumped(first));
      FirstLap(cfg, image, h, slot, laps[0].dead, s1, laps[1..]);
      LapTrace(cfg, image, h, slot, laps[0].dead, s1, laps[1], leaders, 0);
      TraceSplit(isa, image, s, m, n);
      CounterStep(leaders, trace, m, first);
      CounterSplit(leaders, trace, m, n - 1, first);
    }
  }

  lemma NoMore(h: History, laps: seq<Lap>)
    requires |laps| == 1
    ensures laps[1..] == [] && AllSteps(h, laps) == LapSteps(h, laps[0])
  {
    assert AllSteps(h, []) == 0;
  }

  lemma CounterStep(leaders: set<nat>, trace: seq<nat>, m: nat, first: Word)
    requires 0 < m < |trace| && Predecessors.CounterAt(leaders, trace, m - 1, first) == first && trace[m] in leaders
    ensures Predecessors.CounterAt(leaders, trace, m, first) == Stub.Bumped(first)
  {
  }

  lemma TraceSplit(isa: Isa, image: Memory, s: Cpu, m: nat, n: nat)
    requires Lawful(isa) && m < n
    ensures var s1 := Run(isa, image, s, m);
      Trace(isa, image, s, n)[m..] == Trace(isa, image, s1, n - m) && Trace(isa, image, s, n)[m] == Run(isa, image, s1, 0).rip
  {
    hide Lawful, Step;
    forall k: nat | k < n - m ensures Trace(isa, image, s, n)[m..][k] == Trace(isa, image, Run(isa, image, s, m), n - m)[k] {
      RunSplit(isa, image, s, m, k);
    }
  }

  /**
   For every run of the pristine program through placed blocks, started at one of them: from the same state the patched
   program comes to the matching state, and the thread's slot holds exactly the count along the addresses executed.
   */
  lemma PatchedRunCounts(cfg: Config, image: Memory, blocks: seq<Maps.Block>, slot: Word, s: Cpu, laps: seq<Lap>, leaders: set<nat>)
    returns (n: nat)
    requires Lawful(cfg.isa) && Maps.InRange(blocks) && Separate(cfg, Maps.Calls(cfg, image, blocks))
    requires Modules.StartsOf(Maps.Calls(cfg, image, blocks), leaders)
    requires LapsOk(cfg, image, Maps.Calls(cfg, image, blocks), slot, iset{}, s, laps) && laps != []
    ensures var h := Maps.Calls(cfg, image, blocks);
      var k, t := AllSteps(h, laps), Run(cfg.isa, CommittedImage(cfg, image, h), s, n);
      && k > 0 && Agree(slot, EndDead(iset{}, laps), Run(cfg.isa, image, s, k), t)
      && ValueAt(t.memory, slot)
         == Predecessors.CounterAt(leaders, Trace(cfg.isa, image, s, k), k - 1, Stub.Bumped(ValueAt(s.memory, slot)))
  {
    hide Lawful, CommittedImage, Laid, Separate, Step, Modules.StartsOf, LapsOk, Run, Predecessors.CounterAt, Trace, Maps.Calls, ValueAt;
    var h := Maps.Calls(cfg, image, blocks);
    AlwaysLaid(cfg, image, blocks);
    n := LapsAgree(cfg, image, h, slot, iset{}, s, s, laps);
    LapsCount(cfg, image, h, slot, iset{}, s, laps, leaders, Stub.Bumped(ValueAt(s.memory, slot)));
    Wrapped(ValueAt(s.memory, slot), |laps|);
  }

  lemma Wrapped(v: Word, n: nat)
    requires n > 0
    ensures (Stub.Bumped(v) + n - 1) % WORD == (v + n) % WORD
  {
    if v + 1 == WORD {
      assert (v + n) % WORD == (n - 1 + WORD) % WORD == (n - 1) % WORD;
    }
  }
}
