/** A run through two counted blocks that saves a register below the first entry's RSP and takes it back after the second. */
module SpilledRuns {
  import opened Options
  import opened Words
  import opened Processor
  import Stub = CounterStub
  import opened InstructionSet
  import opened Relocation
  import opened Instrumentation
  import Maps = AddressMaps
  import opened Execution
  import opened Preservation
  import opened PatchedRuns

  /** push rax; lahf; sahf; lahf; sahf | lahf; sahf; lahf; sahf; lahf; pop rax. */
  const CODE: seq<Byte> := [0x50, 0x9F, 0x9E, 0x9F, 0x9E, 0x9F, 0x9E, 0x9F, 0x9E, 0x9F, 0x58]

  const START := 0x1000
  const BLOCKS := [Maps.Block(0x1000, 0x1005), Maps.Block(0x1005, 0x100B)]

  const ONE := Form(1, Plain, None, None)

  function Setup(effect: (seq<Byte>, Word, Cpu) -> Cpu): Config {
    Config(Isa(KnownForm, effect), 0x10000, 0x1480, 0x1488)
  }

  function Image(): (image: Memory)
    ensures forall i :: 0 <= i < |CODE| ==> image[START + i] == CODE[i]
  {
    var image := seq<Byte>(WORD, x requires 0 <= x < WORD => if START <= x < START + |CODE| then CODE[x - START] else 0);
    image
  }

  // ---- the two blocks are placed ------------------------------------------------------------------------------------------

  predicate Simple(b: Byte) {
    b == 0x50 || b == 0x58 || b == 0x9F || b == 0x9E
  }

  function Ones(n: nat): (forms: seq<Form>)
    ensures |forms| == n && forall i :: 0 <= i < n ==> forms[i] == ONE
  {
    if n == 0 then [] else [ONE] + Ones(n - 1)
  }

  lemma {:induction false} TotalOnes(n: nat)
    ensures Total(Ones(n)) == n
  {
    if n > 0 {
      TotalOnes(n - 1);
    }
  }

  lemma {:induction false} GrowOnes(isa: Isa, buf: seq<Byte>, size: nat, at: nat)
    requires isa.decode == KnownForm && 5 <= |buf| <= size && at <= 5 && forall i :: 0 <= i < |buf| ==> Simple(buf[i])
    ensures Grow(isa, buf, size, at) == Leader(Ones(5 - at))
    decreases 5 - at
  {
    if at < 5 {
      assert KnownForm(buf[at..]) == Some(ONE);
      GrowOnes(isa, buf, size, at + 1);
    }
  }

  lemma {:induction false} MovedOnes(b: seq<Byte>, n: nat, from: nat, to: nat)
    requires n <= |b|
    ensures Total(Ones(n)) == n && MovedAll(b, Ones(n), from, to) == Some(b[..n])
  {
    TotalOnes(n);
    if n > 0 {
      MovedOnes(b[1..], n - 1, from + 1, to + 1);
      assert b[..1] + b[1..][..n - 1] == b[..n];
    }
  }

  lemma BlockIsPlaced(effect: (seq<Byte>, Word, Cpu) -> Cpu, mark: nat, b: Maps.Block)
    requires b in BLOCKS && mark < 0x1000
    ensures Lawful(Setup(effect).isa)
    ensures var o := Attempt(Setup(effect), mark, Image(), b.start, b.end); o.Done? && o.forms == Ones(5)
  {
    KnownAloneIsLawful(effect);
    hide Lawful, KnownForm, Stub.TlsIncrement;
    var cfg, buf := Setup(effect), Head(Image(), b.start, b.end);
    forall i | 0 <= i < |buf| ensures Simple(buf[i]) {
      assert buf[i] == CODE[b.start - START + i];
    }
    GrowOnes(cfg.isa, buf, b.end - b.start, 0);
    MovedOnes(buf, 5, b.start, cfg.base + mark + Stub.STUB_LENGTH);
  }

  /** Both blocks get a stub, and everything the results ask of the placements holds. */
  lemma BothPlaced(effect: (seq<Byte>, Word, Cpu) -> Cpu)
    ensures Lawful(Setup(effect).isa) && Maps.InRange(BLOCKS)
    ensures var cfg := Setup(effect); var h := Maps.Calls(cfg, Image(), BLOCKS);
      && |h.sites| == 2 && h.sites[0].start == START && h.sites[1].start == START + 5
      && h.sites[0].forms == Ones(5) && h.sites[1].forms == Ones(5)
      && Separate(cfg, h) && Laid(cfg, Image(), h)
  {
    var cfg := Setup(effect);
    KnownAloneIsLawful(effect);
    hide Lawful, Attempt, Image, Stub.TlsIncrement, AbsoluteJump, StubOriginals, StubFixes, DisplacedOriginals, DisplacedRemap, MovedAll, Detour;
    var one, two := BLOCKS[0], BLOCKS[1];
    assert BLOCKS[..1] == [one] && [one][..0] == [];
    var h0 := Maps.Calls(cfg, Image(), []);
    BlockIsPlaced(effect, 0, one);
    var h1 := Maps.Calls(cfg, Image(), [one]);
    assert h1 == Maps.Extend(cfg, h0, Image(), one);
    var p := Maps.DonePlacement(cfg, 0, Image(), one);
    TotalOnes(5);
    BlockIsPlaced(effect, |h1.st.code|, two);
    var q := Maps.DonePlacement(cfg, |h1.st.code|, Image(), two);
    AlwaysLaid(cfg, Image(), BLOCKS);
  }

  // ---- one instruction ---------------------------------------------------------------------------------------------------------

  /** The eight bytes of a word. */
  ghost function WordAt(a: Word): iset<Word> {
    iset x: Word | InSlot(a, x)
  }

  lemma StepIs(isa: Isa, s: Cpu, off: nat)
    requires Lawful(isa) && off < |CODE| && s.rip == START + off
    ensures var s' := s.(rip := s.rip + 1);
      Step(isa, Image(), s) == Execute(Image(), s', if CODE[off] == 0x50 then PushRax else if CODE[off] == 0x58 then PopRax
                                                    else if CODE[off] == 0x9F then Lahf else Sahf)
  {
    hide Lawful;
    assert Window(Image(), s)[0] == Image()[START + off] == CODE[off];
  }

  /** Two runs of the code after k steps. */
  ghost predicate Stage(isa: Isa, slot: Word, dead: iset<Word>, s: Cpu, t: Cpu, k: nat, rsp: Word)
    requires Lawful(isa)
  {
    var s', t' := Run(isa, Image(), s, k), Run(isa, Image(), t, k);
    && Agree(slot, dead, s', t') && s'.rip == s.rip + k && s'.rsp == rsp && s'.gs == s.gs
    && Load(t'.memory, slot) == Load(t.memory, slot) && t'.traps + s.traps == s'.traps + t.traps
  }

  lemma StageStarts(isa: Isa, slot: Word, dead: iset<Word>, s: Cpu, t: Cpu)
    requires Lawful(isa) && Agree(slot, dead, s, t)
    ensures Stage(isa, slot, dead, s, t, 0, s.rsp)
  {
  }

  lemma FlagStep(isa: Isa, slot: Word, dead: iset<Word>, s: Cpu, t: Cpu, k: nat, rsp: Word)
    requires Lawful(isa) && Stage(isa, slot, dead, s, t, k, rsp) && START <= s.rip && s.rip + k < START + |CODE|
    requires CODE[s.rip + k - START] == 0x9F || CODE[s.rip + k - START] == 0x9E
    ensures Stage(isa, slot, dead, s, t, k + 1, rsp)
  {
    hide Lawful, Step;
    StepIs(isa, Run(isa, Image(), s, k), s.rip + k - START);
    StepIs(isa, Run(isa, Image(), t, k), s.rip + k - START);
  }

  /** A pushed word is the same again. */
  lemma PushStep(isa: Isa, slot: Word, dead: iset<Word>, s: Cpu, t: Cpu, k: nat, rsp: Word)
    requires Lawful(isa) && Stage(isa, slot, dead, s, t, k, rsp) && START <= s.rip && s.rip + k < START + |CODE|
    requires CODE[s.rip + k - START] == 0x50 && Apart(Wrap(rsp - 8), slot)
    ensures Stage(isa, slot, dead - WordAt(Wrap(rsp - 8)), s, t, k + 1, Wrap(rsp - 8))
  {
    hide Lawful, Step, Store, Load;
    var s', t' := Run(isa, Image(), s, k), Run(isa, Image(), t, k);
    StepIs(isa, s', s.rip + k - START);
    StepIs(isa, t', s.rip + k - START);
    LoadApart(t'.memory, Wrap(rsp - 8), t'.rax, slot);
    forall a: Word | !InSlot(slot, a) && a !in dead - WordAt(Wrap(rsp - 8))
      ensures Store(s'.memory, Wrap(rsp - 8), s'.rax)[a] == Store(t'.memory, Wrap(rsp - 8), t'.rax)[a]
    {
      StoreAt(s'.memory, Wrap(rsp - 8), s'.rax, a);
      StoreAt(t'.memory, Wrap(rsp - 8), t'.rax, a);
    }
  }

  /** A word is taken back alike when it is not dead. */
  lemma PopStep(isa: Isa, slot: Word, dead: iset<Word>, s: Cpu, t: Cpu, k: nat, rsp: Word)
    requires Lawful(isa) && Stage(isa, slot, dead, s, t, k, rsp) && START <= s.rip && s.rip + k < START + |CODE|
    requires CODE[s.rip + k - START] == 0x58 && dead !! WordAt(rsp) && Apart(rsp, slot)
    ensures Stage(isa, slot, dead, s, t, k + 1, Wrap(rsp + 8))
  {
    hide Lawful, Step, Load;
    var s', t' := Run(isa, Image(), s, k), Run(isa, Image(), t, k);
    StepIs(isa, s', s.rip + k - START);
    StepIs(isa, t', s.rip + k - START);
    forall a: Word | InSlot(rsp, a) ensures s'.memory[a] == t'.memory[a] {
      assert a in WordAt(rsp);
    }
    SameLoad(s'.memory, t'.memory, rsp);
  }

  // ---- the two laps ------------------------------------------------------------------------------------------------------------

  lemma {:induction false} SimpleMoves(isa: Isa, b: seq<Byte>, n: nat, from: Word)
    requires n <= |b| && from + n < WORD && forall i :: 0 <= i < |b| ==> Simple(b[i])
    ensures Total(Ones(n)) == n && AllMovable(isa, Acts(b, Ones(n), from))
  {
    hide Movable;
    TotalOnes(n);
    if n > 0 {
      SimpleMoves(isa, b[1..], n - 1, from + 1);
      var acts := Acts(b, Ones(n), from);
      assert acts == [Act(b[..1], 0)] + Acts(b[1..], Ones(n - 1), from + 1);
      SimpleMovable(isa, b[..1]);
    }
  }

  lemma SimpleMovable(isa: Isa, z: seq<Byte>)
    requires |z| == 1 && Simple(z[0])
    ensures Movable(isa, Act(z, 0))
  {
    var i := if z[0] == 0x50 then PushRax else if z[0] == 0x58 then PopRax else if z[0] == 0x9F then Lahf else Sahf;
    assert Known(z) == Some(Decoded(i, 1));
    hide Execute, Known;
    forall s: Cpu, x: Word ensures Effect(isa, z, 0, s.(rip := x)) == Effect(isa, z, 0, s).(rip := x) {
      PlaceIndependent(s, x, i);
    }
  }

  lemma PlaceIndependent(s: Cpu, x: Word, i: Instruction)
    requires i.PushRax? || i.PopRax? || i.Lahf? || i.Sahf?
    ensures Execute(s.memory, s.(rip := x), i) == Execute(s.memory, s, i).(rip := x)
  {
    hide Store, Load, FlagByte, FromByte;
  }

  /** The three words below RSP and the thread's slots do not overlap. */
  ghost predicate Roomy(cfg: Config, s: Cpu)
    requires cfg.counter < 0x8000_0000 && cfg.target < 0x8000_0000
  {
    var counter, target := Wrap(s.gs + cfg.counter), Wrap(s.gs + cfg.target);
    && Apart(counter, target)
    && Away(Wrap(s.rsp - 8), counter, target) && Away(Wrap(s.rsp - 16), counter, target) && Away(Wrap(s.rsp - 24), counter, target)
  }

  predicate Away(a: Word, counter: Word, target: Word) {
    Apart(a, counter) && Apart(a, target)
  }

  predicate FlagAt(off: int) {
    0 <= off < |CODE| && (CODE[off] == 0x9F || CODE[off] == 0x9E)
  }

  lemma {:induction false} FlagSteps(isa: Isa, slot: Word, dead: iset<Word>, s: Cpu, t: Cpu, from: nat, k: nat, rsp: Word)
    requires Lawful(isa) && Stage(isa, slot, dead, s, t, from, rsp) && from <= k && START <= s.rip && s.rip + k <= START + |CODE|
    requires forall off :: s.rip + from - START <= off < s.rip + k - START ==> FlagAt(off)
    ensures Stage(isa, slot, dead, s, t, k, rsp)
    decreases k
  {
    hide Lawful, Stage;
    if from < k {
      assert FlagAt(s.rip + k - 1 - START);
      FlagSteps(isa, slot, dead, s, t, from, k - 1, rsp);
      FlagStep(isa, slot, dead, s, t, k - 1, rsp);
    }
  }

  /** What may differ after the first lap and after the second. */
  ghost function First(rsp: Word): iset<Word> {
    Below(rsp) - WordAt(Wrap(rsp - 8))
  }

  ghost function Second(rsp: Word): iset<Word> {
    First(rsp) + Below(Wrap(rsp - 8))
  }

  lemma FirstLapStage(isa: Isa, slot: Word, s: Cpu, t: Cpu, k: nat)
    requires Lawful(isa) && s.rip == START && Agree(slot, Below(s.rsp), s, t) && Apart(Wrap(s.rsp - 8), slot) && 0 < k <= 5
    ensures Stage(isa, slot, First(s.rsp), s, t, k, Wrap(s.rsp - 8))
  {
    hide Lawful, Stage, Below, WordAt;
    StageStarts(isa, slot, Below(s.rsp), s, t);
    PushStep(isa, slot, Below(s.rsp), s, t, 0, s.rsp);
    FlagSteps(isa, slot, First(s.rsp), s, t, 1, k, Wrap(s.rsp - 8));
  }

  /** The saved word is neither below the second entry's RSP nor among what the first lap leaves dead. */
  lemma SavedIsKept(rsp: Word)
    ensures Second(rsp) !! WordAt(Wrap(rsp - 8))
  {
  }

  lemma SecondLapStage(isa: Isa, slot: Word, rsp: Word, s: Cpu, t: Cpu, k: nat)
    requires Lawful(isa) && s.rip == START + 5 && s.rsp == Wrap(rsp - 8) && Apart(s.rsp, slot) && k <= 6
    requires Agree(slot, Second(rsp), s, t)
    ensures Stage(isa, slot, Second(rsp), s, t, k, if k == 6 then Wrap(s.rsp + 8) else s.rsp)
  {
    hide Lawful, Stage, Second, WordAt;
    StageStarts(isa, slot, Second(rsp), s, t);
    FlagSteps(isa, slot, Second(rsp), s, t, 0, if k == 6 then 5 else k, s.rsp);
    if k == 6 {
      SavedIsKept(rsp);
      PopStep(isa, slot, Second(rsp), s, t, 5, s.rsp);
    }
  }

  lemma StagesFollow(isa: Isa, slot: Word, s: Cpu, t: Cpu, m: nat, end: iset<Word>, rsp: Word)
    requires Lawful(isa) && Stage(isa, slot, end, s, t, m, rsp)
    requires forall k: nat :: k < m ==> SameWay(isa, Image(), s, t, k)
    ensures Follows(isa, Image(), slot, s, t, m, end)
  {
    hide Lawful, Run;
  }

  lemma StageSame(isa: Isa, slot: Word, dead: iset<Word>, s: Cpu, t: Cpu, k: nat, rsp: Word)
    requires Lawful(isa) && Stage(isa, slot, dead, s, t, k, rsp)
    ensures SameWay(isa, Image(), s, t, k)
  {
    hide Lawful, Run;
  }

  lemma FirstQuiet(isa: Isa, slot: Word, s: Cpu)
    requires Lawful(isa) && s.rip == START && Apart(Wrap(s.rsp - 8), slot)
    ensures Quiet(isa, Image(), slot, iset{} + Below(s.rsp), s, 5, First(s.rsp))
  {
    hide Lawful, Stage, Follows, SameWay, Agree, First, Below;
    assert iset{} + Below(s.rsp) == Below(s.rsp);
    forall t: Cpu | Agree(slot, Below(s.rsp), s, t) ensures Follows(isa, Image(), slot, s, t, 5, First(s.rsp)) {
      forall k: nat | k < 5 ensures SameWay(isa, Image(), s, t, k) {
        if k == 0 {
          StageStarts(isa, slot, Below(s.rsp), s, t);
          StageSame(isa, slot, Below(s.rsp), s, t, 0, s.rsp);
        } else {
          FirstLapStage(isa, slot, s, t, k);
          StageSame(isa, slot, First(s.rsp), s, t, k, Wrap(s.rsp - 8));
        }
      }
      FirstLapStage(isa, slot, s, t, 5);
      StagesFollow(isa, slot, s, t, 5, First(s.rsp), Wrap(s.rsp - 8));
    }
  }

  lemma SecondQuiet(isa: Isa, slot: Word, rsp: Word, s: Cpu)
    requires Lawful(isa) && s.rip == START + 5 && s.rsp == Wrap(rsp - 8) && Apart(s.rsp, slot)
    ensures Quiet(isa, Image(), slot, First(rsp) + Below(s.rsp), s, 6, Second(rsp))
  {
    assert First(rsp) + Below(s.rsp) == Second(rsp);
    hide Lawful, Stage, Follows, SameWay, Agree, First, Second, Below;
    forall t: Cpu | Agree(slot, Second(rsp), s, t) ensures Follows(isa, Image(), slot, s, t, 6, Second(rsp)) {
      forall k: nat | k < 6 ensures SameWay(isa, Image(), s, t, k) {
        SecondLapStage(isa, slot, rsp, s, t, k);
        StageSame(isa, slot, Second(rsp), s, t, k, s.rsp);
      }
      SecondLapStage(isa, slot, rsp, s, t, 6);
      StagesFollow(isa, slot, s, t, 6, Second(rsp), Wrap(s.rsp + 8));
    }
  }

  /** Where the second lap starts. */
  lemma AfterFirst(isa: Isa, slot: Word, s: Cpu)
    requires Lawful(isa) && s.rip == START && Apart(Wrap(s.rsp - 8), slot)
    ensures var s1 := Run(isa, Image(), s, 5); s1.rip == START + 5 && s1.rsp == Wrap(s.rsp - 8) && s1.gs == s.gs
  {
    hide Lawful, Run;
    assert Agree(slot, Below(s.rsp), s, s);
    FirstLapStage(isa, slot, s, s, 5);
  }

  lemma LeadingIsSimple(p: Maps.Placement, i: nat)
    requires p.forms == Ones(5) && i <= 1 && p.start == START + 5 * i
    ensures Total(p.forms) == 5 && |Leading(Image(), p)| == 5 && forall k :: 0 <= k < 5 ==> Simple(Leading(Image(), p)[k])
  {
    TotalOnes(5);
    forall k | 0 <= k < 5 ensures Simple(Leading(Image(), p)[k]) {
      assert Leading(Image(), p)[k] == Image()[START + (5 * i + k)];
    }
  }

  lemma EntersSite(cfg: Config, h: Maps.History, i: nat, s: Cpu)
    requires InPlace(cfg, Image(), h, i) && h.sites[i].forms == Ones(5) && s.rip == h.sites[i].start && i <= 1 && s.rip == START + 5 * i
    requires Stub.SlotsApart(StubSite(cfg, Image(), h, h.sites[i]), s)
    ensures Enters(cfg, Image(), h, i, s)
  {
    hide AllMovable, Acts, Stub.SiteOk, Stub.SlotsApart, StubCode, StubSite, Image, Leading, Simple, Total, Decodes, MovedAll, Detour;
    LeadingIsSimple(h.sites[i], i);
    SimpleMoves(cfg.isa, Leading(Image(), h.sites[i]), 5, s.rip);
  }

  /** The last instruction is not patched. */
  lemma PopIsClear(cfg: Config, h: Maps.History)
    requires cfg.isa.decode == KnownForm && cfg.base == 0x10000 && |h.sites| == 2
    requires h.sites[0].start == START && h.sites[1].start == START + 5 && h.sites[0].forms == Ones(5) && h.sites[1].forms == Ones(5)
    ensures Clear(cfg, Image(), h, START + 10)
  {
    TotalOnes(5);
    var w := Fetch(Image(), START + 10, 15);
    assert w[0] == CODE[10];
    assert KnownForm(w) == Some(ONE);
  }

  lemma RoomyApart(cfg: Config, h: Maps.History, i: nat, s: Cpu, t: Cpu)
    requires InPlace(cfg, Image(), h, i) && cfg.counter < 0x8000_0000 && cfg.target < 0x8000_0000 && Roomy(cfg, s)
    requires t.gs == s.gs && (t.rsp == s.rsp || t.rsp == Wrap(s.rsp - 8))
    ensures Stub.SlotsApart(StubSite(cfg, Image(), h, h.sites[i]), t)
    ensures Apart(Wrap(s.rsp - 8), Wrap(s.gs + cfg.counter))
  {
    hide Apart, Built, StubCode;
    assert Wrap(Wrap(s.rsp - 8) - 8) == Wrap(s.rsp - 16) && Wrap(Wrap(s.rsp - 8) - 16) == Wrap(s.rsp - 24);
  }

  lemma OneLap(cfg: Config, h: Maps.History, slot: Word, dead: iset<Word>, s: Cpu, lap: Lap)
    requires Lawful(cfg.isa) && InPlace(cfg, Image(), h, lap.site) && Enters(cfg, Image(), h, lap.site, s)
    requires slot == Wrap(s.gs + cfg.counter) && h.sites[lap.site].forms == Ones(5) && lap.rest <= 1
    requires Quiet(cfg.isa, Image(), slot, dead + Below(s.rsp), s, 5 + lap.rest, lap.dead)
    requires lap.rest == 1 ==> Clear(cfg, Image(), h, Run(cfg.isa, Image(), s, 5).rip)
    ensures LapOk(cfg, Image(), h, slot, dead, s, lap) && LapSteps(h, lap) == 5 + lap.rest
  {
    hide Lawful, Enters, Quiet, Clear, Run, Built, StubCode, Stub.SiteOk;
  }

  lemma TwoLaps(cfg: Config, h: Maps.History, slot: Word, s: Cpu, one: Lap, two: Lap)
    requires Lawful(cfg.isa) && LapOk(cfg, Image(), h, slot, iset{}, s, one)
    requires LapOk(cfg, Image(), h, slot, one.dead, Run(cfg.isa, Image(), s, LapSteps(h, one)), two)
    ensures LapsOk(cfg, Image(), h, slot, iset{}, s, [one, two])
  {
    hide Lawful, LapOk, Run, LapSteps;
    var s1 := Run(cfg.isa, Image(), s, LapSteps(h, one));
    assert [one, two][1..] == [two] && [two][1..] == [];
    assert LapsOk(cfg, Image(), h, slot, two.dead, Run(cfg.isa, Image(), s1, LapSteps(h, two)), []);
    assert LapsOk(cfg, Image(), h, slot, one.dead, s1, [two]);
  }

  /** The run meets what the results on runs ask, whatever the other registers and all of memory hold. */
  lemma SpillIsCovered(effect: (seq<Byte>, Word, Cpu) -> Cpu, s: Cpu)
    requires s.rip == START && Roomy(Setup(effect), s)
    ensures Lawful(Setup(effect).isa) && Maps.InRange(BLOCKS)
    ensures var cfg := Setup(effect);
      var laps := [Lap(0, 0, First(s.rsp)), Lap(1, 1, Second(s.rsp))];
      LapsOk(cfg, Image(), Maps.Calls(cfg, Image(), BLOCKS), Wrap(s.gs + cfg.counter), iset{}, s, laps)
  {
    hide Lawful, Laid, Separate, LapsOk, Roomy, First, Second, Maps.Calls;
    var cfg := Setup(effect);
    BothPlaced(effect);
    PlacedLaps(cfg, Maps.Calls(cfg, Image(), BLOCKS), Wrap(s.gs + cfg.counter), s);
  }

  lemma PlacedLaps(cfg: Config, h: Maps.History, slot: Word, s: Cpu)
    requires Lawful(cfg.isa) && cfg == Setup(cfg.isa.effect) && s.rip == START && Roomy(cfg, s) && slot == Wrap(s.gs + cfg.counter)
    requires |h.sites| == 2 && Laid(cfg, Image(), h) && Separate(cfg, h)
    requires h.sites[0].start == START && h.sites[1].start == START + 5 && h.sites[0].forms == Ones(5) && h.sites[1].forms == Ones(5)
    ensures LapsOk(cfg, Image(), h, slot, iset{}, s, [Lap(0, 0, First(s.rsp)), Lap(1, 1, Second(s.rsp))])
  {
    hide Lawful, Laid, Separate, LapsOk, Roomy, First, Second, Stub.SiteOk, Built, CommittedImage;
    SiteReady(cfg, Image(), h, 0);
    SiteReady(cfg, Image(), h, 1);
    BothLaps(cfg, h, slot, s);
  }

  lemma BothLaps(cfg: Config, h: Maps.History, slot: Word, s: Cpu)
    requires Lawful(cfg.isa) && cfg == Setup(cfg.isa.effect) && s.rip == START && Roomy(cfg, s) && slot == Wrap(s.gs + cfg.counter)
    requires |h.sites| == 2 && InPlace(cfg, Image(), h, 0) && InPlace(cfg, Image(), h, 1)
    requires h.sites[0].start == START && h.sites[1].start == START + 5 && h.sites[0].forms == Ones(5) && h.sites[1].forms == Ones(5)
    ensures LapsOk(cfg, Image(), h, slot, iset{}, s, [Lap(0, 0, First(s.rsp)), Lap(1, 1, Second(s.rsp))])
  {
    hide Lawful, InPlace, Quiet, Clear, Run, First, Second, Below, LapOk, LapsOk, Enters, Roomy, LapSteps, Apart, KnownForm;
    var s1 := Run(cfg.isa, Image(), s, 5);
    RoomyApart(cfg, h, 0, s, s);
    AfterFirst(cfg.isa, slot, s);
    RoomyApart(cfg, h, 1, s, s1);
    FirstQuiet(cfg.isa, slot, s);
    SecondQuiet(cfg.isa, slot, s.rsp, s1);
    EntersSite(cfg, h, 0, s);
    EntersSite(cfg, h, 1, s1);
    SecondRip(cfg.isa, slot, s.rsp, s1);
    PopIsClear(cfg, h);
    OneLap(cfg, h, slot, iset{}, s, Lap(0, 0, First(s.rsp)));
    OneLap(cfg, h, slot, First(s.rsp), s1, Lap(1, 1, Second(s.rsp)));
    TwoLaps(cfg, h, slot, s, Lap(0, 0, First(s.rsp)), Lap(1, 1, Second(s.rsp)));
  }

  lemma SecondRip(isa: Isa, slot: Word, rsp: Word, s: Cpu)
    requires Lawful(isa) && s.rip == START + 5 && s.rsp == Wrap(rsp - 8) && Apart(s.rsp, slot)
    ensures Run(isa, Image(), s, 5).rip == START + 10
  {
    hide Lawful, Run, Second;
    assert Agree(slot, Second(rsp), s, s);
    SecondLapStage(isa, slot, rsp, s, s, 5);
  }
}
