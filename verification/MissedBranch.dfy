/** A jump to a block too small to be counted: a step into the block whose source is no candidate. */
module MissedBranches {
  import opened Options
  import opened Words
  import opened Processor
  import opened InstructionSet
  import opened Relocation
  import opened Instrumentation
  import opened Analysis
  import opened Blocks
  import Maps = AddressMaps
  import opened Execution
  import opened Predecessors
  import Modules = ModuleInstrumentation

  /** jmp 0x1005; pop rax. */
  const CODE: seq<Byte> := [0xE9, 0, 0, 0, 0, 0x58]

  const FN := FunctionRange(0x1000, 0x1006)
  const BLOCKS := [Maps.Block(0x1000, 0x1005), Maps.Block(0x1005, 0x1006)]
  const JUMP := BranchSite(0x1000, 0x1005, 0x1005, UnconditionalJmp, false)

  function Setup(effect: (seq<Byte>, Word, Cpu) -> Cpu): Config {
    Config(Isa(KnownForm, effect), 0x10000, 0x1480, 0x1488)
  }

  function Image(): (image: Memory)
    ensures Fetch(image, 0x1000, 6) == CODE
  {
    var image := seq<Byte>(WORD, x requires 0 <= x < WORD => if 0x1000 <= x < 0x1006 then CODE[x - 0x1000] else 0);
    image
  }

  lemma Decoded(b: seq<Byte>)
    ensures |b| >= 5 && b[..5] == CODE[..5] ==> KnownForm(b) == Some(Form(5, UnconditionalBranch, None, Some(0)))
    ensures |b| >= 1 && b[0] == 0x58 ==> KnownForm(b) == Some(Form(1, Plain, None, None))
  {
    if |b| >= 5 && b[..5] == CODE[..5] {
      assert Encode32(0) == [0, 0, 0, 0] by {
        assert Encode(4, 0) == [0] + Encode(3, 0) == [0, 0] + Encode(2, 0) == [0, 0, 0] + Encode(1, 0) == [0, 0, 0, 0] + Encode(0, 0);
      }
      Encode32RoundTrip(0);
      assert b[1..5] == b[..5][1..5] == [0, 0, 0, 0];
      assert b[0] == b[..5][0];
    }
  }

  /** The sweep finds the jump and nothing else. */
  lemma Sites(isa: Isa)
    requires isa.decode == KnownForm
    ensures At(isa, CODE, 0) == Some(Form(5, UnconditionalBranch, None, Some(0)))
    ensures Branches(isa, CODE, 0x1000, 0) == [JUMP]
  {
    Decoded(CODE[0..]);
    Decoded(CODE[5..]);
    assert At(isa, CODE, 6) == None;
    assert Branches(isa, CODE, 0x1000, 6) == [];
    assert Branches(isa, CODE, 0x1000, 5) == [];
  }

  /** Neither block gets a stub: one starts with a jump, the other has a single byte. */
  lemma NothingPlaced(effect: (seq<Byte>, Word, Cpu) -> Cpu)
    ensures Lawful(Setup(effect).isa) && Maps.InRange(BLOCKS)
    ensures Maps.Calls(Setup(effect), Image(), BLOCKS) == Maps.History(Maps.EMPTY.(skipped := [0x1000]), [])
  {
    KnownAloneIsLawful(effect);
    hide Lawful;
    var cfg, image := Setup(effect), Image();
    var one, two := BLOCKS[0], BLOCKS[1];
    assert BLOCKS[..1] == [one] && [one][..0] == [];
    var head, small := Head(image, one.start, one.end), Head(image, two.start, two.end);
    assert head == CODE[..5] && small == [0x58];
    Decoded(head[0..]);
    Decoded(small[0..]);
    assert Grow(cfg.isa, head, 5, 0) == Terminator;
    assert Grow(cfg.isa, small, 1, 1) == TooSmall;
    assert Maps.Calls(cfg, image, []) == Maps.History(Maps.EMPTY, []);
    assert Maps.Calls(cfg, image, [one]) == Maps.History(Maps.EMPTY.(skipped := [0x1000]), []);
  }

  lemma NothingIsReady(cfg: Config, image: Memory, h: Maps.History, fn: FunctionRange)
    requires Lawful(cfg.isa) && h.sites == [] && h.st == Maps.EMPTY.(skipped := h.st.skipped)
    requires 0 < cfg.base < WORD && cfg.counter < 0x8000_0000 && cfg.target < 0x8000_0000 && 0 < fn.start < fn.end <= cfg.base
    ensures Ready(cfg, image, h, fn) && Maps.MapsOk(cfg, h) && Modules.StartsOf(h, {})
  {
    hide Lawful;
  }

  lemma BlocksTile()
    ensures Tiles(FN, [JUMP], BLOCKS)
  {
    assert LedBy(FN, [JUMP][0], 0x1005);
    assert BLOCKS[0].start == 0x1000 && BLOCKS[1].start == 0x1005;
  }

  lemma NoCandidate(isa: Isa, st: Staged, counter: Word)
    requires isa.decode == KnownForm
    ensures var functions := [FunctionAnalysis(FN, [JUMP])];
      Sources(functions, 0x1005) == [0x1000] && Candidates(isa, Image(), st, functions, {}, 0x1005, counter) == []
  {
    Sites(isa);
    hide At, KnownForm;
    assert Body(Image(), FN) == CODE;
    var functions := [FunctionAnalysis(FN, [JUMP])];
    assert functions[..|functions| - 1] == [] && [JUMP][..|[JUMP]| - 1] == [];
    assert Sources([], 0x1005) == [] && SourcesIn([], 0x1005) == [];
    assert SourcesIn([JUMP], 0x1005) == [0x1000];
    assert Before(isa, CODE, 0, 5) == Some(0);
  }

  /** Everything the results ask holds, 0x1000 jumps to 0x1005, and no candidate for 0x1005 is named. */
  lemma JumpIsMissed(effect: (seq<Byte>, Word, Cpu) -> Cpu, counter: Word) returns (h: Maps.History, functions: seq<FunctionAnalysis>)
    ensures var cfg := Setup(effect);
      && Lawful(cfg.isa) && Maps.InRange(BLOCKS) && h == Maps.Calls(cfg, Image(), BLOCKS)
      && Tiles(FN, SitesOf(cfg.isa, Image(), FN), BLOCKS) && Modules.StartsOf(h, {})
      && Analysed(cfg, Image(), h, functions) && Maps.MapsOk(cfg, h)
      && 0x1000 in Sources(functions, 0x1005)
      && Candidates(cfg.isa, Image(), h.st, functions, {}, 0x1005, counter) == []
  {
    hide Lawful, Ready, Maps.Calls, Maps.MapsOk, Tiles, Sources, Candidates, Branches, Modules.StartsOf, KnownForm;
    var cfg := Setup(effect);
    NothingPlaced(effect);
    h := Maps.Calls(cfg, Image(), BLOCKS);
    functions := [FunctionAnalysis(FN, [JUMP])];
    assert Body(Image(), FN) == CODE;
    Sites(cfg.isa);
    NothingIsReady(cfg, Image(), h, FN);
    BlocksTile();
    NoCandidate(cfg.isa, h.st, counter);
  }
}
