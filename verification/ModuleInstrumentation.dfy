/** Instrumenting every block of every function of a module. */
module ModuleInstrumentation {
  import opened Words
  import opened Processor
  import opened InstructionSet
  import opened Relocation
  import opened Instrumentation
  import opened Analysis
  import opened Blocks
  import Maps = AddressMaps
  import Preservation
  import Predecessors

  ghost predicate Ranges(functions: seq<FunctionRange>) {
    forall i :: 0 <= i < |functions| ==> 0 < functions[i].start < functions[i].end < WORD
  }

  ghost predicate DisjointFunctions(functions: seq<FunctionRange>) {
    forall i, j :: 0 <= i < j < |functions| ==> functions[i].end <= functions[j].start || functions[j].end <= functions[i].start
  }

  ghost function Flat(tilings: seq<seq<Block>>): seq<Block> {
    if tilings == [] then [] else Flat(tilings[..|tilings| - 1]) + tilings[|tilings| - 1]
  }

  ghost predicate TilesAll(isa: Isa, image: Memory, functions: seq<FunctionRange>, tilings: seq<seq<Block>>)
    requires Ranges(functions)
  {
    |tilings| <= |functions|
    && forall i :: 0 <= i < |tilings| ==> Tiles(functions[i], SitesOf(isa, image, functions[i]), tilings[i])
  }

  predicate Overlap(a: Block, b: Block) {
    a.start < b.end && b.start < a.end
  }

  ghost predicate DisjointBlocks(blocks: seq<Block>) {
    forall i, j :: 0 <= i < j < |blocks| ==> !Overlap(blocks[i], blocks[j])
  }

  ghost predicate Within(fn: FunctionRange, b: Block) {
    fn.start <= b.start < b.end <= fn.end
  }

  lemma {:induction false} FlatIndex(tilings: seq<seq<Block>>, k: nat) returns (i: nat, j: nat)
    requires k < |Flat(tilings)|
    ensures i < |tilings| && j < |tilings[i]| && Flat(tilings)[k] == tilings[i][j]
  {
    var front, last := tilings[..|tilings| - 1], tilings[|tilings| - 1];
    if k < |Flat(front)| {
      i, j := FlatIndex(front, k);
    } else {
      i, j := |tilings| - 1, k - |Flat(front)|;
    }
  }

  lemma FlatWithin(isa: Isa, image: Memory, functions: seq<FunctionRange>, tilings: seq<seq<Block>>, k: nat)
    requires Ranges(functions) && TilesAll(isa, image, functions, tilings) && k < |Flat(tilings)|
    ensures exists i: nat :: i < |tilings| && Within(functions[i], Flat(tilings)[k])
  {
    var i, j := FlatIndex(tilings, k);
    BlocksInside(functions[i], SitesOf(isa, image, functions[i]), tilings[i], j);
    assert Within(functions[i], Flat(tilings)[k]);
  }

  lemma {:induction false} FlatPair(isa: Isa, image: Memory, functions: seq<FunctionRange>, tilings: seq<seq<Block>>, i: nat, j: nat)
    requires Ranges(functions) && DisjointFunctions(functions) && TilesAll(isa, image, functions, tilings) && i < j < |Flat(tilings)|
    ensures !Overlap(Flat(tilings)[i], Flat(tilings)[j])
  {
    hide Branches, Body;
    var front, last, n := tilings[..|tilings| - 1], tilings[|tilings| - 1], |tilings| - 1;
    var m := |Flat(front)|;
    if j < m {
      FlatPair(isa, image, functions, front, i, j);
    } else {
      BlocksInside(functions[n], SitesOf(isa, image, functions[n]), last, j - m);
      if i < m {
        FlatWithin(isa, image, functions, front, i);
      } else {
        BlocksInside(functions[n], SitesOf(isa, image, functions[n]), last, i - m);
      }
    }
  }

  /** The blocks of disjoint functions are pairwise disjoint. */
  lemma FlatDisjoint(isa: Isa, image: Memory, functions: seq<FunctionRange>, tilings: seq<seq<Block>>)
    requires Ranges(functions) && DisjointFunctions(functions) && TilesAll(isa, image, functions, tilings)
    ensures DisjointBlocks(Flat(tilings)) && Maps.InRange(Flat(tilings))
  {
    assert |tilings| <= |functions|;
    hide TilesAll, Flat;
    forall i: nat, j: nat | i < j < |Flat(tilings)| ensures !Overlap(Flat(tilings)[i], Flat(tilings)[j]) {
      FlatPair(isa, image, functions, tilings, i, j);
    }
    forall i: nat | i < |Flat(tilings)| ensures Flat(tilings)[i].start <= Flat(tilings)[i].end < WORD {
      FlatWithin(isa, image, functions, tilings, i);
    }
  }

  predicate CutFrom(p: Maps.Placement, b: Block) {
    p.start == b.start && p.start + Total(p.forms) <= b.end
  }

  /** Each placed leader lies in one of the blocks; the k-th site came from block from[k], in order. */
  ghost predicate Sources(h: Maps.History, blocks: seq<Block>, from: seq<nat>) {
    && |from| == |h.sites|
    && (forall i: nat :: i < |from| ==> from[i] < |blocks| && CutFrom(h.sites[i], blocks[from[i]]))
    && (forall i, j :: 0 <= i < j < |from| ==> from[i] < from[j])
  }

  lemma {:induction false} EverySource(cfg: Config, image: Memory, blocks: seq<Block>) returns (from: seq<nat>)
    requires Lawful(cfg.isa) && Maps.InRange(blocks)
    ensures Sources(Maps.Calls(cfg, image, blocks), blocks, from)
  {
    hide Lawful, Attempt, Placing, Sources, Maps.Extend;
    if blocks == [] {
      from := [];
      NoSources();
    } else {
      var front, b := blocks[..|blocks| - 1], blocks[|blocks| - 1];
      from := EverySource(cfg, image, front);
      var h := Maps.Calls(cfg, image, front);
      from := NextSource(cfg, image, h, front, b, from);
      assert front + [b] == blocks;
    }
  }

  lemma NoSources()
    ensures Sources(Maps.History(Maps.EMPTY, []), [], [])
  {
  }

  lemma NextSource(cfg: Config, image: Memory, h: Maps.History, blocks: seq<Block>, b: Block, from: seq<nat>) returns (from': seq<nat>)
    requires Lawful(cfg.isa) && b.start <= b.end < WORD && Sources(h, blocks, from)
    ensures Sources(Maps.Extend(cfg, h, image, b), blocks + [b], from')
  {
    hide Lawful, Attempt, Placing, Total;
    from' := from;
    if Attempt(cfg, |h.st.code|, image, b.start, b.end).Done? {
      var p := Maps.DonePlacement(cfg, |h.st.code|, image, b);
      from' := from + [|blocks|];
    }
  }

  /** The leaders displaced in disjoint blocks are disjoint. */
  lemma LeadersDisjoint(cfg: Config, image: Memory, blocks: seq<Block>)
    requires Lawful(cfg.isa) && Maps.InRange(blocks) && DisjointBlocks(blocks)
    ensures var h := Maps.Calls(cfg, image, blocks);
      forall i, j, x: nat :: 0 <= i < j < |h.sites| && Preservation.InLeader(h.sites[i], x) ==> !Preservation.InLeader(h.sites[j], x)
  {
    var from := EverySource(cfg, image, blocks);
    var h := Maps.Calls(cfg, image, blocks);
    hide Lawful, Maps.Calls;
    forall i, j, x: nat | 0 <= i < j < |h.sites| && Preservation.InLeader(h.sites[i], x) ensures !Preservation.InLeader(h.sites[j], x) {
      assert !Overlap(blocks[from[i]], blocks[from[j]]);
    }
  }

  ghost predicate StartsOf(h: Maps.History, leaders: set<nat>) {
    forall a :: a in leaders <==> exists i :: 0 <= i < |h.sites| && h.sites[i].start == a
  }

  lemma CallsSnoc(cfg: Config, image: Memory, blocks: seq<Block>, b: Block)
    requires Lawful(cfg.isa) && Maps.InRange(blocks) && b.start <= b.end < WORD
    ensures Maps.InRange(blocks + [b])
    ensures Maps.Calls(cfg, image, blocks + [b]) == Maps.Extend(cfg, Maps.Calls(cfg, image, blocks), image, b)
  {
    assert (blocks + [b])[..|blocks|] == blocks;
  }

  /** The blocks of one function, one after the other; leaders collects the starts of those that got a stub. */
  method InstrumentFunction(stubs: Instrumenter, image: Memory, blocks: seq<Block>, leaders: set<nat>, ghost done: seq<Block>)
    returns (leaders': set<nat>)
    requires Lawful(stubs.isa) && Maps.InRange(done) && Maps.InRange(blocks) && Maps.InRange(done + blocks)
    requires stubs.Value() == Maps.Calls(stubs.Setup(), image, done).st && StartsOf(Maps.Calls(stubs.Setup(), image, done), leaders)
    modifies stubs
    ensures stubs.Value() == Maps.Calls(stubs.Setup(), image, done + blocks).st
    ensures StartsOf(Maps.Calls(stubs.Setup(), image, done + blocks), leaders')
  {
    hide Lawful, Attempt, Placing, Instrument, Maps.Calls, Maps.Extend, StartsOf, Maps.InRange;
    ghost var cfg := stubs.Setup();
    leaders' := leaders;
    assert done + blocks[..0] == done;
    for i := 0 to |blocks|
      invariant Maps.InRange(done + blocks[..i])
      invariant stubs.Value() == Maps.Calls(cfg, image, done + blocks[..i]).st
      invariant StartsOf(Maps.Calls(cfg, image, done + blocks[..i]), leaders')
    {
      ghost var h := Maps.Calls(cfg, image, done + blocks[..i]);
      BlockInRange(blocks, i);
      CallsSnoc(cfg, image, done + blocks[..i], blocks[i]);
      ExtendIs(cfg, h, image, blocks[i]);
      assert done + blocks[..i + 1] == (done + blocks[..i]) + [blocks[i]];
      Maps.FailureChangesNothing(cfg, h.st, image, blocks[i].start, blocks[i].end);
      var stub := stubs.InstrumentBlock(image, blocks[i].start, blocks[i].end);
      if stub != 0 {
        ExtendStarts(cfg, h, image, blocks[i], leaders');
        leaders' := leaders' + {blocks[i].start};
      } else {
        SameStarts(h, Maps.Extend(cfg, h, image, blocks[i]), leaders');
      }
    }
    assert done + blocks[..|blocks|] == done + blocks;
  }

  lemma BlockInRange(blocks: seq<Block>, i: nat)
    requires Maps.InRange(blocks) && i < |blocks|
    ensures blocks[i].start <= blocks[i].end < WORD
  {
  }

  lemma ExtendIs(cfg: Config, h: Maps.History, image: Memory, b: Block)
    requires Lawful(cfg.isa) && b.start <= b.end < WORD
    ensures Maps.Extend(cfg, h, image, b).st == Instrument(cfg, h.st, image, b.start, b.end).0
    ensures !Attempt(cfg, |h.st.code|, image, b.start, b.end).Done? ==> Maps.Extend(cfg, h, image, b).sites == h.sites
  {
    hide Lawful, Attempt, Instrument;
  }

  lemma SameStarts(h: Maps.History, h': Maps.History, leaders: set<nat>)
    requires StartsOf(h, leaders) && h'.sites == h.sites
    ensures StartsOf(h', leaders)
  {
  }

  lemma ExtendStarts(cfg: Config, h: Maps.History, image: Memory, b: Block, leaders: set<nat>)
    requires Lawful(cfg.isa) && b.start <= b.end < WORD && StartsOf(h, leaders)
    requires Attempt(cfg, |h.st.code|, image, b.start, b.end).Done?
    ensures StartsOf(Maps.Extend(cfg, h, image, b), leaders + {b.start})
  {
    hide Lawful, Attempt, Placing;
    var h' := Maps.Extend(cfg, h, image, b);
    forall a ensures a in leaders + {b.start} <==> exists i :: 0 <= i < |h'.sites| && h'.sites[i].start == a {
      if a == b.start {
        assert h'.sites[|h.sites|].start == a;
      } else if a in leaders {
        var i :| 0 <= i < |h.sites| && h.sites[i].start == a;
        assert h'.sites[i].start == a;
      }
    }
  }

  /** Every function is analysed, cut into blocks and instrumented; then all is committed. */
  method AddBranchInstrumentation(stubs: Instrumenter, image: Memory, functions: seq<FunctionRange>)
    returns (leaders: set<nat>, image': Memory, ghost tilings: seq<seq<Block>>)
    requires Lawful(stubs.isa) && Ranges(functions) && stubs.base != 0 && stubs.Value() == Maps.EMPTY
    modifies stubs
    ensures |tilings| == |functions| && TilesAll(stubs.isa, image, functions, tilings)
    ensures Maps.InRange(Flat(tilings)) && (DisjointFunctions(functions) ==> DisjointBlocks(Flat(tilings)))
    ensures stubs.Value() == Maps.Calls(stubs.Setup(), image, Flat(tilings)).st
    ensures StartsOf(Maps.Calls(stubs.Setup(), image, Flat(tilings)), leaders)
    ensures image' == Committed(image, stubs.base, stubs.Value())
  {
    hide TilesAll, Ranges, DisjointFunctions, Maps.InRange, StartsOf, Lawful, Flat;
    leaders, tilings := {}, [];
    NoTilings(stubs.Setup(), image, functions);
    for i := 0 to |functions|
      invariant |tilings| == i && TilesAll(stubs.isa, image, functions, tilings)
      invariant Maps.InRange(Flat(tilings))
      invariant stubs.Value() == Maps.Calls(stubs.Setup(), image, Flat(tilings)).st
      invariant StartsOf(Maps.Calls(stubs.Setup(), image, Flat(tilings)), leaders)
    {
      RangeAt(functions, i);
      var blocks := BlocksOf(stubs.isa, image, functions[i]);
      TilingGrows(stubs.isa, image, functions, tilings, blocks);
      leaders := InstrumentFunction(stubs, image, blocks, leaders, Flat(tilings));
      tilings := tilings + [blocks];
    }
    if DisjointFunctions(functions) {
      FlatDisjoint(stubs.isa, image, functions, tilings);
    }
    image' := stubs.Commit(image);
  }

  lemma NoTilings(cfg: Config, image: Memory, functions: seq<FunctionRange>)
    requires Lawful(cfg.isa) && Ranges(functions)
    ensures TilesAll(cfg.isa, image, functions, []) && Flat([]) == [] && Maps.InRange([])
    ensures Maps.Calls(cfg, image, []) == Maps.History(Maps.EMPTY, []) && StartsOf(Maps.History(Maps.EMPTY, []), {})
  {
  }

  lemma RangeAt(functions: seq<FunctionRange>, i: nat)
    requires Ranges(functions) && i < |functions|
    ensures 0 < functions[i].start < functions[i].end < WORD
  {
  }

  method BlocksOf(isa: Isa, image: Memory, fn: FunctionRange) returns (blocks: seq<Block>)
    requires Lawful(isa) && 0 < fn.start < fn.end < WORD
    ensures Tiles(fn, SitesOf(isa, image, fn), blocks)
  {
    hide Lawful, Tiles;
    var branches := AnalyzeFunction(isa, Body(image, fn), fn.start);
    assert branches == SitesOf(isa, image, fn);
    SitesAdvance(isa, image, fn);
    blocks := DiscoverBlocks(fn, branches);
  }

  lemma TilingGrows(isa: Isa, image: Memory, functions: seq<FunctionRange>, tilings: seq<seq<Block>>, blocks: seq<Block>)
    requires Ranges(functions) && TilesAll(isa, image, functions, tilings) && |tilings| < |functions| && Maps.InRange(Flat(tilings))
    requires Tiles(functions[|tilings|], SitesOf(isa, image, functions[|tilings|]), blocks)
    ensures TilesAll(isa, image, functions, tilings + [blocks]) && Flat(tilings + [blocks]) == Flat(tilings) + blocks
    ensures Maps.InRange(blocks) && Maps.InRange(Flat(tilings + [blocks])) && Maps.InRange(Flat(tilings) + blocks)
  {
    hide Tiles, SitesOf, Flat;
    FlatSnoc(tilings, blocks);
    TilingInRange(functions[|tilings|], SitesOf(isa, image, functions[|tilings|]), blocks);
    InRangeBoth(Flat(tilings), blocks);
    var all := tilings + [blocks];
    hide Maps.InRange;
    forall i | 0 <= i < |all| ensures Tiles(functions[i], SitesOf(isa, image, functions[i]), all[i]) {
      assert i < |tilings| ==> all[i] == tilings[i];
    }
  }

  lemma InRangeBoth(a: seq<Block>, b: seq<Block>)
    requires Maps.InRange(a) && Maps.InRange(b)
    ensures Maps.InRange(a + b)
  {
  }

  lemma FlatSnoc(tilings: seq<seq<Block>>, blocks: seq<Block>)
    ensures Flat(tilings + [blocks]) == Flat(tilings) + blocks
  {
    assert (tilings + [blocks])[..|tilings|] == tilings;
  }

  lemma TilingInRange(fn: FunctionRange, branches: seq<BranchSite>, blocks: seq<Block>)
    requires fn.end < WORD && Tiles(fn, branches, blocks)
    ensures Maps.InRange(blocks)
  {
    forall i | 0 <= i < |blocks| ensures blocks[i].start <= blocks[i].end < WORD {
      BlocksInside(fn, branches, blocks, i);
    }
  }

  // ---- the instrumented module -------------------------------------------------------------------------------------------------

  /** The direct targets of a function within itself lie on its instruction boundaries. */
  ghost predicate WellTargeted(isa: Isa, image: Memory, fn: FunctionRange)
    requires 0 < fn.start < fn.end < WORD
  {
    var sites := SitesOf(isa, image, fn);
    forall i :: 0 <= i < |sites| && fn.start <= sites[i].target < fn.end ==> OnBoundary(isa, image, fn, sites[i].target)
  }

  /** The region of the stubs is in the address space and apart from every function. */
  ghost predicate RoomForStubs(cfg: Config, h: Maps.History, functions: seq<FunctionRange>) {
    && 0 < cfg.base && cfg.base + |h.st.code| < WORD && cfg.counter < 0x8000_0000 && cfg.target < 0x8000_0000
    && forall i :: 0 <= i < |functions| ==> functions[i].end <= cfg.base || cfg.base + |h.st.code| <= functions[i].start
  }

  /** A placed leader lies in one function, and starts on one of its instruction boundaries. */
  lemma SiteSource(cfg: Config, image: Memory, functions: seq<FunctionRange>, tilings: seq<seq<Block>>, s: nat) returns (f: nat)
    requires Lawful(cfg.isa) && Ranges(functions) && DisjointFunctions(functions) && TilesAll(cfg.isa, image, functions, tilings)
    requires forall i :: 0 <= i < |functions| ==> WellTargeted(cfg.isa, image, functions[i])
    requires Maps.InRange(Flat(tilings)) && s < |Maps.Calls(cfg, image, Flat(tilings)).sites|
    ensures f < |functions| && Predecessors.Cut(cfg, image, Maps.Calls(cfg, image, Flat(tilings)), functions[f], s)
  {
    hide Lawful, Maps.Calls, Tiles, OnBoundary, SitesOf, Maps.InRange;
    var h, blocks := Maps.Calls(cfg, image, Flat(tilings)), Flat(tilings);
    var from := EverySource(cfg, image, blocks);
    assert CutFrom(h.sites[s], blocks[from[s]]);
    var i, j := FlatIndex(tilings, from[s]);
    f := i;
    BlocksInside(functions[i], SitesOf(cfg.isa, image, functions[i]), tilings[i], j);
    assert WellTargeted(cfg.isa, image, functions[i]);
    BoundaryStart(cfg.isa, image, functions[i], tilings[i], j);
  }

  /**
   Once every block of disjoint, well targeted functions has been tried and the region lies apart, everything the other
   results ask of a patched program holds of every function.
   */
  lemma ModuleIsReady(cfg: Config, image: Memory, functions: seq<FunctionRange>, tilings: seq<seq<Block>>)
    requires Lawful(cfg.isa) && Ranges(functions) && DisjointFunctions(functions)
    requires |tilings| == |functions| && TilesAll(cfg.isa, image, functions, tilings) && Maps.InRange(Flat(tilings))
    requires forall i :: 0 <= i < |functions| ==> WellTargeted(cfg.isa, image, functions[i])
    requires RoomForStubs(cfg, Maps.Calls(cfg, image, Flat(tilings)), functions)
    ensures var h := Maps.Calls(cfg, image, Flat(tilings));
      Preservation.Separate(cfg, h) && forall i :: 0 <= i < |functions| ==> Predecessors.Ready(cfg, image, h, functions[i])
  {
    hide Lawful, Maps.Calls, TilesAll, Flat, WellTargeted, Maps.InRange, Maps.MapsOk, Maps.RemapExact, Preservation.Laid, OnBoundary;
    var h := Maps.Calls(cfg, image, Flat(tilings));
    FlatDisjoint(cfg.isa, image, functions, tilings);
    LeadersDisjoint(cfg, image, Flat(tilings));
    Preservation.AlwaysLaid(cfg, image, Flat(tilings));
    Maps.MapsAlwaysOk(cfg, image, Flat(tilings));
    Maps.RemapAlwaysExact(cfg, image, Flat(tilings));
    forall s, x: nat | 0 <= s < |h.sites| && Preservation.InLeader(h.sites[s], x) ensures x < cfg.base || cfg.base + |h.st.code| <= x {
      var f := SiteSource(cfg, image, functions, tilings, s);
    }
    forall i | 0 <= i < |functions| ensures Predecessors.Aligned(cfg, image, h, functions[i]) {
      forall s: nat, x: nat | s < |h.sites| && Preservation.InLeader(h.sites[s], x) && functions[i].start <= x < functions[i].end
        ensures Predecessors.Cut(cfg, image, h, functions[i], s)
      {
        var f := SiteSource(cfg, image, functions, tilings, s);
        assert f == i;
      }
    }
  }
}
