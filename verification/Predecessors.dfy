/** Which instructions may have run just before an address, found on the patched program. */
module Predecessors {
  import opened Options
  import opened Words
  import opened Processor
  import Stub = CounterStub
  import opened InstructionSet
  import opened Relocation
  import opened Instrumentation
  import opened Analysis
  import opened Blocks
  import Maps = AddressMaps
  import opened Execution
  import Preservation

  type Placement = Maps.Placement
  type History = Maps.History

  // ---- the pristine answer ---------------------------------------------------------------------------------------------------

  /** The offset of the swept instruction that ends at x, from an offset on. */
  function Before(isa: Isa, b: seq<Byte>, off: nat, x: nat): (p: Option<nat>)
    ensures p.Some? ==> off <= p.value < |b| && At(isa, b, p.value).Some? && p.value + At(isa, b, p.value).value.length == x
    decreases |b| - off
  {
    var f := At(isa, b, off);
    if f.None? then None
    else if off + f.value.length == x then Some(off)
    else Before(isa, b, off + f.value.length, x)
  }

  predicate FallsThrough(f: Form) {
    !f.category.UnconditionalBranch? && !f.category.ReturnBranch? && !f.category.CallBranch?
  }

  /** The address of the instruction of a function that continues into an offset, 0 when there is none. */
  function Fallthrough(isa: Isa, b: seq<Byte>, start: nat, x: nat): nat {
    var p := Before(isa, b, 0, x);
    if x == 0 || p.None? then 0
    else if FallsThrough(At(isa, b, p.value).value) then start + p.value
    else 0
  }

  /** An instruction that is reached and ends at x is the one before x. */
  lemma {:induction false} BeforeFinds(isa: Isa, b: seq<Byte>, off: nat, p: nat)
    requires Reaches(isa, b, off, p) && At(isa, b, p).Some?
    ensures Before(isa, b, off, p + At(isa, b, p).value.length) == Some(p)
    decreases |b| - off
  {
    if off != p {
      ReachesForward(isa, b, off + At(isa, b, off).value.length, p);
      BeforeFinds(isa, b, off + At(isa, b, off).value.length, p);
    }
  }

  lemma {:induction false} BeforeReached(isa: Isa, b: seq<Byte>, off: nat, x: nat)
    requires Before(isa, b, off, x).Some?
    ensures Reaches(isa, b, off, Before(isa, b, off, x).value)
    decreases |b| - off
  {
    var f := At(isa, b, off).value;
    if off + f.length != x {
      BeforeReached(isa, b, off + f.length, x);
    }
  }

  // ---- the patched bytes at a boundary -------------------------------------------------------------------------------------------

  /** The leaders that lie in a function start on its instruction boundaries and end in it; the stubs lie elsewhere. */
  ghost predicate Aligned(cfg: Config, image: Memory, h: History, fn: FunctionRange) {
    && 0 < fn.start < fn.end < WORD
    && (fn.end <= cfg.base || cfg.base + |h.st.code| <= fn.start)
    && (forall i: nat, x: nat :: i < |h.sites| && Preservation.InLeader(h.sites[i], x) && fn.start <= x < fn.end ==> Cut(cfg, image, h, fn, i))
  }

  ghost predicate Cut(cfg: Config, image: Memory, h: History, fn: FunctionRange, i: nat)
    requires i < |h.sites| && 0 < fn.start < fn.end < WORD
  {
    && fn.start <= h.sites[i].start && h.sites[i].start + Total(h.sites[i].forms) <= fn.end
    && OnBoundary(cfg.isa, image, fn, h.sites[i].start)
  }

  ghost predicate Ready(cfg: Config, image: Memory, h: History, fn: FunctionRange) {
    && Lawful(cfg.isa)
    && Preservation.Laid(cfg, image, h) && Preservation.Separate(cfg, h)
    && Maps.MapsOk(cfg, h) && Maps.RemapExact(cfg, h)
    && Aligned(cfg, image, h, fn)
  }

  /** The displaced instructions are the swept ones. */
  lemma {:induction false} DecodedIsSwept(isa: Isa, b: seq<Byte>, body: seq<Byte>, base: nat, forms: seq<Form>, off: nat)
    requires Lawful(isa) && Decodes(isa, b, forms) && |b| == Total(forms) && base + |b| <= |body| && body[base..base + |b|] == b
    requires off < |b| && Reaches(isa, body, base, base + off)
    ensures exists k: nat :: k < |forms| && Total(forms[..k]) == off && At(isa, body, base + off) == Some(forms[k])
    decreases |forms|
  {
    hide Lawful;
    var f, n := forms[0], forms[0].length;
    assert b[..n] == body[base..][..n];
    DecodeLocal(isa, b, body[base..]);
    if off == 0 {
      assert forms[..0] == [];
    } else {
      ReachesForward(isa, body, base + n, base + off);
      assert body[base + n..base + n + |b[n..]|] == b[n..];
      DecodedIsSwept(isa, b[n..], body, base + n, forms[1..], off - n);
      var k: nat :| k < |forms[1..]| && Total(forms[1..][..k]) == off - n && At(isa, body, base + off) == Some(forms[1..][k]);
      assert forms[..k + 1][1..] == forms[1..][..k] && forms[..k + 1][0] == f;
      assert forms[k + 1] == forms[1..][k];
    }
  }

  lemma {:induction false} DecodesAt(isa: Isa, b: seq<Byte>, forms: seq<Form>, k: nat)
    requires Decodes(isa, b, forms) && |b| == Total(forms) && k < |forms|
    ensures var off := Total(forms[..k]);
      off + forms[k].length <= |b| && forms[k].length >= 1 && isa.decode(b[off..]) == Some(forms[k])
    decreases |forms|
  {
    if k > 0 {
      var n := forms[0].length;
      DecodesAt(isa, b[n..], forms[1..], k - 1);
      assert forms[..k][1..] == forms[1..][..k - 1] && forms[..k][0] == forms[0];
      assert b[n..][Total(forms[1..][..k - 1])..] == b[Total(forms[..k])..];
    } else {
      assert forms[..0] == [] && b[0..] == b;
      DecodesTotal(isa, b, forms);
      DecodesTotal(isa, b[forms[0].length..], forms[1..]);
    }
  }

  lemma Placements(cfg: Config, image: Memory, h: History, fn: FunctionRange, i: nat)
    requires Ready(cfg, image, h, fn) && i < |h.sites|
    ensures var p := h.sites[i]; Preservation.Built(cfg, image, p) && Maps.Sized(p)
    ensures var p, q := h.sites[i], Preservation.CommittedImage(cfg, image, h); var to := cfg.base + p.mark + Stub.STUB_LENGTH;
      Lies(q, to, p.moved) && Decodes(cfg.isa, p.moved, p.forms)
  {
    hide Lawful, Maps.Answers, Preservation.CommittedImage, Preservation.Separate, Maps.RemapExact, Aligned;
    var p := h.sites[i];
    Preservation.SiteReady(cfg, image, h, i);
    assert Maps.SiteOk(cfg, h.st, p);
    hide Maps.MapsOk, Preservation.Laid;
    MovedActs(cfg.isa, Preservation.Leading(image, p), p.forms, p.start, cfg.base + p.mark + Stub.STUB_LENGTH);
  }

  /** The function's bytes as they are in the process. */
  function Live(cfg: Config, image: Memory, h: History, fn: FunctionRange): seq<Byte>
    requires fn.start <= fn.end < WORD
  {
    Body(Preservation.CommittedImage(cfg, image, h), fn)
  }

  lemma ReadyLawful(cfg: Config, image: Memory, h: History, fn: FunctionRange)
    requires Ready(cfg, image, h, fn)
    ensures Lawful(cfg.isa) && 0 < fn.start < fn.end < WORD
  {
  }

  lemma EntryOwner(cfg: Config, image: Memory, h: History, fn: FunctionRange, a: nat) returns (i: nat)
    requires Ready(cfg, image, h, fn) && a in h.st.remap
    ensures i < |h.sites| && Maps.Displaces(cfg, h.sites[i], a, h.st.remap[a])
  {
    hide Lawful, Maps.MapsOk, Preservation.Separate, Preservation.Laid, Aligned, Maps.Displaces;
    i :| i < |h.sites| && Maps.Displaces(cfg, h.sites[i], a, h.st.remap[a]);
  }

  lemma CutAt(cfg: Config, image: Memory, h: History, fn: FunctionRange, i: nat, x: nat)
    requires Ready(cfg, image, h, fn) && i < |h.sites| && Preservation.InLeader(h.sites[i], x) && fn.start <= x < fn.end
    ensures 0 < fn.start < fn.end < WORD && Cut(cfg, image, h, fn, i)
  {
    hide Lawful, Maps.MapsOk, Preservation.Separate, Preservation.Laid, Maps.RemapExact, Cut;
  }

  /** The placement and the number of the instruction an entry of the map belongs to. */
  lemma EntrySource(cfg: Config, image: Memory, h: History, fn: FunctionRange, a: nat) returns (i: nat, k: nat)
    requires Ready(cfg, image, h, fn) && fn.start <= a < fn.end && a in h.st.remap
    ensures i < |h.sites| && k < |h.sites[i].forms|
    ensures var p := h.sites[i];
      && fn.start <= p.start && p.start + Total(p.forms) <= fn.end
      && a == p.start + Total(p.forms[..k])
      && h.st.remap[a] == (cfg.base + p.mark + Stub.STUB_LENGTH + Total(p.forms[..k]), p.forms[k].length)
  {
    hide Ready, OnBoundary, Decodes, MovedAll, Detour, Lies, Total, Preservation.CommittedImage;
    i := EntryOwner(cfg, image, h, fn, a);
    var p := h.sites[i];
    Placements(cfg, image, h, fn, i);
    k := Maps.Index(p.forms, a - p.start, |p.forms|).value;
    Preservation.OffsetIsTotal(p.forms, k);
    DecodesAt(cfg.isa, p.moved, p.forms, k);
    CutAt(cfg, image, h, fn, i, a);
  }

  /** A displaced instruction decodes at its true address as it does in the pristine function. */
  lemma DisplacedDecodes(cfg: Config, image: Memory, h: History, fn: FunctionRange, off: nat, b: seq<Byte>)
    requires Ready(cfg, image, h, fn) && off < Size(fn) && fn.start + off in h.st.remap
    requires var (t, n) := h.st.remap[fn.start + off];
      t + n < WORD && n <= |b| && b[..n] == Fetch(Preservation.CommittedImage(cfg, image, h), t, n)
    ensures At(cfg.isa, Body(image, fn), off).Some? && cfg.isa.decode(b) == At(cfg.isa, Body(image, fn), off)
    ensures h.st.remap[fn.start + off].1 == At(cfg.isa, Body(image, fn), off).value.length
    ensures off + h.st.remap[fn.start + off].1 <= Size(fn)
  {
    hide Ready, Lawful, Decodes, MovedAll, Detour, Total, Lies, Fetch, Preservation.CommittedImage, At;
    ReadyLawful(cfg, image, h, fn);
    var i, k := EntrySource(cfg, image, h, fn, fn.start + off);
    var p := h.sites[i];
    Placements(cfg, image, h, fn, i);
    var o, n, leading := Total(p.forms[..k]), p.forms[k].length, Preservation.Leading(image, p);
    var to := cfg.base + p.mark + Stub.STUB_LENGTH;
    DecodesAt(cfg.isa, p.moved, p.forms, k);
    FetchLies(Preservation.CommittedImage(cfg, image, h), to, p.moved, o, n);
    FetchBody(image, fn, p.start, |leading|, o, n);
    SameInstruction(cfg.isa, p.moved, leading, p.forms, k, b, Body(image, fn), off);
  }

  lemma FetchLies(m: Memory, a: Word, b: seq<Byte>, o: nat, n: nat)
    requires Lies(m, a, b) && o + n <= |b|
    ensures Fetch(m, a + o, n) == b[o..o + n]
  {
  }

  lemma FetchBody(image: Memory, fn: FunctionRange, a: nat, m: nat, o: nat, n: nat)
    requires fn.start <= a && a + m <= fn.end < WORD && o + n <= m && fn.start <= fn.end
    ensures Body(image, fn)[a - fn.start + o..a - fn.start + o + n] == Fetch(image, a, m)[o..o + n]
  {
  }

  lemma CopyDecodes(isa: Isa, from: seq<Byte>, forms: seq<Form>, k: nat, b: seq<Byte>)
    requires Lawful(isa) && k < |forms| && |from| == Total(forms) && Decodes(isa, from, forms)
    requires var o, n := Total(forms[..k]), forms[k].length; o + n <= Total(forms) && n <= |b| && b[..n] == from[o..o + n]
    ensures isa.decode(b) == Some(forms[k]) && forms[k].length >= 1
  {
    hide Lawful, Decodes, Total;
    var o, n := Total(forms[..k]), forms[k].length;
    DecodesAt(isa, from, forms, k);
    var w := from[o..];
    assert w[..n] == b[..n];
    DecodeLocal(isa, w, b);
  }

  lemma SameInstruction(isa: Isa, moved: seq<Byte>, leading: seq<Byte>, forms: seq<Form>, k: nat, b: seq<Byte>, body: seq<Byte>, off: nat)
    requires Lawful(isa) && k < |forms| && |moved| == |leading| == Total(forms)
    requires Decodes(isa, moved, forms) && Decodes(isa, leading, forms)
    requires var o, n := Total(forms[..k]), forms[k].length;
      && o + n <= Total(forms) && n <= |b| && b[..n] == moved[o..o + n] && off + n <= |body| && body[off..off + n] == leading[o..o + n]
    ensures isa.decode(b) == Some(forms[k]) == At(isa, body, off)
  {
    hide Lawful, Decodes, Total;
    CopyDecodes(isa, moved, forms, k, b);
    assert body[off..][..forms[k].length] == body[off..off + forms[k].length];
    CopyDecodes(isa, leading, forms, k, body[off..]);
  }

  /** No byte of an instruction that was not displaced is overwritten, nor is any byte after the end of the sweep. */
  lemma Untouched(cfg: Config, image: Memory, h: History, fn: FunctionRange, off: nat, x: nat)
    requires Ready(cfg, image, h, fn) && off < Size(fn) && Reaches(cfg.isa, Body(image, fn), 0, off) && fn.start + off !in h.st.remap
    requires fn.start + off <= x < fn.end
    requires var f := At(cfg.isa, Body(image, fn), off); f.Some? ==> x < fn.start + off + f.value.length
    ensures forall i: nat :: i < |h.sites| ==> !Preservation.InLeader(h.sites[i], x)
  {
    hide Lawful, Preservation.CommittedImage, Maps.MapsOk, Preservation.Separate, Preservation.Laid, Decodes, MovedAll, Detour;
    var a, isa, body := fn.start + off, cfg.isa, Body(image, fn);
    forall i: nat | i < |h.sites| ensures !Preservation.InLeader(h.sites[i], x) {
      var p := h.sites[i];
      if Preservation.InLeader(p, x) {
        assert Cut(cfg, image, h, fn, i);
        var base := p.start - fn.start;
        if p.start <= a {
          ReachesOn(isa, body, 0, base, off);
          LeaderIsDisplaced(cfg, image, h, fn, i, a);
        } else {
          ReachesOn(isa, body, 0, off, base);
          ReachesForward(isa, body, off + At(isa, body, off).value.length, base);
        }
      }
    }
  }

  lemma LeaderIsDisplaced(cfg: Config, image: Memory, h: History, fn: FunctionRange, i: nat, a: nat)
    requires Ready(cfg, image, h, fn) && i < |h.sites| && Cut(cfg, image, h, fn, i) && Preservation.InLeader(h.sites[i], a) && a < fn.end
    requires Reaches(cfg.isa, Body(image, fn), h.sites[i].start - fn.start, a - fn.start)
    ensures a in h.st.remap
  {
    hide Preservation.CommittedImage, Maps.MapsOk, Preservation.Separate, Preservation.Laid, MovedAll, Detour;
    var p, body := h.sites[i], Body(image, fn);
    Placements(cfg, image, h, fn, i);
    var leading, base := Preservation.Leading(image, p), p.start - fn.start;
    assert body[base..base + |leading|] == leading;
    DecodedIsSwept(cfg.isa, leading, body, base, p.forms, a - p.start);
    var k: nat :| k < |p.forms| && Total(p.forms[..k]) == a - p.start;
    Preservation.OffsetIsTotal(p.forms, k);
    assert Maps.Starts(p, a);
  }

  lemma LiveIsPristine(cfg: Config, image: Memory, h: History, fn: FunctionRange, off: nat, j: nat)
    requires Ready(cfg, image, h, fn) && off <= j < Size(fn) && Reaches(cfg.isa, Body(image, fn), 0, off) && fn.start + off !in h.st.remap
    requires var f := At(cfg.isa, Body(image, fn), off); f.Some? ==> j < off + f.value.length
    ensures Live(cfg, image, h, fn)[j] == Body(image, fn)[j]
  {
    hide Lawful, Preservation.CommittedImage, Maps.MapsOk, Maps.RemapExact, Preservation.Separate, Preservation.Laid, Reaches, At;
    Untouched(cfg, image, h, fn, off, fn.start + j);
    Preservation.CommittedBytes(cfg, image, h, fn.start + j);
  }

  /** Any other instruction decodes in place as it does in the pristine function, or fails to as it does there. */
  lemma OthersDecode(cfg: Config, image: Memory, h: History, fn: FunctionRange, off: nat)
    requires Ready(cfg, image, h, fn) && off < Size(fn) && Reaches(cfg.isa, Body(image, fn), 0, off) && fn.start + off !in h.st.remap
    ensures At(cfg.isa, Live(cfg, image, h, fn), off) == At(cfg.isa, Body(image, fn), off)
  {
    hide Ready, Lawful, Preservation.CommittedImage, Reaches;
    ReadyLawful(cfg, image, h, fn);
    var isa, body, live := cfg.isa, Body(image, fn), Live(cfg, image, h, fn);
    var f := At(isa, body, off);
    if f.Some? {
      DecodeBounds(isa, body[off..]);
    }
    var n := if f.Some? then f.value.length else Size(fn) - off;
    forall j | off <= j < off + n ensures live[j] == body[j] {
      LiveIsPristine(cfg, image, h, fn, off, j);
    }
    assert live[off..][..n] == body[off..][..n];
    if f.Some? {
      DecodeLocal(isa, body[off..], live[off..]);
    } else {
      assert live[off..] == body[off..];
      AtNone(isa, body, off);
    }
  }

  lemma AtNone(isa: Isa, b: seq<Byte>, off: nat)
    requires Lawful(isa) && off < |b| && At(isa, b, off).None?
    ensures isa.decode(b[off..]).None?
  {
    if isa.decode(b[off..]).Some? {
      DecodeBounds(isa, b[off..]);
    }
  }

  lemma EntryBounds(cfg: Config, image: Memory, h: History, fn: FunctionRange, a: nat)
    requires Ready(cfg, image, h, fn) && fn.start <= a < fn.end
    ensures TrueOf(h.st, a) != a <==> a in h.st.remap
    ensures a in h.st.remap ==> h.st.remap[a].0 + h.st.remap[a].1 < WORD
  {
    if a in h.st.remap {
      var i, k := EntrySource(cfg, image, h, fn, a);
      Placements(cfg, image, h, fn, i);
      DecodesAt(cfg.isa, h.sites[i].moved, h.sites[i].forms, k);
      hide Lawful, Decodes, Preservation.Laid, Maps.RemapExact, Maps.SiteOk;
      assert h.st.remap[a].0 in h.st.originals;
    }
  }

  // ---- the analysis ------------------------------------------------------------------------------------------------------------

  datatype FunctionAnalysis = FunctionAnalysis(info: FunctionRange, branches: seq<BranchSite>)

  /** A candidate: where to stop, and the counter the thread must have there. */
  datatype Candidate = Candidate(address: nat, counter: Word, leader: bool)

  predicate InFunction(fn: FunctionRange, a: nat) {
    fn.start <= a < fn.end
  }

  /** The first function an address lies in. */
  function Containing(functions: seq<FunctionAnalysis>, a: nat): (f: Option<FunctionAnalysis>)
    ensures f.Some? ==> f.value in functions && InFunction(f.value.info, a)
  {
    if functions == [] then None
    else if InFunction(functions[0].info, a) then Some(functions[0])
    else Containing(functions[1..], a)
  }

  function SourcesIn(branches: seq<BranchSite>, a: nat): seq<nat> {
    if branches == [] then []
    else SourcesIn(branches[..|branches| - 1], a) + if branches[|branches| - 1].target == a then [branches[|branches| - 1].address] else []
  }

  /** The direct branches to an address. */
  function Sources(functions: seq<FunctionAnalysis>, a: nat): seq<nat> {
    if functions == [] then []
    else Sources(functions[..|functions| - 1], a) + SourcesIn(functions[|functions| - 1].branches, a)
  }

  /** The instruction that continues into an address in the pristine program, 0 when there is none. */
  function PristineFallthrough(isa: Isa, image: Memory, functions: seq<FunctionAnalysis>, a: nat): nat {
    var f := Containing(functions, a);
    if f.None? || f.value.info.end >= WORD then 0
    else Fallthrough(isa, Body(image, f.value.info), f.value.info.start, a - f.value.info.start)
  }

  function CandidatesFor(sources: seq<nat>, counter: Word, leader: bool): seq<Candidate> {
    if sources == [] then []
    else CandidatesFor(sources[..|sources| - 1], counter, leader) + [Candidate(sources[|sources| - 1], counter, leader)]
  }

  /** The counter before an address: one less when its block counts, modulo 2^64. */
  function CounterBefore(leaders: set<nat>, a: nat, counter: Word): Word {
    if a in leaders then Wrap(counter - 1) else counter
  }

  function Candidates(isa: Isa, image: Memory, st: Staged, functions: seq<FunctionAnalysis>, leaders: set<nat>, a: nat, counter: Word): seq<Candidate> {
    var leader, before, from := a in leaders, CounterBefore(leaders, a, counter), PristineFallthrough(isa, image, functions, a);
    (if leader then CandidatesFor(Sources(functions, a), before, leader) else [])
    + (if from != 0 then [Candidate(TrueOf(st, from), before, leader)] else [])
  }

  /** prev is the instruction decoded last, and off is where it ends. */
  ghost predicate Walked(isa: Isa, b: seq<Byte>, x: nat, off: nat, prev: Option<(nat, Form)>) {
    && off <= |b|
    && (prev.None? ==> off == 0)
    && (prev.Some? ==> At(isa, b, prev.value.0) == Some(prev.value.1) && prev.value.0 + prev.value.1.length == off)
    && Before(isa, b, 0, x) == if prev.Some? && off == x then Some(prev.value.0) else Before(isa, b, off, x)
  }

  lemma WalkStarts(isa: Isa, b: seq<Byte>, x: nat)
    ensures Walked(isa, b, x, 0, None) && Reaches(isa, b, 0, 0)
  {
  }

  lemma LastDecoded(isa: Isa, b: seq<Byte>, x: nat, off: nat, prev: Option<(nat, Form)>)
    requires Walked(isa, b, x, off, prev) && x > 0
    ensures prev.Some? ==> prev.value.0 + prev.value.1.length == off && At(isa, b, prev.value.0) == Some(prev.value.1)
  {
  }

  lemma WalkOn(isa: Isa, b: seq<Byte>, x: nat, off: nat, prev: Option<(nat, Form)>)
    requires Lawful(isa) && Walked(isa, b, x, off, prev) && off != x && At(isa, b, off).Some?
    ensures var f := At(isa, b, off).value; f.length >= 1 && Walked(isa, b, x, off + f.length, Some((off, f)))
  {
    DecodeBounds(isa, b[off..]);
  }

  lemma WalkEnds(isa: Isa, b: seq<Byte>, x: nat, off: nat, prev: Option<(nat, Form)>)
    requires Walked(isa, b, x, off, prev) && 0 < x < |b| && (off == x || off >= |b| || At(isa, b, off).None?)
    ensures Before(isa, b, 0, x) == if prev.Some? && prev.value.0 + prev.value.1.length == x then Some(prev.value.0) else None
  {
  }

  lemma SameDecode(isa: Isa, b: seq<Byte>, c: seq<Byte>, off: nat)
    requires Lawful(isa) && |b| == |c| && off < |b| && b[off..] == c[off..]
    ensures isa.decode(b[off..]) == At(isa, c, off)
  {
    if isa.decode(b[off..]).Some? {
      DecodeBounds(isa, b[off..]);
    }
  }

  class PredecessorAnalysis {
    var functions: seq<FunctionAnalysis>
    var leaders: set<nat>

    constructor (functions: seq<FunctionAnalysis>, leaders: set<nat>)
      ensures this.functions == functions && this.leaders == leaders
    {
      this.functions, this.leaders := functions, leaders;
    }

    /** The process is the pristine image as committed, and every function is as instrumentation leaves it. */
    ghost predicate Sees(stubs: Instrumenter, process: Memory, image: Memory, h: History)
      reads this, stubs
    {
      && stubs.Value() == h.st
      && process == Preservation.CommittedImage(stubs.Setup(), image, h)
      && (forall f :: f in functions ==> Ready(stubs.Setup(), image, h, f.info))
    }

    method FunctionContaining(a: nat) returns (f: Option<FunctionAnalysis>)
      ensures f == Containing(functions, a)
    {
      assert functions[0..] == functions;
      for i := 0 to |functions|
        invariant Containing(functions, a) == Containing(functions[i..], a)
      {
        if InFunction(functions[i].info, a) {
          return Some(functions[i]);
        }
        assert functions[i..][1..] == functions[i + 1..];
      }
      return None;
    }

    method BranchSourcesTargeting(a: nat) returns (out: seq<nat>)
      ensures out == Sources(functions, a)
    {
      out := [];
      assert functions[..|functions|] == functions;
      for i := 0 to |functions|
        invariant out == Sources(functions[..i], a)
      {
        var branches := functions[i].branches;
        assert functions[..i + 1][..i] == functions[..i];
        ghost var before := out;
        assert branches[..|branches|] == branches;
        for j := 0 to |branches|
          invariant out == before + SourcesIn(branches[..j], a)
        {
          assert branches[..j + 1][..j] == branches[..j];
          if branches[j].target == a {
            out := out + [branches[j].address];
          }
        }
      }
    }

    /** Decoding the patched process, with the displaced instructions put back, finds what the pristine image has. */
    method FallthroughPredecessor(stubs: Instrumenter, process: Memory, a: nat, ghost image: Memory, ghost h: History) returns (from: nat)
      requires Sees(stubs, process, image, h)
      ensures from == PristineFallthrough(stubs.isa, image, functions, a)
    {
      var f := FunctionContaining(a);
      if f.None? {
        return 0;
      }
      ReadyLawful(stubs.Setup(), image, h, f.value.info);
      if a == f.value.info.start {
        return 0;
      }
      var found := WalkTo(stubs, process, f.value.info, a, image, h);
      return found;
    }

    /** Decode the instruction at an offset, from its displaced bytes when it was displaced. */
    method DecodeAt(stubs: Instrumenter, process: Memory, fn: FunctionRange, bytes: seq<Byte>, off: nat, ghost image: Memory, ghost h: History)
      returns (d: Option<Form>, bytes': seq<Byte>)
      requires stubs.Value() == h.st && process == Preservation.CommittedImage(stubs.Setup(), image, h)
      requires Ready(stubs.Setup(), image, h, fn) && 0 < fn.start < fn.end < WORD && |bytes| == Size(fn) && off < Size(fn)
      requires Reaches(stubs.isa, Body(image, fn), 0, off) && bytes[off..] == Live(stubs.Setup(), image, h, fn)[off..]
      ensures d == At(stubs.isa, Body(image, fn), off) && |bytes'| == |bytes|
      ensures d.Some? ==> off + d.value.length <= Size(fn) && d.value.length >= 1
      ensures d.Some? ==> bytes'[off + d.value.length..] == Live(stubs.Setup(), image, h, fn)[off + d.value.length..]
    {
      hide Ready, Preservation.CommittedImage, Fetch, Reaches, Lawful;
      ghost var cfg := stubs.Setup();
      ReadyLawful(cfg, image, h, fn);
      var addr := fn.start + off;
      var t, n := stubs.TrueAddress(addr);
      EntryBounds(cfg, image, h, fn, addr);
      bytes' := bytes;
      if t != addr {
        var moved := Fetch(process, t, n);
        assert moved[..n] == moved;
        DisplacedDecodes(cfg, image, h, fn, off, moved);
        bytes' := bytes[..off] + moved + bytes[off + n..];
        assert bytes'[off..][..n] == moved;
        assert bytes'[off + n..] == bytes[off..][n..];
        assert Live(cfg, image, h, fn)[off..][n..] == Live(cfg, image, h, fn)[off + n..];
        DisplacedDecodes(cfg, image, h, fn, off, bytes'[off..]);
      } else {
        OthersDecode(cfg, image, h, fn, off);
        SameDecode(stubs.isa, bytes, Live(cfg, image, h, fn), off);
      }
      d := stubs.isa.decode(bytes'[off..]);
      if d.Some? {
        DecodeBounds(stubs.isa, bytes'[off..]);
        if t == addr {
          assert bytes'[off..][d.value.length..] == bytes'[off + d.value.length..];
          assert Live(cfg, image, h, fn)[off..][d.value.length..] == Live(cfg, image, h, fn)[off + d.value.length..];
        }
      }
    }

    method WalkTo(stubs: Instrumenter, process: Memory, fn: FunctionRange, a: nat, ghost image: Memory, ghost h: History) returns (from: nat)
      requires stubs.Value() == h.st && process == Preservation.CommittedImage(stubs.Setup(), image, h)
      requires Ready(stubs.Setup(), image, h, fn) && 0 < fn.start < a < fn.end < WORD
      ensures from == Fallthrough(stubs.isa, Body(image, fn), fn.start, a - fn.start)
    {
      hide Ready, Preservation.CommittedImage, Fetch, Walked, Reaches, Lawful, Before;
      ghost var body, x := Body(image, fn), a - fn.start;
      ReadyLawful(stubs.Setup(), image, h, fn);
      var size := fn.end - fn.start;
      var bytes := Fetch(process, fn.start, size);
      var off: nat := 0;
      var prev: Option<(nat, Form)> := None;
      WalkStarts(stubs.isa, body, x);
      while off < size && fn.start + off != a
        invariant |bytes| == size && off <= size && Reaches(stubs.isa, body, 0, off)
        invariant bytes[off..] == Live(stubs.Setup(), image, h, fn)[off..]
        invariant Walked(stubs.isa, body, x, off, prev)
        decreases size - off
      {
        var d;
        d, bytes := DecodeAt(stubs, process, fn, bytes, off, image, h);
        if d.None? {
          WalkEnds(stubs.isa, body, x, off, prev);
          LastDecoded(stubs.isa, body, x, off, prev);
          return 0;
        }
        WalkOn(stubs.isa, body, x, off, prev);
        ReachesNext(stubs.isa, body, 0, off);
        prev := Some((off, d.value));
        off := off + d.value.length;
      }
      WalkEnds(stubs.isa, body, x, off, prev);
      LastDecoded(stubs.isa, body, x, off, prev);
      return if prev.None? || prev.value.0 + prev.value.1.length != a - fn.start then 0
             else if FallsThrough(prev.value.1) then fn.start + prev.value.0
             else 0;
    }

    /** The candidates, with the addresses to stop at in the patched process and the counter each must show. */
    method InstructionPredecessors(stubs: Instrumenter, process: Memory, a: nat, counter: Word, ghost image: Memory, ghost h: History)
      returns (out: seq<Candidate>)
      requires Sees(stubs, process, image, h)
      ensures out == Candidates(stubs.isa, image, h.st, functions, leaders, a, counter)
    {
      var leader := a in leaders;
      var before := CounterBefore(leaders, a, counter);
      out := [];
      if leader {
        var sources := BranchSourcesTargeting(a);
        assert sources[..|sources|] == sources;
        for i := 0 to |sources|
          invariant out == CandidatesFor(sources[..i], before, leader)
        {
          assert sources[..i + 1][..i] == sources[..i];
          out := out + [Candidate(sources[i], before, leader)];
        }
      }
      var from := FallthroughPredecessor(stubs, process, a, image, h);
      if from != 0 {
        var t, n := stubs.TrueAddress(from);
        out := out + [Candidate(t, before, leader)];
      }
    }
  }

  // ---- completeness over execution traces ----------------------------------------------------------------------------------------

  /** The instruction at a continues into b, within one function. */
  ghost predicate Falls(isa: Isa, image: Memory, functions: seq<FunctionAnalysis>, a: nat, b: nat) {
    && Containing(functions, b).Some?
    && FallsIn(isa, image, Containing(functions, b).value.info, a, b)
  }

  ghost predicate FallsIn(isa: Isa, image: Memory, fn: FunctionRange, a: nat, b: nat) {
    && fn.end < WORD && InFunction(fn, a) && InFunction(fn, b)
    && var body := Body(image, fn);
    && Reaches(isa, body, 0, a - fn.start)
    && var f := At(isa, body, a - fn.start); f.Some? && a + f.value.length == b && FallsThrough(f.value)
  }

  /** The counter a thread holds at each address of its trace: entering a counted block adds one, modulo 2^64. */
  function CounterAt(leaders: set<nat>, trace: seq<nat>, i: nat, first: Word): Word
    requires i < |trace|
  {
    if i == 0 then first
    else
      var c := CounterAt(leaders, trace, i - 1, first);
      if trace[i] in leaders then Stub.Bumped(c) else c
  }

  ghost predicate Analysed(cfg: Config, image: Memory, h: History, functions: seq<FunctionAnalysis>) {
    forall i :: 0 <= i < |functions| ==>
      Ready(cfg, image, h, functions[i].info) && functions[i].branches == SitesOf(cfg.isa, image, functions[i].info)
  }

  lemma {:induction false} SourceIn(branches: seq<BranchSite>, a: nat, b: nat)
    requires a in SourcesIn(branches, b)
    ensures exists site :: site in branches && site.address == a && site.target == b
  {
    var front, last := branches[..|branches| - 1], branches[|branches| - 1];
    if last.target == b && last.address == a {
    } else {
      SourceIn(front, a, b);
    }
  }

  lemma {:induction false} SourceOf(functions: seq<FunctionAnalysis>, a: nat, b: nat) returns (k: nat, site: BranchSite)
    requires a in Sources(functions, b)
    ensures k < |functions| && site in functions[k].branches && site.address == a && site.target == b
  {
    var last := functions[|functions| - 1];
    if a in SourcesIn(last.branches, b) {
      SourceIn(last.branches, a, b);
      k := |functions| - 1;
      site :| site in last.branches && site.address == a && site.target == b;
    } else {
      k, site := SourceOf(functions[..|functions| - 1], a, b);
    }
  }

  lemma {:induction false} CandidatesHave(sources: seq<nat>, counter: Word, leader: bool, c: Candidate)
    ensures c in CandidatesFor(sources, counter, leader) <==> c.address in sources && c.counter == counter && c.leader == leader
  {
    if sources != [] {
      CandidatesHave(sources[..|sources| - 1], counter, leader, c);
      assert sources == sources[..|sources| - 1] + [sources[|sources| - 1]];
      assert c == Candidate(c.address, c.counter, c.leader);
    }
  }

  /** Branches stay where they are. */
  lemma BranchNotDisplaced(cfg: Config, image: Memory, h: History, functions: seq<FunctionAnalysis>, a: nat, b: nat)
    requires Analysed(cfg, image, h, functions) && a in Sources(functions, b)
    ensures TrueOf(h.st, a) == a
  {
    hide Ready, Lawful, Preservation.CommittedImage, Decodes, Reaches, Branches, Sources, Fetch;
    var k, site := SourceOf(functions, a, b);
    var fn := functions[k].info;
    ReadyLawful(cfg, image, h, fn);
    BranchIsReached(cfg.isa, Body(image, fn), fn.start, 0, site);
    if a in h.st.remap {
      EntryIsPlain(cfg, image, h, fn, a);
    }
  }

  lemma EntryIsPlain(cfg: Config, image: Memory, h: History, fn: FunctionRange, a: nat)
    requires Ready(cfg, image, h, fn) && 0 < fn.start <= a < fn.end < WORD && a in h.st.remap
    ensures At(cfg.isa, Body(image, fn), a - fn.start).Some? && At(cfg.isa, Body(image, fn), a - fn.start).value.category.Plain?
  {
    hide Ready, Lawful, MovedAll, Detour, Total, Lies, Fetch, Preservation.CommittedImage, At;
    ReadyLawful(cfg, image, h, fn);
    var i, k := EntrySource(cfg, image, h, fn, a);
    var p := h.sites[i];
    Placements(cfg, image, h, fn, i);
    var o, n, leading := Total(p.forms[..k]), p.forms[k].length, Preservation.Leading(image, p);
    DecodesAt(cfg.isa, p.moved, p.forms, k);
    FetchBody(image, fn, p.start, |leading|, o, n);
    AllPlain(cfg.isa, leading, p.forms, k);
    SameInstruction(cfg.isa, p.moved, leading, p.forms, k, p.moved[o..o + n], Body(image, fn), a - fn.start);
  }

  lemma {:induction false} AllPlain(isa: Isa, b: seq<Byte>, forms: seq<Form>, k: nat)
    requires Decodes(isa, b, forms) && k < |forms|
    ensures forms[k].category.Plain?
    decreases |forms|
  {
    if k > 0 {
      AllPlain(isa, b[forms[0].length..], forms[1..], k - 1);
    }
  }

  /** No two original addresses outside the stubs have the same true address. */
  lemma TrueInjective(cfg: Config, h: History, a: nat, b: nat)
    requires Maps.MapsOk(cfg, h) && TrueOf(h.st, a) == TrueOf(h.st, b)
    requires a < cfg.base || cfg.base + |h.st.code| <= a
    requires b < cfg.base || cfg.base + |h.st.code| <= b
    ensures a == b
  {
    hide Maps.SiteOk, Maps.Holds;
    assert OriginalOf(h.st, TrueOf(h.st, a)) == a && OriginalOf(h.st, TrueOf(h.st, b)) == b;
  }

  lemma FallthroughIs(cfg: Config, image: Memory, h: History, functions: seq<FunctionAnalysis>, a: nat, b: nat)
    requires Analysed(cfg, image, h, functions)
    ensures a != 0 ==> (PristineFallthrough(cfg.isa, image, functions, b) == a <==> Falls(cfg.isa, image, functions, a, b))
  {
    if a != 0 && Containing(functions, b).Some? {
      var fn := Containing(functions, b).value.info;
      ContainedReady(cfg, image, h, functions, b);
      FallthroughIn(cfg.isa, image, fn, a, b);
    }
  }

  lemma ContainedReady(cfg: Config, image: Memory, h: History, functions: seq<FunctionAnalysis>, b: nat)
    requires Analysed(cfg, image, h, functions) && Containing(functions, b).Some?
    ensures var fn := Containing(functions, b).value.info; Ready(cfg, image, h, fn) && 0 < fn.start < fn.end < WORD
    ensures var fn := Containing(functions, b).value.info; fn.end <= cfg.base || cfg.base + |h.st.code| <= fn.start
  {
    hide Lawful, Maps.MapsOk, Maps.RemapExact, Preservation.Laid, Preservation.Separate, Cut;
  }

  lemma FallthroughIn(isa: Isa, image: Memory, fn: FunctionRange, a: nat, b: nat)
    requires 0 < fn.start < fn.end < WORD && InFunction(fn, b) && a != 0
    ensures Fallthrough(isa, Body(image, fn), fn.start, b - fn.start) == a <==> FallsIn(isa, image, fn, a, b)
  {
    hide Fetch;
    var body, x := Body(image, fn), b - fn.start;
    if FallsIn(isa, image, fn, a, b) {
      BeforeFinds(isa, body, 0, a - fn.start);
    }
    if Before(isa, body, 0, x).Some? {
      BeforeReached(isa, body, 0, x);
    }
  }

  /** A source of a step is an original address outside the stubs. */
  lemma SourceOutside(cfg: Config, image: Memory, h: History, functions: seq<FunctionAnalysis>, a: nat, b: nat)
    requires Analysed(cfg, image, h, functions) && (a in Sources(functions, b) || Falls(cfg.isa, image, functions, a, b))
    ensures a != 0 && (a < cfg.base || cfg.base + |h.st.code| <= a)
  {
    if Falls(cfg.isa, image, functions, a, b) {
      ContainedReady(cfg, image, h, functions, b);
    } else {
      hide Falls, Lawful, Maps.MapsOk, Maps.RemapExact, Preservation.Laid, Preservation.Separate, Cut;
      var k, site := SourceOf(functions, a, b);
      var fn := functions[k].info;
      assert Ready(cfg, image, h, fn);
      BranchIsReached(cfg.isa, Body(image, fn), fn.start, 0, site);
    }
  }

  /**
   For a step from a to b in a trace, by falling through within the function of b or by a direct branch or call: the
   candidates at b name a's true address with exactly the counter the thread held at a if and only if the step falls
   through or b is a counted leader. The gap is direct branches to targets that could not be instrumented.
   */
  lemma StepIsCandidate(cfg: Config, image: Memory, h: History, functions: seq<FunctionAnalysis>, leaders: set<nat>,
                        trace: seq<nat>, i: nat, first: Word)
    requires i + 1 < |trace| && Analysed(cfg, image, h, functions) && Maps.MapsOk(cfg, h)
    requires trace[i] in Sources(functions, trace[i + 1]) || Falls(cfg.isa, image, functions, trace[i], trace[i + 1])
    ensures var a, b := trace[i], trace[i + 1];
      Candidate(TrueOf(h.st, a), CounterAt(leaders, trace, i, first), b in leaders)
        in Candidates(cfg.isa, image, h.st, functions, leaders, b, CounterAt(leaders, trace, i + 1, first))
      <==> b in leaders || Falls(cfg.isa, image, functions, a, b)
  {
    hide Analysed, Falls, Maps.MapsOk, PristineFallthrough;
    var a, b := trace[i], trace[i + 1];
    var c, c' := CounterAt(leaders, trace, i, first), CounterAt(leaders, trace, i + 1, first);
    assert CounterBefore(leaders, b, c') == c;
    SourceOutside(cfg, image, h, functions, a, b);
    FallthroughIs(cfg, image, h, functions, a, b);
    var from := PristineFallthrough(cfg.isa, image, functions, b);
    FallthroughIs(cfg, image, h, functions, from, b);
    CandidatesHave(Sources(functions, b), c, b in leaders, Candidate(TrueOf(h.st, a), c, b in leaders));
    if a in Sources(functions, b) {
      BranchNotDisplaced(cfg, image, h, functions, a, b);
    }
    if from != 0 && TrueOf(h.st, from) == TrueOf(h.st, a) {
      SourceOutside(cfg, image, h, functions, from, b);
      TrueInjective(cfg, h, from, a);
    }
  }

  /** Every candidate is the true address of an instruction that falls through or branches to b. */
  lemma CandidatesAreReal(cfg: Config, image: Memory, h: History, functions: seq<FunctionAnalysis>, leaders: set<nat>, b: nat, counter: Word, c: Candidate)
    requires Analysed(cfg, image, h, functions) && c in Candidates(cfg.isa, image, h.st, functions, leaders, b, counter)
    ensures exists a :: c.address == TrueOf(h.st, a) && (a in Sources(functions, b) || Falls(cfg.isa, image, functions, a, b))
  {
    hide Analysed, Falls, PristineFallthrough;
    var from := PristineFallthrough(cfg.isa, image, functions, b);
    FallthroughIs(cfg, image, h, functions, from, b);
    CandidatesHave(Sources(functions, b), CounterBefore(leaders, b, counter), b in leaders, c);
    if c.address in Sources(functions, b) {
      BranchNotDisplaced(cfg, image, h, functions, c.address, b);
    }
  }
}
