/** The patched program against the pristine one. */
module Preservation {
  import opened Options
  import opened Words
  import opened Processor
  import Stub = CounterStub
  import opened InstructionSet
  import opened Relocation
  import opened Instrumentation
  import Maps = AddressMaps
  import opened Execution

  type Placement = Maps.Placement
  type History = Maps.History
  type Block = Maps.Block

  // ---- what is placed for a block --------------------------------------------------------------------------------------------

  /** The displaced instructions as they stand in the pristine image. */
  function Leading(image: Memory, p: Placement): seq<Byte>
    requires p.start < WORD && Total(p.forms) <= 19
  {
    Fetch(image, p.start, Total(p.forms))
  }

  ghost predicate Built(cfg: Config, image: Memory, p: Placement) {
    && DETOUR <= Total(p.forms) <= 19 && p.start + Total(p.forms) < WORD
    && Shapely(p.forms) && Short(p.forms)
    && Decodes(cfg.isa, Leading(image, p), p.forms)
    && MovedAll(Leading(image, p), p.forms, p.start, cfg.base + p.mark + Stub.STUB_LENGTH) == Some(p.moved)
    && Detour(p.start, cfg.base + p.mark, Total(p.forms)) == Some(p.detour)
    && |p.moved| == Total(p.forms)
  }

  lemma {:induction false} DecodesPrefix(isa: Isa, b: seq<Byte>, forms: seq<Form>, from: nat, to: nat)
    requires Lawful(isa) && Decodes(isa, b, forms) && Total(forms) <= |b| && Shapely(forms)
    ensures var c := b[..Total(forms)];
      Decodes(isa, c, forms) && Short(forms) && MovedAll(c, forms, from, to) == MovedAll(b, forms, from, to)
    decreases |forms|
  {
    hide Lawful, Moved;
    if forms != [] {
      var n, c := forms[0].length, b[..Total(forms)];
      assert forall i :: 0 < i < |forms| ==> forms[i] == forms[1..][i - 1];
      DecodesTotal(isa, b[n..], forms[1..]);
      DecodesPrefix(isa, b[n..], forms[1..], from + n, to + n);
      DecodeBounds(isa, b);
      DecodeLocal(isa, b, c);
      assert c[..n] == b[..n] && c[n..] == b[n..][..Total(forms[1..])];
    }
  }

  lemma AttemptBuilds(cfg: Config, mark: nat, image: Memory, b: Block)
    requires Lawful(cfg.isa) && b.start <= b.end < WORD && Attempt(cfg, mark, image, b.start, b.end).Done?
    ensures var o := Attempt(cfg, mark, image, b.start, b.end); Built(cfg, image, Maps.Placement(b.start, o.forms, o.moved, o.detour, mark))
    ensures b.start + Total(Attempt(cfg, mark, image, b.start, b.end).forms) <= b.end
  {
    var o, buf := Attempt(cfg, mark, image, b.start, b.end), Head(image, b.start, b.end);
    var p := Maps.DonePlacement(cfg, mark, image, b);
    GrowFits(cfg.isa, buf, b.end - b.start, 0);
    assert buf[0..] == buf;
    hide Lawful, Grow, Decodes, MovedAll;
    DecodesShapely(cfg.isa, buf, o.forms);
    DecodesPrefix(cfg.isa, buf, o.forms, b.start, cfg.base + mark + Stub.STUB_LENGTH);
    assert Leading(image, p) == buf[..Total(o.forms)];
  }

  function StubCode(cfg: Config, p: Placement): seq<Byte> {
    Stub.TlsIncrement(cfg.counter, cfg.target) + p.moved + AbsoluteJump(p.start + Total(p.forms))
  }

  ghost predicate Stored(cfg: Config, st: Staged, p: Placement) {
    && p.mark + |StubCode(cfg, p)| <= |st.code|
    && st.code[p.mark..p.mark + |StubCode(cfg, p)|] == StubCode(cfg, p)
  }

  /** The stubs lie one after the other in the staged code, and the detours are the patches, in the same order. */
  ghost predicate Laid(cfg: Config, image: Memory, h: History) {
    && |h.st.patches| == |h.sites|
    && (forall i: nat :: i < |h.sites| ==>
          Built(cfg, image, h.sites[i]) && Stored(cfg, h.st, h.sites[i]) && h.st.patches[i] == (h.sites[i].start, h.sites[i].detour))
    && (forall i, j :: 0 <= i < j < |h.sites| ==> h.sites[i].mark + |StubCode(cfg, h.sites[i])| <= h.sites[j].mark)
  }

  lemma {:induction false} AlwaysLaid(cfg: Config, image: Memory, blocks: seq<Block>)
    requires Lawful(cfg.isa) && Maps.InRange(blocks)
    ensures Laid(cfg, image, Maps.Calls(cfg, image, blocks))
  {
    hide Lawful;
    if blocks != [] {
      var front, b := blocks[..|blocks| - 1], blocks[|blocks| - 1];
      AlwaysLaid(cfg, image, front);
      ExtendLays(cfg, image, Maps.Calls(cfg, image, front), b);
    }
  }

  lemma ExtendLays(cfg: Config, image: Memory, h: History, b: Block)
    requires Lawful(cfg.isa) && b.start <= b.end < WORD && Laid(cfg, image, h)
    ensures Laid(cfg, image, Maps.Extend(cfg, h, image, b))
  {
    hide Lawful, Built, Stub.TlsIncrement, AbsoluteJump, DisplacedRemap, DisplacedOriginals, StubOriginals, StubFixes;
    var h', mark := Maps.Extend(cfg, h, image, b), |h.st.code|;
    if Attempt(cfg, mark, image, b.start, b.end).Done? {
      AttemptBuilds(cfg, mark, image, b);
      hide Attempt;
      var p := h'.sites[|h.sites|];
      assert h'.st.code == h.st.code + StubCode(cfg, p);
      forall i: nat | i < |h'.sites| ensures Built(cfg, image, h'.sites[i]) && Stored(cfg, h'.st, h'.sites[i]) {
        if i < |h.sites| {
          assert Stored(cfg, h.st, h.sites[i]);
        }
      }
    } else {
      Maps.FailureChangesNothing(cfg, h.st, image, b.start, b.end);
      hide Attempt;
    }
  }

  // ---- the committed image ------------------------------------------------------------------------------------------------------

  predicate Covers(a: nat, b: seq<Byte>, x: nat) {
    a <= x < a + |b|
  }

  lemma WriteAtIs(m: Memory, a: nat, b: seq<Byte>, x: Word)
    requires a + |b| <= WORD
    ensures WriteAt(m, a, b)[x] == if Covers(a, b, x) then b[x - a] else m[x]
  {
  }

  lemma {:induction false} PatchesLeave(m: Memory, patches: seq<(nat, seq<Byte>)>, x: Word)
    requires forall i :: 0 <= i < |patches| ==> !Covers(patches[i].0, patches[i].1, x)
    ensures WritePatches(m, patches)[x] == m[x]
  {
    hide WriteAt;
    if patches != [] {
      var front, last := patches[..|patches| - 1], patches[|patches| - 1];
      PatchesLeave(m, front, x);
      if last.0 + |last.1| <= WORD {
        WriteAtIs(WritePatches(m, front), last.0, last.1, x);
      } else {
        TooLong(WritePatches(m, front), last.0, last.1);
      }
    }
  }

  lemma TooLong(m: Memory, a: nat, b: seq<Byte>)
    requires a + |b| > WORD
    ensures WriteAt(m, a, b) == m
  {
  }

  lemma {:induction false} PatchesWrite(m: Memory, patches: seq<(nat, seq<Byte>)>, i: nat, x: Word)
    requires i < |patches| && Covers(patches[i].0, patches[i].1, x) && patches[i].0 + |patches[i].1| <= WORD
    requires forall j :: i < j < |patches| ==> !Covers(patches[j].0, patches[j].1, x)
    ensures WritePatches(m, patches)[x] == patches[i].1[x - patches[i].0]
  {
    hide WriteAt;
    var front, last := patches[..|patches| - 1], patches[|patches| - 1];
    if i < |patches| - 1 {
      PatchesWrite(m, front, i, x);
      if last.0 + |last.1| <= WORD {
        WriteAtIs(WritePatches(m, front), last.0, last.1, x);
      } else {
        TooLong(WritePatches(m, front), last.0, last.1);
      }
    } else {
      WriteAtIs(WritePatches(m, front), last.0, last.1, x);
    }
  }

  predicate InLeader(p: Placement, x: nat) {
    p.start <= x < p.start + Total(p.forms)
  }

  /** No two leaders overlap, and the region for the stubs is apart from them. */
  ghost predicate Separate(cfg: Config, h: History) {
    && 0 < cfg.base && cfg.base + |h.st.code| < WORD && cfg.counter < 0x8000_0000 && cfg.target < 0x8000_0000
    && (forall i, j, x: nat :: 0 <= i < j < |h.sites| && InLeader(h.sites[i], x) ==> !InLeader(h.sites[j], x))
    && (forall i, x: nat :: 0 <= i < |h.sites| && InLeader(h.sites[i], x) ==> x < cfg.base || cfg.base + |h.st.code| <= x)
  }

  function CommittedImage(cfg: Config, image: Memory, h: History): Memory {
    Committed(image, cfg.base, h.st)
  }

  lemma PatchCovers(cfg: Config, image: Memory, h: History, i: nat, x: nat)
    requires Laid(cfg, image, h) && i < |h.sites|
    ensures h.st.patches[i] == (h.sites[i].start, h.sites[i].detour)
    ensures Covers(h.st.patches[i].0, h.st.patches[i].1, x) <==> InLeader(h.sites[i], x)
  {
    assert Built(cfg, image, h.sites[i]);
  }

  /** Every byte of the committed image is a detour's, a stub's or the pristine one. */
  lemma CommittedBytes(cfg: Config, image: Memory, h: History, x: Word)
    requires Laid(cfg, image, h) && Separate(cfg, h)
    ensures forall i: nat :: i < |h.sites| && InLeader(h.sites[i], x) ==> CommittedImage(cfg, image, h)[x] == h.sites[i].detour[x - h.sites[i].start]
    ensures cfg.base <= x < cfg.base + |h.st.code| ==> CommittedImage(cfg, image, h)[x] == h.st.code[x - cfg.base]
    ensures (x < cfg.base || cfg.base + |h.st.code| <= x) && (forall i: nat :: i < |h.sites| ==> !InLeader(h.sites[i], x)) ==>
      CommittedImage(cfg, image, h)[x] == image[x]
  {
    hide WritePatches, WriteAt, Built, Stored;
    var m := WriteAt(image, cfg.base, h.st.code);
    forall i: nat | i < |h.sites| ensures Covers(h.st.patches[i].0, h.st.patches[i].1, x) <==> InLeader(h.sites[i], x) {
      PatchCovers(cfg, image, h, i, x);
    }
    WriteAtIs(image, cfg.base, h.st.code, x);
    if i: nat :| i < |h.sites| && InLeader(h.sites[i], x) {
      PatchCovers(cfg, image, h, i, x);
      LeaderInside(cfg, image, h, i);
      PatchesWrite(m, h.st.patches, i, x);
    } else {
      PatchesLeave(m, h.st.patches, x);
    }
  }

  lemma LeaderInside(cfg: Config, image: Memory, h: History, i: nat)
    requires Laid(cfg, image, h) && i < |h.sites|
    ensures h.sites[i].start + Total(h.sites[i].forms) < WORD && |h.sites[i].detour| == Total(h.sites[i].forms) >= DETOUR
  {
    assert Built(cfg, image, h.sites[i]);
  }

  lemma DetourLies(cfg: Config, image: Memory, h: History, i: nat)
    requires Laid(cfg, image, h) && Separate(cfg, h) && i < |h.sites|
    ensures Lies(CommittedImage(cfg, image, h), h.sites[i].start, h.sites[i].detour)
  {
    hide CommittedImage, Separate;
    var p := h.sites[i];
    LeaderInside(cfg, image, h, i);
    hide Laid;
    forall k | 0 <= k < |p.detour| ensures CommittedImage(cfg, image, h)[p.start + k] == p.detour[k] {
      CommittedBytes(cfg, image, h, p.start + k);
      assert InLeader(p, p.start + k);
    }
  }

  lemma StubLies(cfg: Config, image: Memory, h: History, i: nat)
    requires Laid(cfg, image, h) && Separate(cfg, h) && i < |h.sites|
    ensures var p := h.sites[i]; p.mark + |StubCode(cfg, p)| <= |h.st.code| && Lies(CommittedImage(cfg, image, h), cfg.base + p.mark, StubCode(cfg, p))
  {
    hide CommittedImage, StubCode, Built;
    var p := h.sites[i];
    assert Stored(cfg, h.st, p);
    forall x: Word | cfg.base <= x < cfg.base + |h.st.code| ensures CommittedImage(cfg, image, h)[x] == h.st.code[x - cfg.base] {
      CommittedBytes(cfg, image, h, x);
    }
    hide Laid, Separate;
    SliceLies(CommittedImage(cfg, image, h), cfg.base, h.st.code, p.mark, StubCode(cfg, p));
  }

  lemma SliceLies(m: Memory, base: nat, code: seq<Byte>, mark: nat, b: seq<Byte>)
    requires base + |code| < WORD && mark + |b| <= |code| && code[mark..mark + |b|] == b
    requires forall x: Word :: base <= x < base + |code| ==> m[x] == code[x - base]
    ensures Lies(m, base + mark, b)
  {
    forall k | 0 <= k < |b| ensures m[base + mark + k] == b[k] {
      assert code[mark..mark + |b|][k] == code[mark + k];
    }
  }

  // ---- running the patched program -----------------------------------------------------------------------------------------------

  /** Where a piece of the stub's code lies. */
  lemma PartLies(code: Memory, a: Word, b: seq<Byte>, off: nat, n: nat)
    requires Lies(code, a, b) && off + n <= |b|
    ensures Lies(code, a + off, b[off..off + n])
  {
  }

  lemma DetourJumps(isa: Isa, code: Memory, s: Cpu, dest: nat, length: nat)
    requires Lawful(isa) && length >= DETOUR && dest < WORD && Detour(s.rip, dest, length).Some?
    requires Lies(code, s.rip, Detour(s.rip, dest, length).value)
    ensures Step(isa, code, s) == s.(rip := dest)
    ensures forall k :: 5 <= k < length ==> Detour(s.rip, dest, length).value[k] == 0x90
  {
    hide Lawful, Encode32;
    var b, rel, w := Detour(s.rip, dest, length).value, dest - (s.rip + 5), Window(code, s);
    WindowLies(code, s, b, 5);
    Encode32RoundTrip(rel);
    assert b[..5] == [0xE9] + Encode32(rel);
    assert w[0] == w[..5][0] && w[1..5] == w[..5][1..5] == Encode32(rel);
    assert Known(w) == Some(Decoded(JumpRelative(rel), 5));
  }

  lemma KnownAbsolute(w: seq<Byte>)
    requires |w| == 15 && w[..6] == [0xFF, 0x25, 0, 0, 0, 0]
    ensures Known(w) == Some(Decoded(JumpMemory(0), 6))
  {
    assert w[0] == w[..6][0] && w[1] == w[..6][1];
    assert w[..2] == [0xFF, 0x25];
    assert w[2..6] == w[..6][2..6] == [0, 0, 0, 0];
    ZeroDisplacement();
  }

  lemma DestinationLies(code: Memory, a: Word, dest: Word)
    requires Lies(code, a, AbsoluteJump(dest))
    ensures Load(code, a + 6) == Encode(8, dest)
  {
    hide Encode;
    forall i | 0 <= i < 8 ensures Load(code, a + 6)[i] == Encode(8, dest)[i] {
      assert AbsoluteJump(dest)[6 + i] == Encode(8, dest)[i];
    }
  }

  lemma JumpBack(isa: Isa, code: Memory, s: Cpu, dest: Word)
    requires Lawful(isa) && Lies(code, s.rip, AbsoluteJump(dest))
    ensures Step(isa, code, s) == s.(rip := dest)
  {
    hide Lawful, Encode, Known, Lies, Load, Window;
    var b, w := AbsoluteJump(dest), Window(code, s);
    assert s.rip + 14 < WORD by { JumpFits(code, s.rip, dest); }
    WindowLies(code, s, b, 6);
    assert b[..6] == [0xFF, 0x25, 0, 0, 0, 0];
    KnownAbsolute(w);
    DestinationLies(code, s.rip, dest);
    WordPower();
    ValueOfEncode(8, dest);
  }

  lemma JumpFits(code: Memory, a: Word, dest: Word)
    requires Lies(code, a, AbsoluteJump(dest))
    ensures a + 14 < WORD
  {
  }

  lemma ZeroDisplacement()
    ensures Signed32([0, 0, 0, 0]) == 0
  {
    Encode32RoundTrip(0);
    assert Encode32(0) == [0, 0, 0, 0];
  }

  lemma CorrectedIsKnown(site: Stub.Site, entry: Cpu, s: Cpu)
    requires Stub.SiteOk(site) && Stub.Corrected(site, entry, s)
    ensures Known(Window(site.code, s)).Some?
  {
    var off := s.rip - site.base;
    Maps.IsOffset(off);
    var j: nat :| j < 13 && off == StubOffset(j);
    assert Stub.Listing(site.counter, site.target)[j].0 == StubOffset(j);
    hide Known, Window, Stub.TlsIncrement, Stub.Placed;
    Stub.Disassembled(site.code, site.base, site.counter, site.target, j, s);
  }

  lemma {:induction false} StubRun(isa: Isa, site: Stub.Site, s: Cpu, n: nat)
    requires Lawful(isa) && Stub.SiteOk(site)
    requires forall k: nat :: k < n ==> Stub.Corrected(site, s, Steps(site.code, s, k))
    ensures Run(isa, site.code, s, n) == Steps(site.code, s, n)
  {
    hide Lawful, Stub.Corrected, Stub.SiteOk, Known, Window, Next;
    if n > 0 {
      StubRun(isa, site, s, n - 1);
      CorrectedIsKnown(site, s, Steps(site.code, s, n - 1));
    }
  }

  // ---- the theorem ------------------------------------------------------------------------------------------------------------------

  function LeaderActs(image: Memory, p: Placement): seq<Act>
    requires p.start + Total(p.forms) < WORD && Total(p.forms) <= 19 && Shapely(p.forms) && Short(p.forms)
  {
    Acts(Leading(image, p), p.forms, p.start)
  }

  function StubSite(cfg: Config, image: Memory, h: History, p: Placement): Stub.Site
    requires cfg.base + p.mark < WORD
  {
    Stub.Site(CommittedImage(cfg, image, h), cfg.base + p.mark, cfg.counter, cfg.target)
  }

  lemma SiteReady(cfg: Config, image: Memory, h: History, i: nat)
    requires Laid(cfg, image, h) && Separate(cfg, h) && i < |h.sites|
    ensures var p := h.sites[i]; Built(cfg, image, p) && cfg.base + p.mark + |StubCode(cfg, p)| < WORD && Stub.SiteOk(StubSite(cfg, image, h, p))
    ensures var p, q := h.sites[i], CommittedImage(cfg, image, h); var to := cfg.base + p.mark + Stub.STUB_LENGTH;
      && Lies(q, to, p.moved) && Lies(q, to + Total(p.forms), AbsoluteJump(p.start + Total(p.forms)))
  {
    hide CommittedImage, Separate, Decodes, MovedAll, Detour, Stub.TlsIncrement, AbsoluteJump;
    var p, q := h.sites[i], CommittedImage(cfg, image, h);
    assert cfg.base + |h.st.code| < WORD && cfg.counter < 0x8000_0000 && cfg.target < 0x8000_0000 by { SeparateBounds(cfg, h); }
    StubLies(cfg, image, h, i);
    assert Built(cfg, image, p);
    var b, n := StubCode(cfg, p), Stub.STUB_LENGTH;
    PartLies(q, cfg.base + p.mark, b, 0, n);
    PartLies(q, cfg.base + p.mark, b, n, |p.moved|);
    PartLies(q, cfg.base + p.mark, b, n + |p.moved|, 14);
    assert b[0..n] == Stub.TlsIncrement(cfg.counter, cfg.target);
    assert b[n..n + |p.moved|] == p.moved;
    assert b[n + |p.moved|..n + |p.moved| + 14] == AbsoluteJump(p.start + Total(p.forms));
  }

  lemma SeparateBounds(cfg: Config, h: History)
    requires Separate(cfg, h)
    ensures cfg.base + |h.st.code| < WORD && cfg.counter < 0x8000_0000 && cfg.target < 0x8000_0000
  {
  }

  /** The stub of a site is where the committed image says, and its displaced instructions are those of the pristine block. */
  ghost predicate InPlace(cfg: Config, image: Memory, h: History, i: nat) {
    && i < |h.sites| && Built(cfg, image, h.sites[i]) && cfg.base + h.sites[i].mark + |StubCode(cfg, h.sites[i])| < WORD
    && Stub.SiteOk(StubSite(cfg, image, h, h.sites[i]))
  }

  /**
   What is asked of the block and of the thread that enters it: its leading instructions do not depend on where they
   stand, nor, run from that state, at any point on the counter or on data below RSP, and the thread's slots are apart from its stack.
   */
  ghost predicate Undisturbed(cfg: Config, image: Memory, h: History, i: nat, s: Cpu)
    requires InPlace(cfg, image, h, i)
  {
    var p, site := h.sites[i], StubSite(cfg, image, h, h.sites[i]);
    && s.rip == p.start
    && Stub.SlotsApart(site, s)
    && AllMovable(cfg.isa, LeaderActs(image, p))
    && forall j: nat :: j <= |LeaderActs(image, p)| ==> Insensitive(cfg.isa, LeaderActs(image, p)[..j], Stub.Counter(site, s), s)
  }

  /** The detour lands exactly on the stub. */
  lemma EntersStub(cfg: Config, image: Memory, h: History, i: nat, s: Cpu)
    requires Lawful(cfg.isa) && Laid(cfg, image, h) && Separate(cfg, h) && i < |h.sites|
    requires s.rip == h.sites[i].start && cfg.base + h.sites[i].mark < WORD
    ensures Run(cfg.isa, CommittedImage(cfg, image, h), s, 1) == s.(rip := cfg.base + h.sites[i].mark)
  {
    hide Lawful, CommittedImage, Step;
    var p, q := h.sites[i], CommittedImage(cfg, image, h);
    assert Built(cfg, image, p);
    hide Built;
    DetourLies(cfg, image, h, i);
    DetourJumps(cfg.isa, q, s, cfg.base + p.mark, Total(p.forms));
    assert Run(cfg.isa, q, s, 0) == s;
  }

  /** Through the detour and the counting part: only the counter, the scratch bytes and the stops differ. */
  lemma CountsOnce(cfg: Config, image: Memory, h: History, i: nat, s: Cpu)
    requires Lawful(cfg.isa) && Laid(cfg, image, h) && Separate(cfg, h) && i < |h.sites|
    requires s.rip == h.sites[i].start && cfg.base + h.sites[i].mark < WORD
    requires var site := StubSite(cfg, image, h, h.sites[i]); Stub.SiteOk(site) && Stub.SlotsApart(site, s)
    ensures var p, site := h.sites[i], StubSite(cfg, image, h, h.sites[i]);
      var slot, t := Stub.Counter(site, s), Run(cfg.isa, site.code, s, 1 + Stub.StubSteps(site, s));
      && t.rip == site.base + Stub.STUB_LENGTH
      && Alike(slot, s.rsp, s, t.(rip := s.rip))
      && ValueAt(t.memory, slot) == (ValueAt(s.memory, slot) + 1) % WORD
      && t.traps == s.traps + Bit(ValueAt(t.memory, slot) >= ValueAt(s.memory, Stub.Target(site, s)))
  {
    hide Lawful, CommittedImage, StubCode, Next, Step, Stub.TlsIncrement, Stub.Placed, Stub.Corrected, Stub.SlotsApart, Load;
    var p, site := h.sites[i], StubSite(cfg, image, h, h.sites[i]);
    var s1 := s.(rip := site.base);
    EntersStub(cfg, image, h, i, s);
    SameSlots(site, s, s1);
    Stub.StubCounts(site, s1);
    var n := Stub.StubSteps(site, s1);
    StubRun(cfg.isa, site, s1, n);
    RunSplit(cfg.isa, site.code, s, 1, n);
    var t := Run(cfg.isa, site.code, s, 1 + n);
    forall a: Word | !InSlot(Stub.Counter(site, s), a) && Wrap(s.rsp - 1 - a) >= 16 ensures s.memory[a] == t.memory[a] {
      assert !Stub.Scratch(s1, a);
    }
  }

  lemma SameSlots(site: Stub.Site, s: Cpu, t: Cpu)
    requires Stub.SiteOk(site) && Stub.SlotsApart(site, s) && t == s.(rip := t.rip)
    ensures Stub.SlotsApart(site, t) && Stub.Counter(site, t) == Stub.Counter(site, s) && Stub.StubSteps(site, t) == Stub.StubSteps(site, s)
    ensures Stub.Target(site, t) == Stub.Target(site, s)
  {
    hide Stub.TlsIncrement, Stub.Placed, Apart, ValueAt;
  }

  /** The patched program after the detour, the counting part and j displaced instructions. */
  ghost function Inside(cfg: Config, image: Memory, h: History, i: nat, s: Cpu, j: nat): Cpu
    requires Lawful(cfg.isa) && InPlace(cfg, image, h, i)
  {
    var site := StubSite(cfg, image, h, h.sites[i]);
    Run(cfg.isa, site.code, s, 1 + Stub.StubSteps(site, s) + j)
  }

  /** The thread at the block's start with the stub's effect on memory and stops. */
  ghost function Stubbed(cfg: Config, image: Memory, h: History, i: nat, s: Cpu): Cpu
    requires Lawful(cfg.isa) && InPlace(cfg, image, h, i)
  {
    Inside(cfg, image, h, i, s, 0).(rip := s.rip)
  }

  /** The thread is about to enter a block whose leading instructions can be moved, its slots apart from its stack. */
  ghost predicate Enters(cfg: Config, image: Memory, h: History, i: nat, s: Cpu)
    requires InPlace(cfg, image, h, i)
  {
    && s.rip == h.sites[i].start
    && Stub.SlotsApart(StubSite(cfg, image, h, h.sites[i]), s)
    && AllMovable(cfg.isa, LeaderActs(image, h.sites[i]))
  }

  /** The stub changes the counter, the 16 bytes below RSP and the stops, and nothing else. */
  ghost predicate OneMore(cfg: Config, image: Memory, h: History, i: nat, s: Cpu, t: Cpu)
    requires InPlace(cfg, image, h, i)
  {
    var site := StubSite(cfg, image, h, h.sites[i]);
    var slot := Stub.Counter(site, s);
    && Alike(slot, s.rsp, s, t)
    && ValueAt(t.memory, slot) == (ValueAt(s.memory, slot) + 1) % WORD
    && t.traps == s.traps + Bit(ValueAt(t.memory, slot) >= ValueAt(s.memory, Stub.Target(site, s)))
  }

  /** Each displaced instruction is executed exactly as in the pristine program from the stubbed state. */
  lemma LeaderIsExact(cfg: Config, image: Memory, h: History, i: nat, s: Cpu, j: nat)
    requires Lawful(cfg.isa) && Laid(cfg, image, h) && Separate(cfg, h) && InPlace(cfg, image, h, i) && Enters(cfg, image, h, i, s)
    requires j <= |h.sites[i].forms|
    ensures OneMore(cfg, image, h, i, s, Stubbed(cfg, image, h, i, s))
    ensures var p := h.sites[i]; var off, pristine := Total(p.forms[..j]), Run(cfg.isa, image, Stubbed(cfg, image, h, i, s), j);
      && off <= Total(p.forms) && pristine.rip == p.start + off
      && Inside(cfg, image, h, i, s, j) == pristine.(rip := cfg.base + p.mark + Stub.STUB_LENGTH + off)
  {
    hide Lawful, CommittedImage, Step, Do, Acts, Movable, AllMovable, Laid, Separate, Decodes, MovedAll, Detour, Stub.SlotsApart, Load, ValueAt;
    var p, site := h.sites[i], StubSite(cfg, image, h, h.sites[i]);
    var acts, n1 := LeaderActs(image, p), 1 + Stub.StubSteps(site, s);
    CountsOnce(cfg, image, h, i, s);
    var t, u := Run(cfg.isa, site.code, s, n1), Stubbed(cfg, image, h, i, s);
    assert u == t.(rip := s.rip);
    LeadingLies(image, p);
    PlainRun(cfg.isa, image, u, Leading(image, p), p.forms, j);
    DisplacedRun(cfg, image, h, i, t, j);
    RunSplit(cfg.isa, site.code, s, n1, j);
    PrefixMovable(cfg.isa, acts, j);
    DoMoves(cfg.isa, acts[..j], t, s.rip);
  }

  /** Past the jump back the thread is exactly where the pristine program takes it from the stubbed state. */
  lemma BlockIsExact(cfg: Config, image: Memory, h: History, i: nat, s: Cpu)
    requires Lawful(cfg.isa) && Laid(cfg, image, h) && Separate(cfg, h) && InPlace(cfg, image, h, i) && Enters(cfg, image, h, i, s)
    ensures OneMore(cfg, image, h, i, s, Stubbed(cfg, image, h, i, s))
    ensures var n := |h.sites[i].forms|;
      Inside(cfg, image, h, i, s, n + 1) == Run(cfg.isa, image, Stubbed(cfg, image, h, i, s), n)
  {
    hide Lawful, Laid, Separate, CommittedImage, Step, Enters, OneMore, StubCode, Stub.SiteOk, Stub.Counter, Stub.StubSteps, Stub.Target;
    var p, n := h.sites[i], |h.sites[i].forms|;
    assert p.start + Total(p.forms) < WORD;
    SiteReady(cfg, image, h, i);
    LeaderIsExact(cfg, image, h, i, s, n);
    assert p.forms[..n] == p.forms;
    hide Built, LeaderActs;
    JumpBack(cfg.isa, StubSite(cfg, image, h, p).code, Inside(cfg, image, h, i, s, n), p.start + Total(p.forms));
  }

  /** Every displaced instruction is executed in the state it has in the pristine program, but for counter and scratch bytes. */
  lemma LeaderAgrees(cfg: Config, image: Memory, h: History, i: nat, s: Cpu, j: nat)
    requires Lawful(cfg.isa) && Laid(cfg, image, h) && Separate(cfg, h) && InPlace(cfg, image, h, i) && Undisturbed(cfg, image, h, i, s)
    requires j <= |h.sites[i].forms|
    ensures var p, site := h.sites[i], StubSite(cfg, image, h, h.sites[i]);
      var slot, off := Stub.Counter(site, s), Total(p.forms[..j]);
      var pristine, patched := Run(cfg.isa, image, s, j), Inside(cfg, image, h, i, s, j);
      && off <= Total(p.forms)
      && pristine.rip == p.start + off && patched.rip == site.base + Stub.STUB_LENGTH + off
      && Alike(slot, s.rsp, pristine, patched.(rip := pristine.rip))
      && ValueAt(patched.memory, slot) == (ValueAt(pristine.memory, slot) + 1) % WORD
      && patched.traps == pristine.traps + Bit(ValueAt(patched.memory, slot) >= ValueAt(s.memory, Stub.Target(site, s)))
  {
    hide Lawful, CommittedImage, Step, Do, Acts, Movable, AllMovable, Laid, Separate, Insensitive, Decodes, MovedAll, Detour, Stub.SlotsApart, Load, ValueAt;
    var p, u := h.sites[i], Stubbed(cfg, image, h, i, s);
    LeaderIsExact(cfg, image, h, i, s, j);
    LeadingLies(image, p);
    PlainRun(cfg.isa, image, s, Leading(image, p), p.forms, j);
    PlainRun(cfg.isa, image, u, Leading(image, p), p.forms, j);
    LeaderAlike(cfg.isa, LeaderActs(image, p)[..j], Stub.Counter(StubSite(cfg, image, h, p), s), s, u);
  }

  /** The displaced instructions act in the stub's place as the leader's own. */
  lemma DisplacedRun(cfg: Config, image: Memory, h: History, i: nat, t: Cpu, j: nat)
    requires Lawful(cfg.isa) && Laid(cfg, image, h) && Separate(cfg, h) && InPlace(cfg, image, h, i) && j <= |h.sites[i].forms|
    requires AllMovable(cfg.isa, LeaderActs(image, h.sites[i])) && t.rip == cfg.base + h.sites[i].mark + Stub.STUB_LENGTH
    ensures var p, q := h.sites[i], CommittedImage(cfg, image, h); var acts, off := LeaderActs(image, p), Total(p.forms[..j]);
      && |acts| == |p.forms| && off <= Total(p.forms)
      && Run(cfg.isa, q, t, j) == Do(cfg.isa, acts[..j], t).(rip := t.rip + off)
  {
    hide Lawful, CommittedImage, Step, Do, Acts, Movable, AllMovable, Laid, Separate, Decodes, MovedAll, Detour;
    var p := h.sites[i];
    SiteReady(cfg, image, h, i);
    LeadingLies(image, p);
    MovedActs(cfg.isa, Leading(image, p), p.forms, p.start, t.rip);
    PlainRun(cfg.isa, CommittedImage(cfg, image, h), t, p.moved, p.forms, j);
  }

  lemma LeadingLies(image: Memory, p: Placement)
    requires p.start + Total(p.forms) < WORD && Total(p.forms) <= 19
    ensures Lies(image, p.start, Leading(image, p)) && |Leading(image, p)| == Total(p.forms)
  {
  }

  lemma LeaderAlike(isa: Isa, acts: seq<Act>, slot: Word, s: Cpu, t: Cpu)
    requires Insensitive(isa, acts, slot, s) && Alike(slot, s.rsp, s, t)
    ensures Alike(slot, s.rsp, Do(isa, acts, s), Do(isa, acts, t))
    ensures ValueAt(Do(isa, acts, s).memory, slot) == ValueAt(s.memory, slot) && ValueAt(Do(isa, acts, t).memory, slot) == ValueAt(t.memory, slot)
    ensures Do(isa, acts, t).traps + s.traps == Do(isa, acts, s).traps + t.traps
  {
    hide Do, Load;
    assert Alike(slot, s.rsp, s, s);
  }

  /** The state past the block's leader: the pristine one, but for one more count, the scratch bytes and a stop at the target. */
  ghost predicate CountedOnce(cfg: Config, image: Memory, h: History, i: nat, s: Cpu)
    requires Lawful(cfg.isa) && InPlace(cfg, image, h, i)
  {
    var p, site := h.sites[i], StubSite(cfg, image, h, h.sites[i]);
    var slot, n := Stub.Counter(site, s), |p.forms|;
    var pristine, patched := Run(cfg.isa, image, s, n), Inside(cfg, image, h, i, s, n + 1);
    && pristine.rip == patched.rip == p.start + Total(p.forms)
    && Alike(slot, s.rsp, pristine, patched)
    && ValueAt(patched.memory, slot) == (ValueAt(pristine.memory, slot) + 1) % WORD
    && patched.traps == pristine.traps + Bit(ValueAt(patched.memory, slot) >= ValueAt(s.memory, Stub.Target(site, s)))
  }

  lemma BlockAgrees(cfg: Config, image: Memory, h: History, i: nat, s: Cpu)
    requires Lawful(cfg.isa) && Laid(cfg, image, h) && Separate(cfg, h) && InPlace(cfg, image, h, i) && Undisturbed(cfg, image, h, i, s)
    ensures CountedOnce(cfg, image, h, i, s)
  {
    hide Lawful, Laid, Separate, CommittedImage, Step, Stub.SlotsApart, StubCode, ValueAt, Insensitive, Movable, Stub.SiteOk, Stub.Counter, Stub.StubSteps, Stub.Target;
    var p, n := h.sites[i], |h.sites[i].forms|;
    assert p.start + Total(p.forms) < WORD;
    SiteReady(cfg, image, h, i);
    LeaderAgrees(cfg, image, h, i, s, n);
    assert p.forms[..n] == p.forms;
    hide Built, LeaderActs;
    JumpBack(cfg.isa, StubSite(cfg, image, h, p).code, Inside(cfg, image, h, i, s, n), p.start + Total(p.forms));
  }

  /**
   From the start of an instrumented block the patched program, by way of detour, stub, displaced instructions and jump
   back, reaches the address after the displaced instructions in the state the pristine program reaches there, but that
   the counter is one higher and that the 16 bytes below the entry's RSP may differ. It stops once more exactly when the
   counter has come up to its target. This holds for every block placed by any sequence of calls.
   */
  lemma PatchedProgramAgrees(cfg: Config, image: Memory, blocks: seq<Block>, i: nat, s: Cpu)
    requires Lawful(cfg.isa) && Maps.InRange(blocks) && i < |Maps.Calls(cfg, image, blocks).sites|
    requires Separate(cfg, Maps.Calls(cfg, image, blocks))
    ensures InPlace(cfg, image, Maps.Calls(cfg, image, blocks), i)
    ensures Undisturbed(cfg, image, Maps.Calls(cfg, image, blocks), i, s) ==> CountedOnce(cfg, image, Maps.Calls(cfg, image, blocks), i, s)
  {
    AlwaysLaid(cfg, image, blocks);
    hide *;
    var h := Maps.Calls(cfg, image, blocks);
    SiteReady(cfg, image, h, i);
    if Undisturbed(cfg, image, h, i, s) {
      BlockAgrees(cfg, image, h, i, s);
    }
  }

  // ---- what the debugger shows --------------------------------------------------------------------------------------------------------

  /** The address and stack pointer shown for a thread that is stopped at s. */
  ghost predicate Shows(st: Staged, s: Cpu, address: nat, rsp: Word) {
    OriginalOf(st, s.rip) == address && FixOf(st, s.rip) <= 16 && Wrap(s.rsp + FixOf(st, s.rip)) == rsp
  }

  lemma {:induction false} OffsetIsTotal(forms: seq<Form>, j: nat)
    requires j <= |forms|
    ensures Offset(forms, j) == Total(forms[..j])
  {
    if j > 0 {
      OffsetIsTotal(forms, j - 1);
      TotalSnoc(forms[..j - 1], forms[j - 1]);
      assert forms[..j] == forms[..j - 1] + [forms[j - 1]];
    }
  }

  lemma {:induction false} TotalSnoc(forms: seq<Form>, f: Form)
    ensures Total(forms + [f]) == Total(forms) + f.length
  {
    if forms != [] {
      assert (forms + [f])[1..] == forms[1..] + [f];
      TotalSnoc(forms[1..], f);
    } else {
      assert [f][1..] == [];
    }
  }

  lemma ShownInStub(cfg: Config, st: Staged, p: Placement, site: Stub.Site, entry: Cpu, s: Cpu)
    requires Stub.SiteOk(site) && site.base == cfg.base + p.mark && Stub.Corrected(site, entry, s)
    requires Maps.Answers(cfg, st, p, s.rip - site.base)
    ensures Shows(st, s, p.start, entry.rsp)
  {
    Maps.IsOffset(s.rip - site.base);
  }

  lemma ShownInLeader(cfg: Config, st: Staged, p: Placement, j: nat, s: Cpu)
    requires j <= |p.forms| && Total(p.forms[..j]) <= Total(p.forms) && Maps.Sized(p)
    requires s.rip == cfg.base + p.mark + Stub.STUB_LENGTH + Total(p.forms[..j])
    requires Maps.Answers(cfg, st, p, Stub.STUB_LENGTH + Total(p.forms[..j]))
    ensures Shows(st, s, p.start + Total(p.forms[..j]), s.rsp)
  {
    var off := Stub.STUB_LENGTH + Total(p.forms[..j]);
    OffsetIsTotal(p.forms, j);
    Maps.IsOffset(off);
    if j == |p.forms| {
      assert p.forms[..j] == p.forms;
    }
  }

  /**
   Wherever the thread stops inside an instrumented block, the debugger shows the pristine program: the block's start with
   the entry's RSP throughout the counting part, and then each displaced instruction at its original address with the
   stack pointer it has there.
   */
  lemma StopsLookPristine(cfg: Config, image: Memory, blocks: seq<Block>, i: nat, s: Cpu)
    requires Lawful(cfg.isa) && Maps.InRange(blocks) && Separate(cfg, Maps.Calls(cfg, image, blocks))
    requires InPlace(cfg, image, Maps.Calls(cfg, image, blocks), i) && Undisturbed(cfg, image, Maps.Calls(cfg, image, blocks), i, s)
    ensures var h := Maps.Calls(cfg, image, blocks); var p, site := h.sites[i], StubSite(cfg, image, h, h.sites[i]);
      && (forall k: nat :: 1 <= k <= Stub.StubSteps(site, s) ==> Shows(h.st, Run(cfg.isa, site.code, s, k), p.start, s.rsp))
      && (forall j: nat :: j <= |p.forms| ==>
            Shows(h.st, Inside(cfg, image, h, i, s, j), Run(cfg.isa, image, s, j).rip, Run(cfg.isa, image, s, j).rsp))
  {
    AlwaysLaid(cfg, image, blocks);
    Maps.MapsAlwaysOk(cfg, image, blocks);
    var h := Maps.Calls(cfg, image, blocks);
    StubShown(cfg, image, h, i, s);
    LeaderShown(cfg, image, h, i, s);
  }

  lemma StubShown(cfg: Config, image: Memory, h: History, i: nat, s: Cpu)
    requires Lawful(cfg.isa) && Laid(cfg, image, h) && Separate(cfg, h) && InPlace(cfg, image, h, i) && Undisturbed(cfg, image, h, i, s)
    requires Maps.MapsOk(cfg, h)
    ensures var p, site := h.sites[i], StubSite(cfg, image, h, h.sites[i]);
      forall k: nat :: 1 <= k <= Stub.StubSteps(site, s) ==> Shows(h.st, Run(cfg.isa, site.code, s, k), p.start, s.rsp)
  {
    hide Lawful, CommittedImage, StubCode, Next, Step, Stub.TlsIncrement, Stub.Placed, Stub.Corrected, Stub.SlotsApart, Load, Insensitive, Movable, Maps.Answers, Shows;
    var p, site := h.sites[i], StubSite(cfg, image, h, h.sites[i]);
    var s1 := s.(rip := site.base);
    EntersStub(cfg, image, h, i, s);
    SameSlots(site, s, s1);
    Stub.StubCounts(site, s1);
    assert Maps.SiteOk(cfg, h.st, p);
    forall k: nat | 1 <= k <= Stub.StubSteps(site, s) ensures Shows(h.st, Run(cfg.isa, site.code, s, k), p.start, s.rsp) {
      StubRun(cfg.isa, site, s1, k - 1);
      RunSplit(cfg.isa, site.code, s, 1, k - 1);
      var t := Steps(site.code, s1, k - 1);
      StopInside(site, s1, t, p);
      ShownInStub(cfg, h.st, p, site, s1, t);
    }
  }

  lemma StopInside(site: Stub.Site, entry: Cpu, s: Cpu, p: Placement)
    requires Stub.SiteOk(site) && Stub.Corrected(site, entry, s)
    ensures 0 <= s.rip - site.base < Maps.Size(p)
  {
    Maps.IsOffset(s.rip - site.base);
  }

  lemma LeaderShown(cfg: Config, image: Memory, h: History, i: nat, s: Cpu)
    requires Lawful(cfg.isa) && Laid(cfg, image, h) && Separate(cfg, h) && InPlace(cfg, image, h, i) && Undisturbed(cfg, image, h, i, s)
    requires Maps.MapsOk(cfg, h)
    ensures forall j: nat :: j <= |h.sites[i].forms| ==>
      Shows(h.st, Inside(cfg, image, h, i, s, j), Run(cfg.isa, image, s, j).rip, Run(cfg.isa, image, s, j).rsp)
  {
    var p := h.sites[i];
    assert Maps.SiteOk(cfg, h.st, p);
    forall j: nat | j <= |p.forms|
      ensures Shows(h.st, Inside(cfg, image, h, i, s, j), Run(cfg.isa, image, s, j).rip, Run(cfg.isa, image, s, j).rsp)
    {
      hide Lawful, CommittedImage, Laid, Separate, Step, ValueAt, Insensitive, Movable, Maps.Answers, Shows, Built, Stub.SiteOk, StubCode, Undisturbed;
      LeaderAgrees(cfg, image, h, i, s, j);
      assert Maps.Answers(cfg, h.st, p, Stub.STUB_LENGTH + Total(p.forms[..j]));
      ShownInLeader(cfg, h.st, p, j, Inside(cfg, image, h, i, s, j));
    }
  }
}
