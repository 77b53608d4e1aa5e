/** What the address maps hold after any sequence of placements. */
module AddressMaps {
  import opened Options
  import opened Words
  import opened Processor
  import opened CounterStub
  import opened InstructionSet
  import opened Relocation
  import opened Instrumentation

  datatype Block = Block(start: nat, end: nat)

  /** A placed stub: the block it counts, the displaced instructions as they were and as they are, and where it starts. */
  datatype Placement = Placement(start: nat, forms: seq<Form>, moved: seq<Byte>, detour: seq<Byte>, mark: nat)

  datatype History = History(st: Staged, sites: seq<Placement>)

  const EMPTY := Staged([], [], map[], map[], map[], [])

  ghost predicate InRange(blocks: seq<Block>) {
    forall i :: 0 <= i < |blocks| ==> blocks[i].start <= blocks[i].end < WORD
  }

  ghost function Extend(cfg: Config, h: History, image: Memory, b: Block): History
    requires Lawful(cfg.isa) && b.start <= b.end < WORD
  {
    var st := Instrument(cfg, h.st, image, b.start, b.end).0;
    match Attempt(cfg, |h.st.code|, image, b.start, b.end)
    case Done(forms, moved, detour) => History(st, h.sites + [Placement(b.start, forms, moved, detour, |h.st.code|)])
    case _ => History(st, h.sites)
  }

  /** The calls for some blocks, in order, all reading the image before any of it is changed. */
  ghost function Calls(cfg: Config, image: Memory, blocks: seq<Block>): History
    requires Lawful(cfg.isa) && InRange(blocks)
  {
    if blocks == [] then History(EMPTY, [])
    else Extend(cfg, Calls(cfg, image, blocks[..|blocks| - 1]), image, blocks[|blocks| - 1])
  }

  /** A call that places nothing leaves the code, the patches and every map as they were. */
  lemma FailureChangesNothing(cfg: Config, st: Staged, image: Memory, start: nat, end: nat)
    requires Lawful(cfg.isa) && start <= end < WORD
    ensures var (st', stub) := Instrument(cfg, st, image, start, end);
      && (stub == 0 <==> !Attempt(cfg, |st.code|, image, start, end).Done?)
      && (stub == 0 ==> st' == st.(skipped := st'.skipped) && (st'.skipped == st.skipped || st'.skipped == st.skipped + [start]))
  {
    hide Grow, Placing, Fetch, MovedAll, Detour, Lawful;
  }

  // ---- the extent of a stub ----------------------------------------------------------------------------------------------

  function Size(p: Placement): nat {
    STUB_LENGTH + Total(p.forms) + 14
  }

  predicate Sized(p: Placement) {
    forall i :: 0 <= i < |p.forms| ==> p.forms[i].length >= 1
  }

  lemma {:induction false} OffsetTotal(forms: seq<Form>)
    ensures Offset(forms, |forms|) == Total(forms)
  {
    if forms != [] {
      OffsetTotal(forms[1..]);
      OffsetShift(forms, |forms| - 1);
    }
  }

  lemma {:induction false} OffsetShift(forms: seq<Form>, k: nat)
    requires k < |forms|
    ensures Offset(forms, k + 1) == forms[0].length + Offset(forms[1..], k)
  {
    if k > 0 {
      OffsetShift(forms, k - 1);
      assert forms[1..][k - 1] == forms[k];
    }
  }

  lemma {:induction false} OffsetGrows(p: Placement, j: nat, k: nat)
    requires Sized(p) && j < k <= |p.forms|
    ensures Offset(p.forms, j) < Offset(p.forms, k)
    decreases k
  {
    if j < k - 1 {
      OffsetGrows(p, j, k - 1);
    }
  }

  /** The displaced instruction that starts at an offset. */
  function Index(forms: seq<Form>, off: nat, k: nat): (i: Option<nat>)
    requires k <= |forms|
    ensures i.Some? ==> i.value < k && Offset(forms, i.value) == off
    ensures i.None? ==> forall j :: 0 <= j < k ==> Offset(forms, j) != off
  {
    if k == 0 then None else if Offset(forms, k - 1) == off then Some(k - 1) else Index(forms, off, k - 1)
  }

  /** The original address a stub offset stands for: the block's start throughout the counting part. */
  function EntryOf(p: Placement, off: nat): Option<nat> {
    if off < STUB_LENGTH then (if RspFix(off).Some? then Some(p.start) else None)
    else if off == STUB_LENGTH + Total(p.forms) then Some(p.start + Total(p.forms))
    else if Index(p.forms, off - STUB_LENGTH, |p.forms|).Some? then Some(p.start + (off - STUB_LENGTH))
    else None
  }

  // ---- one placement ---------------------------------------------------------------------------------------------------------

  lemma {:induction false} StubOriginalsAt(originals: map<nat, nat>, stub: nat, start: nat, k: nat, t: nat)
    requires k <= 13
    ensures var m, hit := StubOriginals(originals, stub, start, k), exists j :: 0 <= j < k && t == stub + StubOffset(j);
      && (t in m <==> hit || t in originals)
      && (t in m ==> m[t] == if hit then start else originals[t])
  {
    hide StubOffset;
    if k > 0 {
      StubOriginalsAt(originals, stub, start, k - 1, t);
    }
  }

  lemma {:induction false} StubFixesAt(fixes: map<nat, nat>, stub: nat, k: nat, t: nat)
    requires k <= 13 && forall u :: u in fixes ==> u < stub
    ensures var m, hit := StubFixes(fixes, stub, k), exists j :: 0 <= j < k && t == stub + StubOffset(j);
      && (t in m <==> t in fixes || (hit && t > stub))
      && (t in m && t !in fixes ==> Some(m[t]) == RspFix(t - stub))
      && (t in fixes ==> m[t] == fixes[t])
  {
    hide StubOffset, RspFix;
    if k > 0 {
      StubFixesAt(fixes, stub, k - 1, t);
      IsOffset(StubOffset(k - 1));
    }
  }

  lemma IsOffset(off: nat)
    ensures RspFix(off).Some? <==> exists j :: 0 <= j < 13 && off == StubOffset(j)
    ensures RspFix(off).Some? ==> off < STUB_LENGTH
  {
    assert StubOffset(0) == 0x0 && StubOffset(1) == 0x1 && StubOffset(2) == 0x4 && StubOffset(3) == 0x5 && StubOffset(4) == 0xF;
    assert StubOffset(5) == 0x10 && StubOffset(6) == 0x19 && StubOffset(7) == 0x22 && StubOffset(8) == 0x24;
    assert StubOffset(9) == 0x25 && StubOffset(10) == 0x26 && StubOffset(11) == 0x28 && StubOffset(12) == 0x29;
  }

  lemma {:induction false} DisplacedOriginalsAt(originals: map<nat, nat>, forms: seq<Form>, from: nat, to: nat, k: nat, t: nat)
    requires k <= |forms|
    ensures var m, i := DisplacedOriginals(originals, forms, from, to, k), if t < to then None else Index(forms, t - to, k);
      && (t in m <==> i.Some? || t in originals)
      && (t in m ==> m[t] == if i.Some? then from + (t - to) else originals[t])
  {
    if k > 0 {
      DisplacedOriginalsAt(originals, forms, from, to, k - 1, t);
    }
  }

  lemma {:induction false} DisplacedRemapAt(remap: map<nat, (nat, nat)>, p: Placement, to: nat, k: nat, a: nat)
    requires k <= |p.forms| && Sized(p)
    ensures var m, i := DisplacedRemap(remap, p.forms, p.start, to, k), if a < p.start then None else Index(p.forms, a - p.start, k);
      && (a in m <==> i.Some? || a in remap)
      && (a in m ==> m[a] == if i.Some? then (to + (a - p.start), p.forms[i.value].length) else remap[a])
  {
    if k > 0 {
      DisplacedRemapAt(remap, p, to, k - 1, a);
    }
  }

  /** Everything the maps know lies inside the staged code. */
  ghost predicate Inside(cfg: Config, st: Staged) {
    && (forall t :: t in st.originals ==> cfg.base <= t < cfg.base + |st.code|)
    && (forall t :: t in st.fixes ==> cfg.base <= t < cfg.base + |st.code|)
  }

  /** The maps' answers at a stub address, given the placement whose stub it lies in. */
  ghost predicate Answers(cfg: Config, st: Staged, p: Placement, off: nat) {
    var t := cfg.base + p.mark + off;
    && (t in st.originals <==> EntryOf(p, off).Some?)
    && (t in st.originals ==> Some(st.originals[t]) == EntryOf(p, off))
    && (t in st.fixes <==> off >= 1 && RspFix(off).Some?)
    && (t in st.fixes ==> Some(st.fixes[t]) == RspFix(off))
  }

  lemma PlacingOriginals(cfg: Config, st: Staged, p: Placement, t: nat)
    requires p.mark == |st.code| && |p.moved| == Total(p.forms) && Inside(cfg, st)
    ensures var st', stub := Placing(cfg, st, p.start, p.forms, p.moved, p.detour), cfg.base + p.mark;
      var e := if t < stub then None else EntryOf(p, t - stub);
      && (t in st'.originals <==> t in st.originals || e.Some?)
      && (t in st'.originals ==> st'.originals[t] == if e.Some? then e.value else st.originals[t])
  {
    var stub := cfg.base + p.mark;
    var to := stub + STUB_LENGTH;
    StubOriginalsAt(st.originals, stub, p.start, 13, t);
    DisplacedOriginalsAt(StubOriginals(st.originals, stub, p.start, 13), p.forms, p.start, to, |p.forms|, t);
    if t >= stub {
      IsOffset(t - stub);
    } else {
      assert forall j :: 0 <= j < 13 ==> StubOffset(j) >= 0;
    }
    hide StubOffset, RspFix, StubOriginals, DisplacedOriginals, DisplacedRemap, StubFixes, TlsIncrement, AbsoluteJump;
  }

  lemma PlacingFixes(cfg: Config, st: Staged, p: Placement, t: nat)
    requires p.mark == |st.code| && Inside(cfg, st)
    ensures var st', stub := Placing(cfg, st, p.start, p.forms, p.moved, p.detour), cfg.base + p.mark;
      && (t in st'.fixes <==> t in st.fixes || (t > stub && RspFix(t - stub).Some?))
      && (t in st'.fixes && t !in st.fixes ==> Some(st'.fixes[t]) == RspFix(t - stub))
      && (t in st.fixes ==> st'.fixes[t] == st.fixes[t])
  {
    var stub := cfg.base + p.mark;
    StubFixesAt(st.fixes, stub, 13, t);
    if t >= stub {
      IsOffset(t - stub);
    }
    hide StubOffset, RspFix, StubOriginals, DisplacedOriginals, DisplacedRemap, StubFixes, TlsIncrement, AbsoluteJump;
  }

  // ---- any sequence of calls -------------------------------------------------------------------------------------------------

  ghost predicate SiteOk(cfg: Config, st: Staged, p: Placement) {
    && Sized(p) && |p.moved| == Total(p.forms)
    && p.mark + Size(p) <= |st.code|
    && (forall off: nat :: off < Size(p) ==> Answers(cfg, st, p, off))
  }

  /** Each displaced instruction is in the map of true addresses, and comes back from there. */
  ghost predicate RemapOk(st: Staged) {
    forall a :: a in st.remap ==> st.remap[a].0 in st.originals && st.originals[st.remap[a].0] == a
  }

  ghost predicate MapsOk(cfg: Config, h: History) {
    && Inside(cfg, h.st)
    && RemapOk(h.st)
    && (forall i: nat :: i < |h.sites| ==> SiteOk(cfg, h.st, h.sites[i]))
    && (forall i, j :: 0 <= i < j < |h.sites| ==> h.sites[i].mark + Size(h.sites[i]) <= h.sites[j].mark)
    && (forall t :: t in h.st.originals ==> exists i: nat :: i < |h.sites| && Holds(cfg, h.sites[i], t))
  }

  ghost predicate Holds(cfg: Config, p: Placement, t: nat) {
    cfg.base + p.mark <= t < cfg.base + p.mark + Size(p)
  }

  /** What a successful attempt places. */
  lemma DonePlacement(cfg: Config, mark: nat, image: Memory, b: Block) returns (p: Placement)
    requires Lawful(cfg.isa) && b.start <= b.end < WORD && Attempt(cfg, mark, image, b.start, b.end).Done?
    ensures var o := Attempt(cfg, mark, image, b.start, b.end); p == Placement(b.start, o.forms, o.moved, o.detour, mark)
    ensures Sized(p) && |p.moved| == Total(p.forms) && DETOUR <= Total(p.forms) <= 19 && b.start + Total(p.forms) <= b.end
  {
    var o, buf := Attempt(cfg, mark, image, b.start, b.end), Head(image, b.start, b.end);
    p := Placement(b.start, o.forms, o.moved, o.detour, mark);
    GrowFits(cfg.isa, buf, b.end - b.start, 0);
    assert buf[0..] == buf;
    DecodesShapely(cfg.isa, buf, o.forms);
    DecodesSized(cfg.isa, buf, p);
    MovedLength(buf, o.forms, b.start, cfg.base + mark + STUB_LENGTH);
  }

  lemma {:induction false} DecodesSized(isa: Isa, b: seq<Byte>, p: Placement)
    requires Decodes(isa, b, p.forms)
    ensures Sized(p)
    decreases |p.forms|
  {
    if p.forms != [] {
      DecodesSized(isa, b[p.forms[0].length..], p.(forms := p.forms[1..]));
      assert forall i :: 0 < i < |p.forms| ==> p.forms[i] == p.forms[1..][i - 1];
    }
  }

  lemma PlacedRemap(cfg: Config, st: Staged, p: Placement)
    requires p.mark == |st.code| && |p.moved| == Total(p.forms) && Inside(cfg, st) && Sized(p) && RemapOk(st)
    ensures RemapOk(Placing(cfg, st, p.start, p.forms, p.moved, p.detour))
  {
    var st', to := Placing(cfg, st, p.start, p.forms, p.moved, p.detour), cfg.base + p.mark + STUB_LENGTH;
    forall a | a in st'.remap ensures st'.remap[a].0 in st'.originals && st'.originals[st'.remap[a].0] == a {
      DisplacedRemapAt(st.remap, p, to, |p.forms|, a);
      PlacingOriginals(cfg, st, p, st'.remap[a].0);
      OffsetTotal(p.forms);
      if a >= p.start && Index(p.forms, a - p.start, |p.forms|).Some? {
        OffsetGrows(p, Index(p.forms, a - p.start, |p.forms|).value, |p.forms|);
      }
    }
  }

  lemma PlacedSite(cfg: Config, st: Staged, p: Placement)
    requires p.mark == |st.code| && |p.moved| == Total(p.forms) && Inside(cfg, st) && Sized(p)
    ensures var st' := Placing(cfg, st, p.start, p.forms, p.moved, p.detour); Inside(cfg, st') && SiteOk(cfg, st', p)
    ensures var st' := Placing(cfg, st, p.start, p.forms, p.moved, p.detour);
      |st'.code| == p.mark + Size(p) && forall t :: t in st'.originals && t !in st.originals ==> Holds(cfg, p, t)
  {
    hide TlsIncrement, AbsoluteJump, StubOriginals, StubFixes, DisplacedOriginals, DisplacedRemap, Index, EntryOf;
    var st' := Placing(cfg, st, p.start, p.forms, p.moved, p.detour);
    EntryInside(p);
    forall t | t in st'.originals ensures cfg.base <= t < cfg.base + |st'.code| && (t !in st.originals ==> Holds(cfg, p, t)) {
      PlacingOriginals(cfg, st, p, t);
    }
    forall t | t in st'.fixes ensures cfg.base <= t < cfg.base + |st'.code| {
      PlacingFixes(cfg, st, p, t);
      if t > cfg.base + p.mark {
        IsOffset(t - (cfg.base + p.mark));
      }
    }
    forall off: nat | off < Size(p) ensures Answers(cfg, st', p, off) {
      PlacingOriginals(cfg, st, p, cfg.base + p.mark + off);
      PlacingFixes(cfg, st, p, cfg.base + p.mark + off);
    }
  }

  lemma EntryInside(p: Placement)
    requires Sized(p)
    ensures forall off: nat :: EntryOf(p, off).Some? ==> off <= STUB_LENGTH + Total(p.forms)
  {
    OffsetTotal(p.forms);
    forall off: nat | EntryOf(p, off).Some? ensures off <= STUB_LENGTH + Total(p.forms) {
      if off >= STUB_LENGTH && Index(p.forms, off - STUB_LENGTH, |p.forms|).Some? {
        OffsetGrows(p, Index(p.forms, off - STUB_LENGTH, |p.forms|).value, |p.forms|);
      }
    }
  }

  lemma OlderSite(cfg: Config, st: Staged, p: Placement, q: Placement)
    requires p.mark == |st.code| && |p.moved| == Total(p.forms) && Inside(cfg, st) && SiteOk(cfg, st, q)
    ensures SiteOk(cfg, Placing(cfg, st, p.start, p.forms, p.moved, p.detour), q)
  {
    var st' := Placing(cfg, st, p.start, p.forms, p.moved, p.detour);
    forall off: nat | off < Size(q) ensures Answers(cfg, st', q, off) {
      assert Answers(cfg, st, q, off);
      PlacingOriginals(cfg, st, p, cfg.base + q.mark + off);
      PlacingFixes(cfg, st, p, cfg.base + q.mark + off);
    }
  }

  lemma {:induction false} MapsAlwaysOk(cfg: Config, image: Memory, blocks: seq<Block>)
    requires Lawful(cfg.isa) && InRange(blocks)
    ensures MapsOk(cfg, Calls(cfg, image, blocks))
  {
    if blocks != [] {
      var front, b := blocks[..|blocks| - 1], blocks[|blocks| - 1];
      MapsAlwaysOk(cfg, image, front);
      ExtendKeeps(cfg, Calls(cfg, image, front), image, b);
    }
  }

  lemma ExtendKeeps(cfg: Config, h: History, image: Memory, b: Block)
    requires Lawful(cfg.isa) && b.start <= b.end < WORD && MapsOk(cfg, h)
    ensures MapsOk(cfg, Extend(cfg, h, image, b))
  {
    hide Lawful, Answers, Index, EntryOf, Offset, Total;
    var h' := Extend(cfg, h, image, b);
    if Attempt(cfg, |h.st.code|, image, b.start, b.end).Done? {
      var p := DonePlacement(cfg, |h.st.code|, image, b);
      PlacedRemap(cfg, h.st, p);
      PlacedSite(cfg, h.st, p);
      hide Attempt, Placing, RemapOk;
      assert h'.sites == h.sites + [p];
      forall i: nat | i < |h'.sites| ensures SiteOk(cfg, h'.st, h'.sites[i]) {
        if i < |h.sites| {
          OlderSite(cfg, h.st, p, h.sites[i]);
        }
      }
      hide SiteOk;
      forall t | t in h'.st.originals ensures exists i: nat :: i < |h'.sites| && Holds(cfg, h'.sites[i], t) {
        if t in h.st.originals {
          var i: nat :| i < |h.sites| && Holds(cfg, h.sites[i], t);
          assert h'.sites[i] == h.sites[i];
        } else {
          assert h'.sites[|h.sites|] == p;
        }
      }
    } else {
      FailureChangesNothing(cfg, h.st, image, b.start, b.end);
      hide Attempt, Placing, Instrument, Lawful;
      assert h'.sites == h.sites && h'.st == h.st.(skipped := h'.st.skipped);
      forall i: nat | i < |h'.sites| ensures SiteOk(cfg, h'.st, h'.sites[i]) {
        assert SiteOk(cfg, h.st, h.sites[i]);
        SkipKeeps(cfg, h.st, h'.st, h.sites[i]);
      }
    }
  }

  lemma SkipKeeps(cfg: Config, st: Staged, st': Staged, p: Placement)
    requires SiteOk(cfg, st, p) && st' == st.(skipped := st'.skipped)
    ensures SiteOk(cfg, st', p)
  {
    forall off: nat | off < Size(p) ensures Answers(cfg, st', p, off) {
      assert Answers(cfg, st, p, off);
    }
  }

  // ---- what the maps promise ---------------------------------------------------------------------------------------------------

  /**
   After any calls: an address outside the stub region survives the trip to its true address and back, and what a stub
   address stands for is decided by the stub it lies in alone.
   */
  lemma AddressesRoundTrip(cfg: Config, image: Memory, blocks: seq<Block>, a: nat)
    requires Lawful(cfg.isa) && InRange(blocks)
    ensures var h := Calls(cfg, image, blocks);
      && (a < cfg.base || cfg.base + |h.st.code| <= a ==> OriginalOf(h.st, TrueOf(h.st, a)) == a)
      && (forall i: nat, off: nat :: i < |h.sites| && off < Size(h.sites[i]) ==> Answers(cfg, h.st, h.sites[i], off))
      && (forall t :: t in h.st.originals ==> exists i: nat :: i < |h.sites| && Holds(cfg, h.sites[i], t))
  {
    MapsAlwaysOk(cfg, image, blocks);
    hide Answers, Calls;
    var h := Calls(cfg, image, blocks);
    forall i: nat, off: nat | i < |h.sites| && off < Size(h.sites[i]) ensures Answers(cfg, h.st, h.sites[i], off) {
      assert SiteOk(cfg, h.st, h.sites[i]);
    }
  }

  /** A placement adds 13 entries for the counting part, one for each displaced instruction and one for the jump back: none collide. */
  lemma EntriesNeverCollide(cfg: Config, h: History, image: Memory, b: Block)
    requires Lawful(cfg.isa) && b.start <= b.end < WORD && MapsOk(cfg, h) && Attempt(cfg, |h.st.code|, image, b.start, b.end).Done?
    ensures var h' := Extend(cfg, h, image, b);
      |h'.st.originals| == |h.st.originals| + 13 + |Attempt(cfg, |h.st.code|, image, b.start, b.end).forms| + 1
  {
    var p := DonePlacement(cfg, |h.st.code|, image, b);
    hide Attempt;
    PlacingCount(cfg, h.st, p);
  }

  lemma PlacingCount(cfg: Config, st: Staged, p: Placement)
    requires p.mark == |st.code| && Inside(cfg, st) && Sized(p)
    ensures |Placing(cfg, st, p.start, p.forms, p.moved, p.detour).originals| == |st.originals| + 13 + |p.forms| + 1
  {
    hide StubOriginals, DisplacedOriginals, StubOffset, Index;
    var stub := cfg.base + p.mark;
    var to := stub + STUB_LENGTH;
    var t, first := to + Total(p.forms), StubOriginals(st.originals, stub, p.start, 13);
    NoIndexAtEnd(p);
    StubCount(st.originals, stub, p.start, 13);
    forall u | u in first ensures u < to {
      StubOriginalsAt(st.originals, stub, p.start, 13, u);
    }
    DisplacedCount(first, p, to, |p.forms|);
    DisplacedOriginalsAt(first, p.forms, p.start, to, |p.forms|, t);
    InsertCount(DisplacedOriginals(first, p.forms, p.start, to, |p.forms|), t, p.start + Total(p.forms));
  }

  lemma NoIndexAtEnd(p: Placement)
    requires Sized(p)
    ensures Index(p.forms, Total(p.forms), |p.forms|).None?
    ensures forall j :: 0 <= j < 13 ==> StubOffset(j) < STUB_LENGTH
  {
    OffsetTotal(p.forms);
    if Index(p.forms, Total(p.forms), |p.forms|).Some? {
      OffsetGrows(p, Index(p.forms, Total(p.forms), |p.forms|).value, |p.forms|);
    }
    forall j | 0 <= j < 13 ensures StubOffset(j) < STUB_LENGTH {
      IsOffset(StubOffset(j));
    }
  }

  lemma InsertCount(m: map<nat, nat>, t: nat, a: nat)
    requires t !in m
    ensures |m[t := a]| == |m| + 1
  {
    assert m[t := a].Keys == m.Keys + {t};
  }

  lemma {:induction false} StubCount(originals: map<nat, nat>, stub: nat, start: nat, k: nat)
    requires k <= 13 && forall t :: t in originals ==> t < stub
    ensures |StubOriginals(originals, stub, start, k)| == |originals| + k
  {
    if k > 0 {
      StubCount(originals, stub, start, k - 1);
      var m, t := StubOriginals(originals, stub, start, k - 1), stub + StubOffset(k - 1);
      hide StubOffset;
      StubOriginalsAt(originals, stub, start, k - 1, t);
      OffsetsDiffer(k - 1);
      InsertCount(m, t, start);
    }
  }

  lemma OffsetsDiffer(k: nat)
    requires k < 13
    ensures forall j :: 0 <= j < k ==> StubOffset(j) < StubOffset(k)
  {
  }

  lemma {:induction false} DisplacedCount(originals: map<nat, nat>, p: Placement, to: nat, k: nat)
    requires k <= |p.forms| && Sized(p) && forall t :: t in originals ==> t < to
    ensures |DisplacedOriginals(originals, p.forms, p.start, to, k)| == |originals| + k
  {
    hide Index, Offset, Sized;
    if k > 0 {
      DisplacedCount(originals, p, to, k - 1);
      var m, off := DisplacedOriginals(originals, p.forms, p.start, to, k - 1), Offset(p.forms, k - 1);
      DisplacedOriginalsAt(originals, p.forms, p.start, to, k - 1, to + off);
      NotIndexed(p, k - 1);
      InsertCount(m, to + off, p.start + off);
    }
  }

  /** No earlier instruction starts at the same offset. */
  lemma NotIndexed(p: Placement, k: nat)
    requires k < |p.forms| && Sized(p)
    ensures Index(p.forms, Offset(p.forms, k), k).None?
  {
    hide Offset, Sized;
    var i := Index(p.forms, Offset(p.forms, k), k);
    if i.Some? {
      OffsetGrows(p, i.value, k);
    }
  }

  // ---- exactly what is remapped ------------------------------------------------------------------------------------------------

  /** The placement displaces an instruction that starts at an original address. */
  predicate Starts(p: Placement, a: nat) {
    a >= p.start && Index(p.forms, a - p.start, |p.forms|).Some?
  }

  /** This is where that instruction went, and its length. */
  predicate Displaces(cfg: Config, p: Placement, a: nat, entry: (nat, nat)) {
    && Starts(p, a)
    && entry == (cfg.base + p.mark + STUB_LENGTH + (a - p.start), p.forms[Index(p.forms, a - p.start, |p.forms|).value].length)
  }

  ghost predicate RemapExact(cfg: Config, h: History) {
    && (forall a: nat :: a in h.st.remap ==> exists i: nat :: i < |h.sites| && Displaces(cfg, h.sites[i], a, h.st.remap[a]))
    && (forall i: nat, a: nat :: i < |h.sites| && Starts(h.sites[i], a) ==> a in h.st.remap)
  }

  lemma {:induction false} RemapAlwaysExact(cfg: Config, image: Memory, blocks: seq<Block>)
    requires Lawful(cfg.isa) && InRange(blocks)
    ensures RemapExact(cfg, Calls(cfg, image, blocks))
  {
    if blocks != [] {
      var front, b := blocks[..|blocks| - 1], blocks[|blocks| - 1];
      RemapAlwaysExact(cfg, image, front);
      ExtendExact(cfg, Calls(cfg, image, front), image, b);
    }
  }

  lemma ExtendExact(cfg: Config, h: History, image: Memory, b: Block)
    requires Lawful(cfg.isa) && b.start <= b.end < WORD && RemapExact(cfg, h)
    ensures RemapExact(cfg, Extend(cfg, h, image, b))
  {
    hide Lawful, Attempt, Index, DisplacedRemap, DisplacedOriginals, StubOriginals, StubFixes, Offset, Total;
    var h' := Extend(cfg, h, image, b);
    if Attempt(cfg, |h.st.code|, image, b.start, b.end).Done? {
      var p := DonePlacement(cfg, |h.st.code|, image, b);
      var to := cfg.base + p.mark + STUB_LENGTH;
      assert h'.sites == h.sites + [p];
      forall a: nat | a in h'.st.remap ensures exists i: nat :: i < |h'.sites| && Displaces(cfg, h'.sites[i], a, h'.st.remap[a]) {
        DisplacedRemapAt(h.st.remap, p, to, |p.forms|, a);
        if Starts(p, a) {
          assert Displaces(cfg, h'.sites[|h.sites|], a, h'.st.remap[a]);
        } else {
          var i: nat :| i < |h.sites| && Displaces(cfg, h.sites[i], a, h.st.remap[a]);
          assert Displaces(cfg, h'.sites[i], a, h'.st.remap[a]);
        }
      }
      forall i: nat, a: nat | i < |h'.sites| && Starts(h'.sites[i], a) ensures a in h'.st.remap {
        DisplacedRemapAt(h.st.remap, p, to, |p.forms|, a);
      }
    } else {
      FailureChangesNothing(cfg, h.st, image, b.start, b.end);
      hide Placing, Instrument;
    }
  }
}
