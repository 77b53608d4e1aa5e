/** Which blocks get a stub, said of their instructions. */
module PlacedBlocks {
  import opened Words
  import opened Processor
  import opened CounterStub
  import opened InstructionSet
  import opened Relocation
  import opened Instrumentation

  /** The first instructions of a buffer: plain ones, decoded one after the other, all but the last within the first 4 bytes. */
  ghost predicate Leads(isa: Isa, buf: seq<Byte>, forms: seq<Form>) {
    Decodes(isa, buf, forms) && (forms != [] ==> Total(forms[..|forms| - 1]) < 5)
  }

  /** Just enough of them to make room for a detour. */
  ghost predicate Displaced(isa: Isa, buf: seq<Byte>, forms: seq<Form>) {
    Leads(isa, buf, forms) && Total(forms) >= 5
  }

  /** The block ends before there is room. */
  ghost predicate EndsEarly(isa: Isa, buf: seq<Byte>, size: nat, forms: seq<Form>) {
    Leads(isa, buf, forms) && Total(forms) == size < 5
  }

  /** What comes next, before there is room, is a branch, a call or a return, or cannot be decoded. */
  ghost predicate StopsEarly(isa: Isa, buf: seq<Byte>, size: nat, forms: seq<Form>) {
    && Leads(isa, buf, forms) && Total(forms) < 5 && Total(forms) < size && Total(forms) <= |buf|
    && var next := isa.decode(buf[Total(forms)..]); next.None? || next.value.category != Plain
  }

  lemma FrontTotal(forms: seq<Form>)
    requires |forms| > 0
    ensures Total(forms[..|forms| - 1]) == if |forms| == 1 then 0 else forms[0].length + Total(forms[1..][..|forms[1..]| - 1])
  {
    if |forms| > 1 {
      var front := forms[..|forms| - 1];
      assert front[0] == forms[0] && front[1..] == forms[1..][..|forms[1..]| - 1];
    }
  }

  /** The growth from an offset, given the plain instructions that come next. */
  lemma {:induction false} GrowsBy(isa: Isa, buf: seq<Byte>, size: nat, at: nat, forms: seq<Form>)
    requires at <= |buf| <= size && Decodes(isa, buf[at..], forms)
    requires at < DETOUR || forms == []
    requires |forms| > 0 ==> at + Total(forms[..|forms| - 1]) < DETOUR
    ensures at + Total(forms) <= |buf|
    ensures var rest := Grow(isa, buf, size, at + Total(forms));
      Grow(isa, buf, size, at) == if rest.Leader? then Leader(forms + rest.forms) else rest
    decreases |forms|
  {
    hide Grow, Decodes;
    DecodesTotal(isa, buf[at..], forms);
    var rest := Grow(isa, buf, size, at + Total(forms));
    if forms == [] {
      assert rest.Leader? ==> [] + rest.forms == rest.forms;
    } else {
      var n := forms[0].length;
      GrowFirst(isa, buf, size, at, forms);
      FrontTotal(forms);
      GrowsBy(isa, buf, size, at + n, forms[1..]);
      assert rest.Leader? ==> [forms[0]] + (forms[1..] + rest.forms) == forms + rest.forms;
    }
  }

  lemma GrowFirst(isa: Isa, buf: seq<Byte>, size: nat, at: nat, forms: seq<Form>)
    requires at <= |buf| <= size && at < DETOUR && Decodes(isa, buf[at..], forms) && forms != []
    ensures var n := forms[0].length;
      && n >= 1 && at + n <= |buf| && Decodes(isa, buf[at + n..], forms[1..]) && Total(forms) == n + Total(forms[1..])
      && var rest := Grow(isa, buf, size, at + n); Grow(isa, buf, size, at) == if rest.Leader? then Leader([forms[0]] + rest.forms) else rest
  {
    assert buf[at..][forms[0].length..] == buf[at + forms[0].length..];
  }

  /** The plain instructions the growth comes by before it ends. */
  lemma {:induction false} GrowsTo(isa: Isa, buf: seq<Byte>, size: nat, at: nat) returns (forms: seq<Form>)
    requires Lawful(isa) && at <= |buf| <= size && (|buf| < DETOUR ==> |buf| == size)
    ensures Decodes(isa, buf[at..], forms) && (at >= DETOUR ==> forms == [])
    ensures |forms| > 0 ==> at + Total(forms[..|forms| - 1]) < DETOUR
    ensures var n := at + Total(forms); n <= |buf| && (n < DETOUR && n < size ==>
      var next := isa.decode(buf[n..]); next.None? || next.value.category != Plain)
    decreases DETOUR - at
  {
    hide Lawful;
    forms := [];
    if at < DETOUR && at < size && isa.decode(buf[at..]).Some? && isa.decode(buf[at..]).value.category.Plain? {
      var f := isa.decode(buf[at..]).value;
      DecodeBounds(isa, buf[at..]);
      var rest := GrowsTo(isa, buf, size, at + f.length);
      assert buf[at..][f.length..] == buf[at + f.length..];
      forms := [f] + rest;
      assert forms[1..] == rest;
      FrontTotal(forms);
    }
  }

  /** The outcomes of the growth, each if and only if the first instructions are so. */
  lemma GrowIsRight(isa: Isa, buf: seq<Byte>, size: nat)
    requires Lawful(isa) && |buf| == Min(32, size)
    ensures forall forms :: Displaced(isa, buf, forms) <==> Grow(isa, buf, size, 0) == Leader(forms)
    ensures Grow(isa, buf, size, 0).TooSmall? <==> exists forms :: EndsEarly(isa, buf, size, forms)
    ensures Grow(isa, buf, size, 0).Undecodable? || Grow(isa, buf, size, 0).Terminator? <==>
      exists forms :: StopsEarly(isa, buf, size, forms)
  {
    hide Lawful, Decodes;
    assert buf[0..] == buf;
    var g := Grow(isa, buf, size, 0);
    forall forms | Leads(isa, buf, forms)
      ensures Total(forms) <= |buf|
      ensures Displaced(isa, buf, forms) ==> g == Leader(forms)
      ensures EndsEarly(isa, buf, size, forms) ==> g.TooSmall?
      ensures StopsEarly(isa, buf, size, forms) ==> g.Undecodable? || g.Terminator?
    {
      GrowsBy(isa, buf, size, 0, forms);
      assert forms + [] == forms;
    }
    var forms := GrowsTo(isa, buf, size, 0);
    assert Leads(isa, buf, forms);
    assert Displaced(isa, buf, forms) || EndsEarly(isa, buf, size, forms) || StopsEarly(isa, buf, size, forms);
  }

  /** Moved on by a distance, the displaced instructions still reach their operands. */
  ghost predicate InReach(b: seq<Byte>, forms: seq<Form>, distance: int) {
    if forms == [] then true
    else
      var n, at := forms[0].length, forms[0].operandAt;
      && (at.Some? && at.value + 4 <= |b| ==> -0x8000_0000 <= Signed32(b[at.value..at.value + 4]) - distance < 0x8000_0000)
      && n <= |b| && InReach(b[n..], forms[1..], distance)
  }

  lemma MoveIff(b: seq<Byte>, f: Form, from: nat, to: nat)
    requires f.length <= |b| && (f.operandAt.Some? ==> f.operandAt.value + 4 <= f.length)
    ensures Moved(b[..f.length], f, from, to).Some? <==>
      (f.operandAt.Some? ==> -0x8000_0000 <= Signed32(b[f.operandAt.value..f.operandAt.value + 4]) - (to - from) < 0x8000_0000)
  {
    if f.operandAt.Some? {
      assert b[..f.length][f.operandAt.value..f.operandAt.value + 4] == b[f.operandAt.value..f.operandAt.value + 4];
    }
  }

  lemma {:induction false} MovesIff(b: seq<Byte>, forms: seq<Form>, from: nat, to: nat)
    requires Total(forms) <= |b| && Shapely(forms)
    ensures MovedAll(b, forms, from, to).Some? <==> InReach(b, forms, to - from)
    decreases |forms|
  {
    hide Moved;
    if forms != [] {
      var n := forms[0].length;
      assert forall i :: 0 <= i < |forms[1..]| ==> forms[1..][i] == forms[i + 1];
      MoveIff(b, forms[0], from, to);
      MovesIff(b[n..], forms[1..], from + n, to + n);
    }
  }

  /** A block gets a stub: its first instructions can be displaced to it, and a 32-bit jump reaches it. */
  ghost predicate GetsStub(cfg: Config, stub: nat, buf: seq<Byte>, start: nat) {
    && (exists forms :: Displaced(cfg.isa, buf, forms) && InReach(buf, forms, stub + STUB_LENGTH - start))
    && -0x8000_0000 <= stub - (start + 5) < 0x8000_0000
  }

  ghost predicate IsTooSmall(isa: Isa, buf: seq<Byte>, size: nat) {
    exists forms :: EndsEarly(isa, buf, size, forms)
  }

  lemma AttemptIff(cfg: Config, mark: nat, image: Memory, start: nat, end: nat)
    requires Lawful(cfg.isa) && start <= end < WORD && cfg.base != 0
    ensures var buf, o := Head(image, start, end), Attempt(cfg, mark, image, start, end);
      && !o.NoRegion?
      && (o.Done? <==> GetsStub(cfg, cfg.base + mark, buf, start))
      && (o.Small? <==> IsTooSmall(cfg.isa, buf, end - start))
  {
    var buf, stub := Head(image, start, end), cfg.base + mark;
    var leader := Grow(cfg.isa, buf, end - start, 0);
    GrowIsRight(cfg.isa, buf, end - start);
    hide Lawful, Grow, Displaced, EndsEarly, StopsEarly;
    if leader.Leader? {
      GrowFits(cfg.isa, buf, end - start, 0);
      assert buf[0..] == buf;
      DecodesShapely(cfg.isa, buf, leader.forms);
      hide Decodes, MovedAll;
      MovesIff(buf, leader.forms, start, stub + STUB_LENGTH);
      hide InReach;
      assert Displaced(cfg.isa, buf, leader.forms);
    }
  }

  /**
   A block gets a stub if and only if there is a region, its instructions make room for a detour before it ends or
   branches, their operands can be reached from the stub, and the stub from the block. One that does not is noted as
   skipped if and only if there is a region and the block has not merely ended before there was room.
   */
  lemma StubIff(cfg: Config, st: Staged, image: Memory, start: nat, end: nat)
    requires Lawful(cfg.isa) && start <= end < WORD
    ensures var (after, stub) := Instrument(cfg, st, image, start, end);
      var buf := Head(image, start, end);
      var gets := cfg.base != 0 && GetsStub(cfg, cfg.base + |st.code|, buf, start);
      && stub == (if gets then cfg.base + |st.code| else 0)
      && after.skipped == if gets || cfg.base == 0 || IsTooSmall(cfg.isa, buf, end - start) then st.skipped else st.skipped + [start]
  {
    if cfg.base != 0 {
      AttemptIff(cfg, |st.code|, image, start, end);
    }
    hide Lawful, Grow, GetsStub, IsTooSmall, TlsIncrement, AbsoluteJump, StubOriginals, StubFixes, DisplacedOriginals, DisplacedRemap;
  }
}
