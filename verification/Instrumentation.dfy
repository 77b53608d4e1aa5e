/** Placing a counting stub for a block: the staged code, the detour over the block's leader and the two address maps. */
module Instrumentation {
  import opened Options
  import opened Words
  import opened Processor
  import opened CounterStub
  import opened InstructionSet
  import opened Relocation

  /** base is where the stub region lies; counter and target are the thread slots. */
  datatype Config = Config(isa: Isa, base: nat, counter: nat, target: nat)

  /**
   What is written at commit, and the maps: remap takes an original address to its displaced one and the length of the
   instruction, originals takes a stub address back, fixes holds the RSP corrections.
   */
  datatype Staged = Staged(code: seq<Byte>, patches: seq<(nat, seq<Byte>)>, remap: map<nat, (nat, nat)>,
                           originals: map<nat, nat>, fixes: map<nat, nat>, skipped: seq<nat>)

  function AbsoluteJump(dest: nat): (b: seq<Byte>)
    ensures |b| == 14
  {
    [0xFF, 0x25, 0x00, 0x00, 0x00, 0x00] + Encode(8, dest)
  }

  /** A relative jump padded with NOPs, when the destination is in reach. */
  function Detour(at: nat, dest: nat, length: nat): (b: Option<seq<Byte>>)
    requires length >= DETOUR
    ensures b.Some? ==> |b.value| == length
  {
    var rel := dest - (at + 5);
    if !Int32(rel) then None else Some([0xE9] + Encode32(rel) + seq(length - DETOUR, _ => 0x90))
  }

  /** Where the stub's instructions start. */
  function StubOffset(k: nat): nat
    requires k < 13
  {
    Listing(0, 0)[k].0
  }

  function Offset(forms: seq<Form>, k: nat): nat
    requires k <= |forms|
  {
    if k == 0 then 0 else Offset(forms, k - 1) + forms[k - 1].length
  }

  function StubOriginals(originals: map<nat, nat>, stub: nat, start: nat, k: nat): map<nat, nat>
    requires k <= 13
  {
    if k == 0 then originals else StubOriginals(originals, stub, start, k - 1)[stub + StubOffset(k - 1) := start]
  }

  function StubFixes(fixes: map<nat, nat>, stub: nat, k: nat): map<nat, nat>
    requires k <= 13
  {
    if k == 0 then fixes
    else
      var f, off := StubFixes(fixes, stub, k - 1), StubOffset(k - 1);
      if off >= 1 && RspFix(off).Some? && stub + off !in f then f[stub + off := RspFix(off).value] else f
  }

  function DisplacedRemap(remap: map<nat, (nat, nat)>, forms: seq<Form>, from: nat, to: nat, k: nat): map<nat, (nat, nat)>
    requires k <= |forms|
  {
    if k == 0 then remap
    else DisplacedRemap(remap, forms, from, to, k - 1)[from + Offset(forms, k - 1) := (to + Offset(forms, k - 1), forms[k - 1].length)]
  }

  function DisplacedOriginals(originals: map<nat, nat>, forms: seq<Form>, from: nat, to: nat, k: nat): map<nat, nat>
    requires k <= |forms|
  {
    if k == 0 then originals
    else DisplacedOriginals(originals, forms, from, to, k - 1)[to + Offset(forms, k - 1) := from + Offset(forms, k - 1)]
  }

  function Skip(st: Staged, start: nat): Staged {
    st.(skipped := st.skipped + [start])
  }

  function Min(a: nat, b: nat): nat {
    if a < b then a else b
  }

  /** The bytes of a block that are read before it is changed. */
  function Head(image: Memory, start: nat, end: nat): (b: seq<Byte>)
    requires start <= end < WORD
    ensures |b| == Min(32, end - start)
  {
    Fetch(image, start, Min(32, end - start))
  }

  function Placing(cfg: Config, st: Staged, start: nat, forms: seq<Form>, moved: seq<Byte>, detour: seq<Byte>): Staged {
    var stub := cfg.base + |st.code|;
    var to, n := stub + STUB_LENGTH, Total(forms);
    Staged(
      st.code + TlsIncrement(cfg.counter, cfg.target) + moved + AbsoluteJump(start + n),
      st.patches + [(start, detour)],
      DisplacedRemap(st.remap, forms, start, to, |forms|),
      DisplacedOriginals(StubOriginals(st.originals, stub, start, 13), forms, start, to, |forms|)[to + n := start + n],
      StubFixes(st.fixes, stub, 13),
      st.skipped)
  }

  /** Why a block is left alone. */
  datatype Outcome = NoRegion | Small | BadLeader | OperandTooFar | StubTooFar | Done(forms: seq<Form>, moved: seq<Byte>, detour: seq<Byte>)

  ghost function Attempt(cfg: Config, mark: nat, image: Memory, start: nat, end: nat): (o: Outcome)
    requires Lawful(cfg.isa) && start <= end < WORD
  {
    var buf := Head(image, start, end);
    var leader := Grow(cfg.isa, buf, end - start, 0);
    if cfg.base == 0 then NoRegion
    else if leader.TooSmall? then Small
    else if !leader.Leader? then BadLeader
    else
      GrowFits(cfg.isa, buf, end - start, 0);
      assert buf[0..] == buf;
      DecodesShapely(cfg.isa, buf, leader.forms);
      var moved := MovedAll(buf, leader.forms, start, cfg.base + mark + STUB_LENGTH);
      var detour := Detour(start, cfg.base + mark, Total(leader.forms));
      if moved.None? then OperandTooFar
      else if detour.None? then StubTooFar
      else Done(leader.forms, moved.value, detour.value)
  }

  /** The stub's address is the result, 0 when the block is left alone. */
  ghost function Instrument(cfg: Config, st: Staged, image: Memory, start: nat, end: nat): (Staged, nat)
    requires Lawful(cfg.isa) && start <= end < WORD
  {
    match Attempt(cfg, |st.code|, image, start, end)
    case NoRegion => (st, 0)
    case Small => (st, 0)
    case Done(forms, moved, detour) => (Placing(cfg, st, start, forms, moved, detour), cfg.base + |st.code|)
    case _ => (Skip(st, start), 0)
  }

  // ---- committing ---------------------------------------------------------------------------------------------------------

  function WriteAt(m: Memory, a: nat, b: seq<Byte>): Memory {
    if a + |b| <= WORD then m[..a] + b + m[a + |b|..] else m
  }

  function WritePatches(m: Memory, patches: seq<(nat, seq<Byte>)>): Memory {
    if patches == [] then m
    else WriteAt(WritePatches(m, patches[..|patches| - 1]), patches[|patches| - 1].0, patches[|patches| - 1].1)
  }

  /** The stubs are written first, then the detours one by one. */
  function Committed(m: Memory, base: nat, st: Staged): Memory {
    WritePatches(WriteAt(m, base, st.code), st.patches)
  }

  // ---- the object ---------------------------------------------------------------------------------------------------------

  function Joined(b: seq<Byte>, rest: Option<seq<Byte>>): Option<seq<Byte>> {
    if rest.Some? then Some(b + rest.value) else None
  }

  lemma JoinedTwice(a: seq<Byte>, b: seq<Byte>, rest: Option<seq<Byte>>)
    ensures Joined(a + b, rest) == Joined(a, Joined(b, rest))
  {
    assert rest.Some? ==> (a + b) + rest.value == a + (b + rest.value);
  }

  lemma FirstDecoded(isa: Isa, b: seq<Byte>, forms: seq<Form>)
    requires Decodes(isa, b, forms) && forms != []
    ensures var n := forms[0].length;
      && n <= |b| && Decodes(isa, b[n..], forms[1..]) && Total(forms[1..]) <= |b[n..]| && Shapely(forms[1..])
      && (forms[0].operandAt.Some? ==> forms[0].operandAt.value + 4 <= n)
  {
    DecodesTotal(isa, b[forms[0].length..], forms[1..]);
    DecodesShapely(isa, b[forms[0].length..], forms[1..]);
  }

  class Instrumenter {
    const isa: Isa
    const base: nat
    const counter: nat
    const target: nat

    var code: seq<Byte>
    var patches: seq<(nat, seq<Byte>)>
    var remap: map<nat, (nat, nat)>
    var originals: map<nat, nat>
    var fixes: map<nat, nat>
    var skipped: seq<nat>

    function Setup(): Config {
      Config(isa, base, counter, target)
    }

    function Value(): Staged
      reads this
    {
      Staged(code, patches, remap, originals, fixes, skipped)
    }

    constructor (isa: Isa, base: nat, counter: nat, target: nat)
      ensures Value() == Staged([], [], map[], map[], map[], []) && Setup() == Config(isa, base, counter, target)
    {
      this.isa, this.base, this.counter, this.target := isa, base, counter, target;
      code, patches, remap, originals, fixes, skipped := [], [], map[], map[], map[], [];
    }

    method GrowLeader(buf: seq<Byte>, size: nat) returns (leader: Leader)
      requires Lawful(isa) && |buf| == Min(32, size)
      ensures leader == Grow(isa, buf, size, 0)
    {
      var at, forms := 0, [];
      while at < DETOUR
        invariant at <= |buf|
        invariant Grow(isa, buf, size, 0) ==
          var rest := Grow(isa, buf, size, at); if rest.Leader? then Leader(forms + rest.forms) else rest
      {
        if at >= size {
          return TooSmall;
        }
        var d := isa.decode(buf[at..]);
        if d.None? {
          return Undecodable;
        }
        DecodeBounds(isa, buf[at..]);
        if !d.value.category.Plain? {
          return Terminator;
        }
        ghost var rest := Grow(isa, buf, size, at + d.value.length);
        assert rest.Leader? ==> (forms + [d.value]) + rest.forms == forms + ([d.value] + rest.forms);
        forms := forms + [d.value];
        at := at + d.value.length;
      }
      assert forms + [] == forms;
      return Leader(forms);
    }

    /** Append the leader's instructions, re-based; the staged code is only put back by the caller when one does not fit. */
    method RelocateLeader(buf: seq<Byte>, forms: seq<Form>, start: nat) returns (ok: bool)
      requires Decodes(isa, buf, forms) && Total(forms) <= |buf| && Shapely(forms)
      modifies this`code
      ensures ok <==> MovedAll(buf, forms, start, base + |old(code)|).Some?
      ensures ok ==> code == old(code) + MovedAll(buf, forms, start, base + |old(code)|).value
      ensures |old(code)| <= |code| && code[..|old(code)|] == old(code)
    {
      hide Moved, Decodes, Shapely;
      var rest, left := buf, forms;
      var from: nat := start;
      ghost var before, done, whole := code, [], MovedAll(buf, forms, start, base + |code|);
      assert whole.Some? ==> [] + whole.value == whole.value;
      while left != []
        invariant Decodes(isa, rest, left) && Total(left) <= |rest| && Shapely(left)
        invariant code == before + done
        invariant whole == Joined(done, MovedAll(rest, left, from, base + |code|))
        decreases |left|
      {
        var f := left[0];
        FirstDecoded(isa, rest, left);
        var first := Moved(rest[..f.length], f, from, base + |code|);
        if first.None? {
          return false;
        }
        MovedSize(rest[..f.length], f, from, base + |code|);
        JoinedTwice(done, first.value, MovedAll(rest[f.length..], left[1..], from + f.length, base + |code| + f.length));
        code := code + first.value;
        done := done + first.value;
        from, rest, left := from + f.length, rest[f.length..], left[1..];
      }
      assert done + [] == done;
      return true;
    }

    method RecordStub(stub: nat, start: nat)
      modifies this`originals, this`fixes
      ensures originals == StubOriginals(old(originals), stub, start, 13)
      ensures fixes == StubFixes(old(fixes), stub, 13)
    {
      hide StubOffset, RspFix;
      for i := 0 to 13
        invariant originals == StubOriginals(old(originals), stub, start, i)
        invariant fixes == StubFixes(old(fixes), stub, i)
      {
        var off := StubOffset(i);
        originals := originals[stub + off := start];
        if off >= 1 && RspFix(off).Some? && stub + off !in fixes {
          fixes := fixes[stub + off := RspFix(off).value];
        }
      }
    }

    method RecordDisplaced(forms: seq<Form>, start: nat, to: nat)
      modifies this`originals, this`remap
      ensures originals == DisplacedOriginals(old(originals), forms, start, to, |forms|)
      ensures remap == DisplacedRemap(old(remap), forms, start, to, |forms|)
    {
      var off := 0;
      for i := 0 to |forms|
        invariant off == Offset(forms, i)
        invariant originals == DisplacedOriginals(old(originals), forms, start, to, i)
        invariant remap == DisplacedRemap(old(remap), forms, start, to, i)
      {
        remap := remap[start + off := (to + off, forms[i].length)];
        originals := originals[to + off := start + off];
        off := off + forms[i].length;
      }
    }

    method InstrumentBlock(image: Memory, start: nat, end: nat) returns (stub: nat)
      requires Lawful(isa) && start <= end < WORD
      modifies this
      ensures (Value(), stub) == Instrument(Setup(), old(Value()), image, start, end)
    {
      hide Grow, Lawful, Placing, MovedAll, Detour, Decodes, Total, Shapely, Fetch;
      if base == 0 {
        return 0;
      }
      var buf := Head(image, start, end);
      var leader := GrowLeader(buf, end - start);
      if leader.TooSmall? {
        return 0;
      }
      if !leader.Leader? {
        skipped := skipped + [start];
        return 0;
      }
      GrowFits(isa, buf, end - start, 0);
      assert buf[0..] == buf;
      DecodesShapely(isa, buf, leader.forms);
      stub := PlaceStub(buf, leader.forms, start);
    }

    /** Stage the stub and the detour, or roll the staged code back when one of them does not reach. */
    method PlaceStub(buf: seq<Byte>, forms: seq<Form>, start: nat) returns (stub: nat)
      requires Decodes(isa, buf, forms) && DETOUR <= Total(forms) <= |buf| && Shapely(forms)
      modifies this
      ensures var st, mark := old(Value()), |old(code)|;
        var moved, detour := MovedAll(buf, forms, start, base + mark + STUB_LENGTH), Detour(start, base + mark, Total(forms));
        (Value(), stub) ==
          if moved.None? || detour.None? then (Skip(st, start), 0)
          else (Placing(Setup(), st, start, forms, moved.value, detour.value), base + mark)
    {
      hide TlsIncrement, AbsoluteJump, MovedAll, Detour, Decodes, StubOriginals, StubFixes, DisplacedOriginals, DisplacedRemap;
      var mark, n := |code|, Total(forms);
      stub := base + mark;
      code := code + TlsIncrement(counter, target);
      var ok := RelocateLeader(buf, forms, start);
      var detour := Detour(start, stub, n);
      if !ok || detour.None? {
        assert code[..mark] == old(code);
        code := code[..mark];
        skipped := skipped + [start];
        return 0;
      }
      code := code + AbsoluteJump(start + n);
      patches := patches + [(start, detour.value)];
      RecordStub(stub, start);
      RecordDisplaced(forms, start, stub + STUB_LENGTH);
      originals := originals[stub + STUB_LENGTH + n := start + n];
    }

    /** Write the staged code and the detours into the process. */
    method Commit(image: Memory) returns (m: Memory)
      ensures m == if base == 0 then image else Committed(image, base, Value())
    {
      if base == 0 {
        return image;
      }
      m := WriteAt(image, base, code);
      assert patches[..|patches|] == patches;
      for i := 0 to |patches|
        invariant m == WritePatches(WriteAt(image, base, code), patches[..i])
      {
        assert patches[..i + 1][..i] == patches[..i];
        m := WriteAt(m, patches[i].0, patches[i].1);
      }
    }

    /** Where an original instruction really is, and its length when it was displaced. */
    method TrueAddress(a: nat) returns (t: nat, n: nat)
      ensures t == TrueOf(Value(), a)
      ensures n == if a in remap then remap[a].1 else 0
    {
      if a in remap {
        return remap[a].0, remap[a].1;
      }
      return a, 0;
    }

    method OriginalAddress(t: nat) returns (a: nat)
      ensures a == OriginalOf(Value(), t)
    {
      return if t in originals then originals[t] else t;
    }

    method RspFixBytes(t: nat) returns (n: nat)
      ensures n == FixOf(Value(), t)
    {
      return if t in fixes then fixes[t] else 0;
    }
  }

  function TrueOf(st: Staged, a: nat): nat {
    if a in st.remap then st.remap[a].0 else a
  }

  function OriginalOf(st: Staged, t: nat): nat {
    if t in st.originals then st.originals[t] else t
  }

  function FixOf(st: Staged, t: nat): nat {
    if t in st.fixes then st.fixes[t] else 0
  }
}
