/**
 The stub that counts a block entry: it saves OF in AL and the other status flags in AH, adds one to the thread's
 counter, compares it with the thread's target, stops at int3 unless the counter is below, and restores everything.
 */
module CounterStub {
  import opened Options
  import opened Words
  import opened Processor

  const STUB_LENGTH := 0x2A

  const ADD_GS: seq<Byte> := [0x65, 0x48, 0x83, 0x04, 0x25]
  const MOV_GS: seq<Byte> := [0x65, 0x48, 0x8B, 0x0C, 0x25]
  const CMP_GS: seq<Byte> := [0x65, 0x48, 0x39, 0x0C, 0x25]

  /** The 42 bytes emitted for the TLS offsets of the counter and of the target. */
  function TlsIncrement(counter: nat, target: nat): (b: seq<Byte>)
    ensures |b| == STUB_LENGTH
  {
    SaveBytes(counter) + TargetBytes(target) + CheckBytes(counter)
  }

  function SaveBytes(counter: nat): (b: seq<Byte>)
    ensures |b| == 0xF
  {
    [0x50] + [0x0F, 0x90, 0xC0] + [0x9F] + ADD_GS + Encode(4, counter) + [0x01]
  }

  function TargetBytes(target: nat): (b: seq<Byte>)
    ensures |b| == 10
  {
    [0x51] + MOV_GS + Encode(4, target)
  }

  function CheckBytes(counter: nat): (b: seq<Byte>)
    ensures |b| == 17
  {
    CMP_GS + Encode(4, counter) + [0x72, 0x01] + [0xCC] + [0x59] + [0x04, 0x7F] + [0x9E] + [0x58]
  }

  /** How far RSP is below its value at the block's entry, at each instruction of the stub. */
  function RspFix(off: nat): Option<nat> {
    if off == 0x0 then Some(0)
    else if off == 0x1 || off == 0x4 || off == 0x5 || off == 0xF then Some(8)
    else if off == 0x10 || off == 0x19 || off == 0x22 || off == 0x24 || off == 0x25 then Some(16)
    else if off == 0x26 || off == 0x28 || off == 0x29 then Some(8)
    else None
  }

  /** The instructions of the stub and where each starts. */
  function Listing(counter: nat, target: nat): (l: seq<(nat, Instruction)>)
    ensures |l| == 13
  {
    [(0x0, PushRax), (0x1, SetoAl), (0x4, Lahf), (0x5, AddGs(counter, 1)), (0xF, PushRcx), (0x10, MovRcxGs(target)),
     (0x19, CmpGsRcx(counter)), (0x22, JumpBelow(1)), (0x24, Int3), (0x25, PopRcx), (0x26, AddAl(0x7F)), (0x28, Sahf), (0x29, PopRax)]
  }

  predicate Placed(code: Memory, base: Word, b: seq<Byte>) {
    base + |b| <= WORD && forall i :: 0 <= i < |b| ==> code[base + i] == b[i]
  }

  lemma Displacement(off: nat)
    requires off < 0x8000_0000
    ensures Signed32(Encode(4, off)) == off
  {
    WordPower();
    ValueOfEncode(4, off);
  }

  lemma SavePart(counter: nat)
    ensures var x := SaveBytes(counter);
      && x[0..1] == [0x50] && x[1..4] == [0x0F, 0x90, 0xC0] && x[4..5] == [0x9F]
      && x[5..10] == ADD_GS && x[10..14] == Encode(4, counter) && x[14..15] == [0x01]
  {
    hide Encode;
  }

  lemma TargetPart(target: nat)
    ensures var y := TargetBytes(target); y[0..1] == [0x51] && y[1..6] == MOV_GS && y[6..10] == Encode(4, target)
  {
    hide Encode;
  }

  lemma CheckPart(counter: nat)
    ensures var z := CheckBytes(counter);
      && z[0..5] == CMP_GS && z[5..9] == Encode(4, counter)
      && z[9..11] == [0x72, 0x01] && z[11..12] == [0xCC] && z[12..13] == [0x59]
      && z[13..15] == [0x04, 0x7F] && z[15..16] == [0x9E] && z[16..17] == [0x58]
  {
    hide Encode;
  }

  lemma FirstSlice(b: seq<Byte>, x: seq<Byte>, y: seq<Byte>, z: seq<Byte>)
    requires b == x + y + z
    ensures b[..|x|] == x && b[|x|..|x| + |y|] == y && b[|x| + |y|..] == z
  {
  }

  lemma Parts(counter: nat, target: nat)
    ensures var b := TlsIncrement(counter, target);
      && b[0..1] == [0x50] && b[1..4] == [0x0F, 0x90, 0xC0] && b[4..5] == [0x9F]
      && b[5..10] == ADD_GS && b[10..14] == Encode(4, counter) && b[14..15] == [0x01]
      && b[0xF..0x10] == [0x51] && b[0x10..0x15] == MOV_GS && b[0x15..0x19] == Encode(4, target)
      && b[0x19..0x1E] == CMP_GS && b[0x1E..0x22] == Encode(4, counter)
      && b[0x22..0x24] == [0x72, 0x01] && b[0x24..0x25] == [0xCC] && b[0x25..0x26] == [0x59]
      && b[0x26..0x28] == [0x04, 0x7F] && b[0x28..0x29] == [0x9E] && b[0x29..0x2A] == [0x58]
  {
    hide Encode;
    var b := TlsIncrement(counter, target);
    assert b == SaveBytes(counter) + TargetBytes(target) + CheckBytes(counter);
    SavePart(counter);
    TargetPart(target);
    CheckPart(counter);
    hide TlsIncrement, SaveBytes, TargetBytes, CheckBytes;
    var x, y, z := SaveBytes(counter), TargetBytes(target), CheckBytes(counter);
    FirstSlice(b, x, y, z);
    assert b[0..1] == x[0..1] && b[1..4] == x[1..4] && b[4..5] == x[4..5] && b[5..10] == x[5..10];
    assert b[10..14] == x[10..14] && b[14..15] == x[14..15];
    assert b[0xF..0x10] == y[0..1] && b[0x10..0x15] == y[1..6] && b[0x15..0x19] == y[6..10];
    assert b[0x19..0x1E] == z[0..5] && b[0x1E..0x22] == z[5..9] && b[0x22..0x24] == z[9..11] && b[0x24..0x25] == z[11..12];
    assert b[0x25..0x26] == z[12..13] && b[0x26..0x28] == z[13..15] && b[0x28..0x29] == z[15..16] && b[0x29..0x2A] == z[16..17];
  }

  lemma OneByte(w: seq<Byte>)
    requires |w| == 15
    ensures w[0] == 0x50 ==> Known(w) == Some(Decoded(PushRax, 1))
    ensures w[0] == 0x51 ==> Known(w) == Some(Decoded(PushRcx, 1))
    ensures w[0] == 0x58 ==> Known(w) == Some(Decoded(PopRax, 1))
    ensures w[0] == 0x59 ==> Known(w) == Some(Decoded(PopRcx, 1))
    ensures w[0] == 0x9F ==> Known(w) == Some(Decoded(Lahf, 1))
    ensures w[0] == 0x9E ==> Known(w) == Some(Decoded(Sahf, 1))
    ensures w[0] == 0xCC ==> Known(w) == Some(Decoded(Int3, 1))
  {
  }

  lemma MoreBytes(w: seq<Byte>)
    requires |w| == 15
    ensures w[..2] == [0x04, 0x7F] ==> Known(w) == Some(Decoded(AddAl(0x7F), 2))
    ensures w[..2] == [0x72, 0x01] ==> Known(w) == Some(Decoded(JumpBelow(1), 2))
    ensures w[..3] == [0x0F, 0x90, 0xC0] ==> Known(w) == Some(Decoded(SetoAl, 3))
  {
    assert w[..2] == [w[0], w[1]];
    assert w[..3] == [w[0], w[1], w[2]];
  }

  lemma GsOperand(w: seq<Byte>, off: nat)
    requires |w| == 15 && off < 0x8000_0000 && w[5..9] == Encode(4, off)
    ensures w[..5] == MOV_GS ==> Known(w) == Some(Decoded(MovRcxGs(off), 9))
    ensures w[..5] == CMP_GS ==> Known(w) == Some(Decoded(CmpGsRcx(off), 9))
    ensures w[..5] == ADD_GS && w[9] == 1 ==> Known(w) == Some(Decoded(AddGs(off, 1), 10))
  {
    Displacement(off);
    hide Encode, Signed32;
    assert w[..5] == [w[0], w[1], w[2], w[3], w[4]];
    assert w[0] == 0x65 ==> w[..3] != [0x0F, 0x90, 0xC0] && w[..2] != [0xFF, 0x25] by {
      assert w[..3][0] == w[0] && w[..2][0] == w[0];
    }
  }

  lemma WindowParts(code: Memory, base: Word, b: seq<Byte>, off: nat, s: Cpu)
    requires Placed(code, base, b) && |b| == STUB_LENGTH && s.rip == base + off && off < |b|
    ensures var w := Window(code, s);
      && w[0] == b[off..off + 1][0]
      && (off + 2 <= |b| ==> w[..2] == b[off..off + 2])
      && (off + 3 <= |b| ==> w[..3] == b[off..off + 3])
      && (off + 9 <= |b| ==> w[..5] == b[off..off + 5] && w[5..9] == b[off + 5..off + 9])
      && (off + 10 <= |b| ==> w[9] == b[off + 9..off + 10][0])
  {
    hide Placed, Window;
    WindowSlice(code, base, b, off, s, 0, 1);
    WindowSlice(code, base, b, off, s, 0, 2);
    WindowSlice(code, base, b, off, s, 0, 3);
    WindowSlice(code, base, b, off, s, 0, 5);
    WindowSlice(code, base, b, off, s, 5, 9);
    WindowSlice(code, base, b, off, s, 9, 10);
    assert Window(code, s)[0..1][0] == Window(code, s)[0] && Window(code, s)[9..10][0] == Window(code, s)[9];
  }

  lemma WindowSlice(code: Memory, base: Word, b: seq<Byte>, off: nat, s: Cpu, i: nat, j: nat)
    requires Placed(code, base, b) && |b| == STUB_LENGTH && s.rip == base + off && i <= j <= 15
    ensures off + j <= |b| ==> Window(code, s)[i..j] == b[off + i..off + j]
  {
    if off + j <= |b| {
      forall k | i <= k < j ensures Window(code, s)[k] == b[off + k] {
      }
    }
  }

  /** The processor decodes the emitted bytes as the listing. */
  lemma Disassembled(code: Memory, base: Word, counter: nat, target: nat, k: nat, s: Cpu)
    requires Placed(code, base, TlsIncrement(counter, target)) && counter < 0x8000_0000 && target < 0x8000_0000 && k < 13
    requires s.rip == base + Listing(counter, target)[k].0
    ensures Known(Window(code, s)) ==
      Some(Decoded(Listing(counter, target)[k].1,
                   (if k == 12 then STUB_LENGTH else Listing(counter, target)[k + 1].0) - Listing(counter, target)[k].0))
  {
    hide TlsIncrement, Encode, Placed, Window, Known;
    var off, b, w := Listing(counter, target)[k].0, TlsIncrement(counter, target), Window(code, s);
    Parts(counter, target);
    WindowParts(code, base, b, off, s);
    OneByte(w);
    MoreBytes(w);
    if k == 3 || k == 6 {
      GsOperand(w, counter);
    } else if k == 5 {
      GsOperand(w, target);
    }
  }

  // ---- running the stub ---------------------------------------------------------------------------------------------------

  /** The stub as placed in memory, and the thread slots it works on. */
  datatype Site = Site(code: Memory, base: Word, counter: nat, target: nat)

  predicate SiteOk(site: Site) {
    && site.counter < 0x8000_0000 && site.target < 0x8000_0000
    && Placed(site.code, site.base, TlsIncrement(site.counter, site.target))
    && site.base + STUB_LENGTH < WORD
  }

  function Counter(site: Site, s: Cpu): Word
    requires SiteOk(site)
  {
    Wrap(s.gs + site.counter)
  }

  function Target(site: Site, s: Cpu): Word
    requires SiteOk(site)
  {
    Wrap(s.gs + site.target)
  }

  /** The two words below the stack pointer and the two thread slots do not overlap. */
  predicate SlotsApart(site: Site, s: Cpu)
    requires SiteOk(site)
  {
    && Apart(Counter(site, s), Target(site, s))
    && Apart(Wrap(s.rsp - 8), Counter(site, s)) && Apart(Wrap(s.rsp - 8), Target(site, s))
    && Apart(Wrap(s.rsp - 16), Counter(site, s)) && Apart(Wrap(s.rsp - 16), Target(site, s))
  }

  function Bumped(x: Word): Word {
    if x + 1 == WORD then 0 else x + 1
  }

  function Hits(site: Site, s: Cpu): bool
    requires SiteOk(site)
  {
    Bumped(ValueAt(s.memory, Counter(site, s))) >= ValueAt(s.memory, Target(site, s))
  }

  lemma Listed(site: Site, k: nat, s: Cpu)
    requires SiteOk(site) && k < 13 && s.rip == site.base + Listing(site.counter, site.target)[k].0
    ensures var l := Listing(site.counter, site.target);
      var n := (if k == 12 then STUB_LENGTH else l[k + 1].0) - l[k].0;
      Encodable(l[k].1) && Next(site.code, s) == Execute(site.code, s.(rip := site.base + l[k].0 + n), l[k].1)
  {
    hide TlsIncrement, Execute;
    Disassembled(site.code, site.base, site.counter, site.target, k, s);
  }

  /** The states along the stub, one after each instruction; the jump over int3 is between Compared and Checked. */
  function Saved(site: Site, s: Cpu): Cpu
    requires SiteOk(site)
  {
    Push(s.(rip := site.base + 1), s.rax)
  }

  function Packed(site: Site, s: Cpu): Cpu
    requires SiteOk(site)
  {
    Saved(site, s).(rip := site.base + 5, rax := s.rax[0 := Bit(s.flags.overflow)][1 := FlagByte(s.flags)])
  }

  function Counted(site: Site, s: Cpu): Cpu
    requires SiteOk(site)
  {
    AddToWord(Packed(site, s).(rip := site.base + 0xF), Counter(site, s), 1)
  }

  function Compared(site: Site, s: Cpu): Cpu
    requires SiteOk(site)
  {
    var p := Push(Counted(site, s).(rip := site.base + 0x22), s.rcx);
    var rcx := Load(p.memory, Target(site, s));
    p.(rcx := rcx, flags := CompareFlags(p.flags, ValueAt(p.memory, Counter(site, s)), RegisterValue(rcx)))
  }

  function Checked(site: Site, s: Cpu): Cpu
    requires SiteOk(site)
  {
    var c := Compared(site, s);
    c.(rip := site.base + 0x25, traps := if c.flags.carry then c.traps else c.traps + 1)
  }

  function Popped(site: Site, s: Cpu): Cpu
    requires SiteOk(site)
  {
    var c := Checked(site, s);
    c.(rip := site.base + 0x26, rcx := Load(c.memory, c.rsp), rsp := Wrap(c.rsp + 8))
  }

  function Unpacked(site: Site, s: Cpu): Cpu
    requires SiteOk(site)
  {
    var c := AddToAl(Popped(site, s), 0x7F);
    c.(rip := site.base + 0x29, flags := FromByte(c.flags, c.rax[1]))
  }

  function Restored(site: Site, s: Cpu): Cpu
    requires SiteOk(site)
  {
    var c := Unpacked(site, s);
    c.(rip := site.base + 0x2A, rax := Load(c.memory, c.rsp), rsp := Wrap(c.rsp + 8))
  }

  predicate Entering(site: Site, s: Cpu) {
    SiteOk(site) && s.rip == site.base
  }

  lemma ToSaved(site: Site, s: Cpu)
    requires Entering(site, s)
    ensures Next(site.code, s) == Saved(site, s)
  {
    hide TlsIncrement, Placed, Next, Store;
    Listed(site, 0, s);
  }

  lemma ToPacked(site: Site, s: Cpu)
    requires Entering(site, s)
    ensures var s2 := Next(site.code, Saved(site, s));
      s2.rip == site.base + 4 && s2.rsp == Saved(site, s).rsp && Next(site.code, s2) == Packed(site, s)
  {
    hide TlsIncrement, Placed, Next, Store, FlagByte;
    Listed(site, 1, Saved(site, s));
    Listed(site, 2, Next(site.code, Saved(site, s)));
  }

  lemma ToCounted(site: Site, s: Cpu)
    requires Entering(site, s)
    ensures Next(site.code, Packed(site, s)) == Counted(site, s)
  {
    hide TlsIncrement, Placed, Next, AddToWord;
    Listed(site, 3, Packed(site, s));
  }

  lemma ToCompared(site: Site, s: Cpu)
    requires Entering(site, s)
    ensures var s5 := Next(site.code, Counted(site, s)); var s6 := Next(site.code, s5);
      && s5.rip == site.base + 0x10 && s6.rip == site.base + 0x19
      && s5.rsp == s6.rsp == Compared(site, s).rsp && Next(site.code, s6) == Compared(site, s)
  {
    hide TlsIncrement, Placed, Next, AddFlags, CompareFlags, Store, Load, RegisterValue, ValueAt;
    Listed(site, 4, Counted(site, s));
    var s5 := Next(site.code, Counted(site, s));
    Listed(site, 5, s5);
    Listed(site, 6, Next(site.code, s5));
  }

  lemma ToChecked(site: Site, s: Cpu)
    requires Entering(site, s)
    ensures var c, n := Compared(site, s), Next(site.code, Compared(site, s));
      && n.rsp == c.rsp
      && (c.flags.carry ==> n == Checked(site, s))
      && (!c.flags.carry ==> n.rip == site.base + 0x24 && Next(site.code, n) == Checked(site, s))
  {
    hide TlsIncrement, Placed, Next, Counted, Store, Load, CompareFlags;
    Listed(site, 7, Compared(site, s));
    if !Compared(site, s).flags.carry {
      Listed(site, 8, Next(site.code, Compared(site, s)));
    }
  }

  lemma ToPopped(site: Site, s: Cpu)
    requires Entering(site, s)
    ensures Next(site.code, Checked(site, s)) == Popped(site, s)
  {
    hide TlsIncrement, Placed, Next, Compared, Load;
    Listed(site, 9, Checked(site, s));
  }

  lemma ToUnpacked(site: Site, s: Cpu)
    requires Entering(site, s)
    ensures var s11 := Next(site.code, Popped(site, s));
      s11.rip == site.base + 0x28 && s11.rsp == Popped(site, s).rsp && Next(site.code, s11) == Unpacked(site, s)
  {
    hide TlsIncrement, Placed, Next, Checked, Load, AddFlags, FromByte;
    Listed(site, 10, Popped(site, s));
    Listed(site, 11, Next(site.code, Popped(site, s)));
  }

  lemma ToRestored(site: Site, s: Cpu)
    requires Entering(site, s)
    ensures Next(site.code, Unpacked(site, s)) == Restored(site, s)
  {
    hide TlsIncrement, Placed, Next, Popped, Load, AddFlags, FromByte;
    Listed(site, 12, Unpacked(site, s));
  }

  // ---- what the stub leaves behind ------------------------------------------------------------------------------------------

  function Traces(site: Site, s: Cpu): Memory
    requires SiteOk(site)
  {
    var c := Counter(site, s);
    Store(Store(Store(s.memory, Wrap(s.rsp - 8), s.rax), c, Encode(8, Bumped(ValueAt(s.memory, c)))), Wrap(s.rsp - 16), s.rcx)
  }

  lemma ValueBack(m: Memory, a: Word, v: Word)
    ensures ValueAt(Store(m, a, Encode(8, v)), a) == v
  {
    hide Store, Encode;
    WordPower();
    ValueOfEncode(8, v);
    LoadStored(m, a, Encode(8, v));
  }

  lemma BumpIsAdd(x: Word)
    ensures (x + 1) % WORD == Bumped(x)
  {
  }

  lemma CountedMemory(site: Site, s: Cpu)
    requires SiteOk(site) && SlotsApart(site, s)
    ensures Push(Counted(site, s), s.rcx).memory == Traces(site, s)
    ensures Counted(site, s).rsp == Wrap(s.rsp - 8) && Counted(site, s).rcx == s.rcx && Counted(site, s).flags.rest == s.flags.rest
  {
    hide Store, Encode, Load, FlagByte;
    LoadApart(s.memory, Wrap(s.rsp - 8), s.rax, Counter(site, s));
    BumpIsAdd(ValueAt(s.memory, Counter(site, s)));
  }

  /** Both slots and both saved registers read back from the memory the stub leaves. */
  lemma TracesRead(site: Site, s: Cpu)
    requires SiteOk(site) && SlotsApart(site, s)
    ensures ValueAt(Traces(site, s), Counter(site, s)) == Bumped(ValueAt(s.memory, Counter(site, s)))
    ensures Load(Traces(site, s), Target(site, s)) == Load(s.memory, Target(site, s))
    ensures Load(Traces(site, s), Wrap(s.rsp - 16)) == s.rcx
    ensures Load(Traces(site, s), Wrap(s.rsp - 8)) == s.rax
  {
    hide Store, Encode, Load, ValueAt;
    var c, t, a, b := Counter(site, s), Target(site, s), Wrap(s.rsp - 8), Wrap(s.rsp - 16);
    var n := Encode(8, Bumped(ValueAt(s.memory, c)));
    var m1 := Store(s.memory, a, s.rax);
    var m2 := Store(m1, c, n);
    assert Apart(a, b);
    ValueBack(m1, c, Bumped(ValueAt(s.memory, c)));
    SameValue(m2, b, s.rcx, c);
    LoadApart(m2, b, s.rcx, t);
    LoadApart(m1, c, n, t);
    LoadApart(s.memory, a, s.rax, t);
    LoadStored(m2, b, s.rcx);
    LoadApart(m2, b, s.rcx, a);
    LoadApart(m1, c, n, a);
    LoadStored(s.memory, a, s.rax);
  }

  lemma SameValue(m: Memory, a: Word, v: Register, b: Word)
    requires Apart(a, b)
    ensures ValueAt(Store(m, a, v), b) == ValueAt(m, b)
  {
    hide Store;
    LoadApart(m, a, v, b);
  }

  /** The scratch space: the 16 bytes below the stack pointer. */
  predicate Scratch(s: Cpu, a: Word) {
    Wrap(s.rsp - 1 - a) < 16
  }

  lemma TracesElsewhere(site: Site, s: Cpu, a: Word)
    requires SiteOk(site) && !Scratch(s, a) && !InSlot(Counter(site, s), a)
    ensures Traces(site, s)[a] == s.memory[a]
  {
    hide Store, Encode, ValueAt;
    var c := Counter(site, s);
    var n := Encode(8, Bumped(ValueAt(s.memory, c)));
    var m1 := Store(s.memory, Wrap(s.rsp - 8), s.rax);
    StoreAt(s.memory, Wrap(s.rsp - 8), s.rax, a);
    StoreAt(m1, c, n, a);
    StoreAt(Store(m1, c, n), Wrap(s.rsp - 16), s.rcx, a);
  }

  lemma ComparedIs(site: Site, s: Cpu)
    requires SiteOk(site) && SlotsApart(site, s)
    ensures var c := Compared(site, s);
      && c.memory == Traces(site, s) && c.rsp == Wrap(s.rsp - 16) && c.rax == Packed(site, s).rax
      && (c.flags.carry <==> !Hits(site, s)) && c.flags.rest == s.flags.rest
  {
    hide Traces, Store, Load, Counter, Target, FlagByte, Encode, Value, SlotsApart, AddFlags, Placed, TlsIncrement, Apart;
    CountedMemory(site, s);
    TracesRead(site, s);
  }

  /** Adding 0x7F to the saved overflow bit overflows exactly when it was set. */
  lemma OverflowBack(s: Cpu, b: bool)
    requires s.rax[0] == Bit(b)
    ensures AddToAl(s, 0x7F).flags.overflow == b && AddToAl(s, 0x7F).flags.rest == s.flags.rest
    ensures AddToAl(s, 0x7F).rax[1] == s.rax[1]
  {
  }

  lemma PoppedIs(site: Site, s: Cpu)
    requires SiteOk(site) && SlotsApart(site, s)
    ensures Popped(site, s) ==
      s.(rip := site.base + 0x26, rax := Packed(site, s).rax, rsp := Wrap(s.rsp - 8), memory := Traces(site, s),
         flags := Compared(site, s).flags, traps := if Hits(site, s) then s.traps + 1 else s.traps)
    ensures Compared(site, s).flags.rest == s.flags.rest
  {
    ComparedIs(site, s);
    TracesRead(site, s);
    ComparedKeeps(site, s);
    hide Traces, Compared, Packed, Hits, Load;
  }

  lemma ComparedKeeps(site: Site, s: Cpu)
    requires SiteOk(site)
    ensures var c := Compared(site, s); c.rest == s.rest && c.gs == s.gs && c.traps == s.traps
  {
    hide Store, Load, CompareFlags, AddFlags, ValueAt, RegisterValue, FlagByte, Encode;
  }

  lemma PackedIs(site: Site, s: Cpu)
    requires SiteOk(site)
    ensures var r := Packed(site, s).rax; r[0] == Bit(s.flags.overflow) && r[1] == FlagByte(s.flags)
  {
    hide FlagByte, Store;
  }

  /** Before the last instruction the flags are back, and only RAX is still on the stack. */
  lemma UnpackedIs(site: Site, s: Cpu)
    requires SiteOk(site) && SlotsApart(site, s)
    ensures var u := Unpacked(site, s);
      u == s.(rip := site.base + 0x29, rax := u.rax, rsp := Wrap(s.rsp - 8), memory := Traces(site, s),
              traps := if Hits(site, s) then s.traps + 1 else s.traps)
  {
    hide Traces, Popped, Compared, Packed, Hits, FlagByte, FromByte, AddToAl, SlotsApart, Placed, TlsIncrement;
    PoppedIs(site, s);
    PackedIs(site, s);
    var p := Popped(site, s);
    OverflowBack(p, s.flags.overflow);
    FlagByteRoundTrip(s.flags, AddToAl(p, 0x7F).flags);
    AddToAlKeeps(p, 0x7F);
  }

  /** The registers and flags are back, the counter is one higher, and only scratch bytes differ. */
  lemma RestoredIs(site: Site, s: Cpu)
    requires SiteOk(site) && SlotsApart(site, s)
    ensures Restored(site, s) ==
      s.(rip := site.base + STUB_LENGTH, memory := Traces(site, s), traps := if Hits(site, s) then s.traps + 1 else s.traps)
  {
    hide Traces, Unpacked, Hits, Load, SlotsApart, Placed, TlsIncrement;
    UnpackedIs(site, s);
    TracesRead(site, s);
  }

  lemma AddToAlKeeps(s: Cpu, y: Byte)
    ensures AddToAl(s, y) == s.(rax := AddToAl(s, y).rax, flags := AddToAl(s, y).flags)
  {
  }

  function StubSteps(site: Site, s: Cpu): nat
    requires SiteOk(site)
  {
    if Hits(site, s) then 13 else 12
  }

  /** The debugger's view of a stop: the recorded correction turns RSP into its value at the block's entry. */
  predicate Corrected(site: Site, entry: Cpu, s: Cpu)
    requires SiteOk(site)
  {
    && site.base <= s.rip
    && RspFix(s.rip - site.base).Some?
    && Wrap(s.rsp + RspFix(s.rip - site.base).value) == entry.rsp
  }

  lemma CountedRsp(site: Site, s: Cpu)
    requires SiteOk(site)
    ensures Saved(site, s).rip == site.base + 1 && Packed(site, s).rip == site.base + 5 && Counted(site, s).rip == site.base + 0xF
    ensures Compared(site, s).rip == site.base + 0x22
    ensures Saved(site, s).rsp == Packed(site, s).rsp == Counted(site, s).rsp == Wrap(s.rsp - 8)
  {
    hide Store, Load, CompareFlags, AddFlags, ValueAt, RegisterValue, FlagByte, Encode;
  }

  lemma UnpackedRsp(site: Site, s: Cpu)
    requires SiteOk(site)
    ensures Unpacked(site, s).rip == site.base + 0x29 && Unpacked(site, s).rsp == Popped(site, s).rsp
  {
    hide Popped, AddFlags, FromByte;
  }

  lemma CorrectedAt(site: Site, entry: Cpu, s: Cpu, off: nat)
    requires SiteOk(site) && RspFix(off).Some? && s.rip == site.base + off && Wrap(s.rsp + RspFix(off).value) == entry.rsp
    ensures Corrected(site, entry, s)
  {
  }

  lemma StepsNext(code: Memory, s: Cpu, n: nat)
    ensures Steps(code, s, 0) == s && Steps(code, s, n + 1) == Next(code, Steps(code, s, n))
  {
  }

  lemma FirstStops(site: Site, s: Cpu)
    requires Entering(site, s) && SlotsApart(site, s)
    ensures Steps(site.code, s, 4) == Counted(site, s)
    ensures forall k: nat :: k <= 4 ==> Corrected(site, s, Steps(site.code, s, k))
  {
    var c := site.code;
    hide Steps, Next, Saved, Packed, Counted, Placed, TlsIncrement, SlotsApart, Corrected;
    ToSaved(site, s);
    ToPacked(site, s);
    ToCounted(site, s);
    CountedRsp(site, s);
    StepsNext(c, s, 0);
    StepsNext(c, s, 1);
    StepsNext(c, s, 2);
    StepsNext(c, s, 3);
    CorrectedAt(site, s, s, 0);
    CorrectedAt(site, s, Saved(site, s), 1);
    CorrectedAt(site, s, Next(c, Saved(site, s)), 4);
    CorrectedAt(site, s, Packed(site, s), 5);
    CorrectedAt(site, s, Counted(site, s), 0xF);
    forall k: nat | k <= 4 ensures Corrected(site, s, Steps(site.code, s, k)) {
      assert k == 0 || k == 1 || k == 2 || k == 3 || k == 4;
    }
  }

  lemma CompareStops(site: Site, s: Cpu)
    requires Entering(site, s) && SlotsApart(site, s)
    ensures Steps(site.code, s, 7) == Compared(site, s)
    ensures forall k: nat :: 4 < k <= 7 ==> Corrected(site, s, Steps(site.code, s, k))
  {
    hide Steps, Next, Counted, Compared, Traces, Placed, TlsIncrement, Hits, Corrected, Apart;
    var c := site.code;
    FirstStops(site, s);
    ToCompared(site, s);
    ComparedIs(site, s);
    CountedRsp(site, s);
    StepsNext(c, s, 4);
    StepsNext(c, s, 5);
    StepsNext(c, s, 6);
    CorrectedAt(site, s, Next(c, Counted(site, s)), 0x10);
    CorrectedAt(site, s, Next(c, Next(c, Counted(site, s))), 0x19);
    CorrectedAt(site, s, Compared(site, s), 0x22);
    forall k: nat | 4 < k <= 7 ensures Corrected(site, s, Steps(site.code, s, k)) {
      assert k == 5 || k == 6 || k == 7;
    }
  }

  lemma CheckStops(site: Site, s: Cpu)
    requires Entering(site, s) && SlotsApart(site, s)
    ensures Steps(site.code, s, StubSteps(site, s) - 4) == Checked(site, s)
    ensures forall k: nat :: 7 < k <= StubSteps(site, s) - 4 ==> Corrected(site, s, Steps(site.code, s, k))
  {
    hide Steps, Next, Counted, Compared, Checked, Traces, Placed, TlsIncrement, Hits, Corrected, Apart;
    var c := site.code;
    CompareStops(site, s);
    ToChecked(site, s);
    ComparedIs(site, s);
    CheckedIs(site, s);
    StepsNext(c, s, 7);
    StepsNext(c, s, 8);
    CorrectedAt(site, s, Checked(site, s), 0x25);
    if Hits(site, s) {
      CorrectedAt(site, s, Next(c, Compared(site, s)), 0x24);
    }
    forall k: nat | 7 < k <= StubSteps(site, s) - 4 ensures Corrected(site, s, Steps(site.code, s, k)) {
      assert k == 8 || k == 9;
    }
  }

  lemma CheckedIs(site: Site, s: Cpu)
    requires SiteOk(site)
    ensures Checked(site, s).rip == site.base + 0x25 && Checked(site, s).rsp == Compared(site, s).rsp
  {
    hide Compared;
  }

  lemma LastStops(site: Site, s: Cpu)
    requires Entering(site, s) && SlotsApart(site, s)
    ensures Steps(site.code, s, StubSteps(site, s)) == Restored(site, s)
    ensures forall k: nat :: StubSteps(site, s) - 4 < k < StubSteps(site, s) ==> Corrected(site, s, Steps(site.code, s, k))
  {
    hide Steps, Next, Checked, Popped, Unpacked, Restored, Traces, Placed, TlsIncrement, Hits, Corrected, Compared, Packed, Apart;
    var c, n := site.code, StubSteps(site, s);
    CheckStops(site, s);
    ToPopped(site, s);
    ToUnpacked(site, s);
    ToRestored(site, s);
    PoppedIs(site, s);
    UnpackedRsp(site, s);
    StepsNext(c, s, n - 4);
    StepsNext(c, s, n - 3);
    StepsNext(c, s, n - 2);
    StepsNext(c, s, n - 1);
    CorrectedAt(site, s, Popped(site, s), 0x26);
    CorrectedAt(site, s, Next(c, Popped(site, s)), 0x28);
    CorrectedAt(site, s, Unpacked(site, s), 0x29);
    forall k: nat | n - 4 < k < n ensures Corrected(site, s, Steps(site.code, s, k)) {
      assert k == n - 3 || k == n - 2 || k == n - 1;
    }
  }

  lemma AllStops(site: Site, s: Cpu)
    requires Entering(site, s) && SlotsApart(site, s)
    ensures Steps(site.code, s, StubSteps(site, s)) == Restored(site, s)
    ensures forall k: nat :: k < StubSteps(site, s) ==> Corrected(site, s, Steps(site.code, s, k))
  {
    hide Steps, Restored, Checked, Compared, Counted, Placed, TlsIncrement, SlotsApart, Corrected, Hits;
    FirstStops(site, s);
    CompareStops(site, s);
    CheckStops(site, s);
    LastStops(site, s);
  }

  lemma TracesEverywhereElse(site: Site, s: Cpu)
    requires SiteOk(site)
    ensures forall a: Word :: !Scratch(s, a) && !InSlot(Counter(site, s), a) ==> Traces(site, s)[a] == s.memory[a]
  {
    hide Scratch, InSlot, Traces, Counter, Placed, TlsIncrement;
    forall a: Word | !Scratch(s, a) && !InSlot(Counter(site, s), a) ensures Traces(site, s)[a] == s.memory[a] {
      TracesElsewhere(site, s, a);
    }
  }

  /**
   From any state at the stub's start: all registers, RSP and the flags are as before, the counter is one higher modulo
   2^64, the thread stops exactly when the new counter has reached its target, the target is as before, no byte outside the
   counter and the 16 bytes below RSP changes, and at every instruction the recorded RSP correction is exact.
   */
  lemma StubCounts(site: Site, s: Cpu)
    requires Entering(site, s) && SlotsApart(site, s)
    ensures var n, c := StubSteps(site, s), Counter(site, s);
      var t := Steps(site.code, s, n);
      && t == s.(rip := site.base + STUB_LENGTH, memory := t.memory, traps := t.traps)
      && ValueAt(t.memory, c) == (ValueAt(s.memory, c) + 1) % WORD
      && t.traps == s.traps + Bit(ValueAt(t.memory, c) >= ValueAt(s.memory, Target(site, s)))
      && Load(t.memory, Target(site, s)) == Load(s.memory, Target(site, s))
      && (forall a: Word :: !Scratch(s, a) && !InSlot(c, a) ==> t.memory[a] == s.memory[a])
      && (forall k: nat :: k < n ==> Corrected(site, s, Steps(site.code, s, k)))
  {
    hide Steps, Restored, Placed, TlsIncrement, SlotsApart, Corrected, Traces, Scratch, InSlot, Load, ValueAt, Counter, Target;
    AllStops(site, s);
    RestoredIs(site, s);
    TracesRead(site, s);
    TargetValue(site, s);
    BumpIsAdd(ValueAt(s.memory, Counter(site, s)));
    TracesEverywhereElse(site, s);
  }

  lemma TargetValue(site: Site, s: Cpu)
    requires SiteOk(site) && SlotsApart(site, s)
    ensures Hits(site, s) <==> (ValueAt(s.memory, Counter(site, s)) + 1) % WORD >= ValueAt(s.memory, Target(site, s))
  {
    hide ValueAt, Counter, Target;
    BumpIsAdd(ValueAt(s.memory, Counter(site, s)));
  }
}
