/**
 The part of the processor the instrumentation relies on: the instructions it emits, with their encodings and their
 effect on the registers they name, the status flags and memory.
 */
module Processor {
  import opened Options
  import opened Words

  /** A byte at every address. */
  type Memory = m: seq<Byte> | |m| == WORD ghost witness seq(WORD, _ => 0)

  type Register = r: seq<Byte> | |r| == 8 witness [0, 0, 0, 0, 0, 0, 0, 0]

  /** The status flags; rest holds the flags no instruction here touches. */
  datatype Flags = Flags(overflow: bool, sign: bool, zero: bool, adjust: bool, parity: bool, carry: bool, rest: nat)

  /** rest stands for the registers no instruction here names; traps counts the stops at a breakpoint instruction. */
  datatype Cpu = Cpu(rip: Word, rax: Register, rcx: Register, rsp: Word, flags: Flags, rest: seq<Word>, gs: Word, memory: Memory, traps: nat)

  datatype Instruction =
    | PushRax | PushRcx | PopRax | PopRcx
    | SetoAl | Lahf | Sahf | AddAl(imm: Byte)
    | AddGs(disp: int, imm: Byte) | MovRcxGs(disp: int) | CmpGsRcx(disp: int)
    | JumpBelow(rel: Byte) | Int3 | JumpRelative(disp: int) | JumpMemory(disp: int)

  datatype Decoded = Decoded(instruction: Instruction, length: nat)

  /** The encodings of the emitted instructions; other bytes are somebody else's instructions. */
  function Known(b: seq<Byte>): (d: Option<Decoded>)
    ensures d.Some? ==> 1 <= d.value.length <= |b| && d.value.length <= 10
  {
    if |b| < 1 then None
    else if b[0] == 0x50 then Some(Decoded(PushRax, 1))
    else if b[0] == 0x51 then Some(Decoded(PushRcx, 1))
    else if b[0] == 0x58 then Some(Decoded(PopRax, 1))
    else if b[0] == 0x59 then Some(Decoded(PopRcx, 1))
    else if b[0] == 0x9F then Some(Decoded(Lahf, 1))
    else if b[0] == 0x9E then Some(Decoded(Sahf, 1))
    else if b[0] == 0xCC then Some(Decoded(Int3, 1))
    else if |b| >= 2 && b[0] == 0x04 then Some(Decoded(AddAl(b[1]), 2))
    else if |b| >= 2 && b[0] == 0x72 then Some(Decoded(JumpBelow(b[1]), 2))
    else if |b| >= 3 && b[..3] == [0x0F, 0x90, 0xC0] then Some(Decoded(SetoAl, 3))
    else if |b| >= 5 && b[0] == 0xE9 then Some(Decoded(JumpRelative(Signed32(b[1..5])), 5))
    else if |b| >= 6 && b[..2] == [0xFF, 0x25] then Some(Decoded(JumpMemory(Signed32(b[2..6])), 6))
    else if |b| >= 9 && b[..5] == [0x65, 0x48, 0x8B, 0x0C, 0x25] then Some(Decoded(MovRcxGs(Signed32(b[5..9])), 9))
    else if |b| >= 9 && b[..5] == [0x65, 0x48, 0x39, 0x0C, 0x25] then Some(Decoded(CmpGsRcx(Signed32(b[5..9])), 9))
    else if |b| >= 10 && b[..5] == [0x65, 0x48, 0x83, 0x04, 0x25] then Some(Decoded(AddGs(Signed32(b[5..9]), b[9]), 10))
    else None
  }

  // ---- memory ------------------------------------------------------------------------------------------------------------

  function Fetch(m: Memory, a: Word, n: nat): (b: seq<Byte>)
    requires n <= WORD
    ensures |b| == n
    ensures forall i :: 0 <= i < n ==> b[i] == m[Wrap(a + i)]
  {
    seq(n, i requires 0 <= i < n => m[Wrap(a + i)])
  }

  function Load(m: Memory, a: Word): Register {
    Fetch(m, a, 8)
  }

  function Store(m: Memory, a: Word, v: Register): Memory {
    var bytes := seq<Byte>(WORD, x requires 0 <= x < WORD => if Wrap(x - a) < 8 then v[Wrap(x - a)] else m[x]);
    bytes
  }

  /** The words at two addresses share no byte. */
  predicate Apart(a: Word, b: Word) {
    Wrap(a - b) >= 8 && Wrap(b - a) >= 8
  }

  /** The address is one of the eight bytes of a slot. */
  predicate InSlot(slot: Word, a: Word) {
    Wrap(a - slot) < 8
  }

  lemma StoreAt(m: Memory, a: Word, v: Register, x: Word)
    ensures Store(m, a, v)[x] == if Wrap(x - a) < 8 then v[Wrap(x - a)] else m[x]
  {
  }

  lemma LoadStored(m: Memory, a: Word, v: Register)
    ensures Load(Store(m, a, v), a) == v
  {
    hide Store;
    forall i | 0 <= i < 8 ensures Load(Store(m, a, v), a)[i] == v[i] {
      StoreAt(m, a, v, Wrap(a + i));
      assert Wrap(Wrap(a + i) - a) == i;
    }
  }

  lemma LoadApart(m: Memory, a: Word, v: Register, b: Word)
    requires Apart(a, b)
    ensures Load(Store(m, a, v), b) == Load(m, b)
  {
    hide Store;
    forall i | 0 <= i < 8 ensures Load(Store(m, a, v), b)[i] == Load(m, b)[i] {
      StoreAt(m, a, v, Wrap(b + i));
      assert Wrap(Wrap(b + i) - a) >= 8;
    }
  }

  // ---- flags -------------------------------------------------------------------------------------------------------------

  function Ones(n: nat): nat {
    if n == 0 then 0 else n % 2 + Ones(n / 2)
  }

  /** The flags of an addition of unsigned operands of a given size. */
  function AddFlags(f: Flags, x: nat, y: nat, size: nat): Flags
    requires size > 0 && x < size && y < size
  {
    var sum := (x + y) % size;
    Flags((2 * x < size) == (2 * y < size) && (2 * x < size) != (2 * sum < size), 2 * sum >= size, sum == 0,
          x % 16 + y % 16 >= 16, Ones(sum % 256) % 2 == 0, x + y >= size, f.rest)
  }

  function CompareFlags(f: Flags, x: Word, y: Word): Flags {
    var diff := Wrap(x - y);
    Flags((2 * x < WORD) != (2 * y < WORD) && (2 * x < WORD) != (2 * diff < WORD), 2 * diff >= WORD, diff == 0,
          x % 16 < y % 16, Ones(diff % 256) % 2 == 0, x < y, f.rest)
  }

  function Bit(b: bool): nat {
    if b then 1 else 0
  }

  /** SF:ZF:0:AF:0:PF:1:CF. */
  function FlagByte(f: Flags): Byte {
    128 * Bit(f.sign) + 64 * Bit(f.zero) + 16 * Bit(f.adjust) + 4 * Bit(f.parity) + 2 + Bit(f.carry)
  }

  /** The overflow flag is not part of the byte. */
  function FromByte(f: Flags, b: Byte): Flags {
    Flags(f.overflow, b / 128 == 1, b / 64 % 2 == 1, b / 16 % 2 == 1, b / 4 % 2 == 1, b % 2 == 1, f.rest)
  }

  lemma FlagByteRoundTrip(f: Flags, g: Flags)
    ensures FromByte(g, FlagByte(f)) == f.(overflow := g.overflow, rest := g.rest)
  {
  }

  // ---- execution ---------------------------------------------------------------------------------------------------------

  function SignExtend(imm: Byte): Word {
    if imm < 128 then imm else WORD - 256 + imm
  }

  function ValueAt(m: Memory, a: Word): Word {
    ValueBelow(Load(m, a));
    WordPower();
    Value(Load(m, a))
  }

  function RegisterValue(r: Register): Word {
    ValueBelow(r);
    WordPower();
    Value(r)
  }

  function Gs(s: Cpu, disp: int): Word
    requires Int32(disp)
  {
    Wrap(s.gs + disp)
  }

  function Push(s: Cpu, r: Register): Cpu {
    s.(rsp := Wrap(s.rsp - 8), memory := Store(s.memory, Wrap(s.rsp - 8), r))
  }

  function AddToAl(s: Cpu, y: Byte): Cpu {
    s.(rax := s.rax[0 := (s.rax[0] + y) % 256], flags := AddFlags(s.flags, s.rax[0], y, 256))
  }

  function AddToWord(s: Cpu, a: Word, y: Word): Cpu {
    var x := ValueAt(s.memory, a);
    s.(memory := Store(s.memory, a, Encode(8, (x + y) % WORD)), flags := AddFlags(s.flags, x, y, WORD))
  }

  predicate Encodable(i: Instruction) {
    (i.AddGs? || i.MovRcxGs? || i.CmpGsRcx? || i.JumpRelative? || i.JumpMemory?) ==> Int32(i.disp)
  }

  /** The effect of an instruction once the instruction pointer is past it; constants of jumps are read from the code. */
  function Execute(code: Memory, s: Cpu, i: Instruction): Cpu
    requires Encodable(i)
  {
    match i
    case PushRax => Push(s, s.rax)
    case PushRcx => Push(s, s.rcx)
    case PopRax => s.(rax := Load(s.memory, s.rsp), rsp := Wrap(s.rsp + 8))
    case PopRcx => s.(rcx := Load(s.memory, s.rsp), rsp := Wrap(s.rsp + 8))
    case SetoAl => s.(rax := s.rax[0 := Bit(s.flags.overflow)])
    case Lahf => s.(rax := s.rax[1 := FlagByte(s.flags)])
    case Sahf => s.(flags := FromByte(s.flags, s.rax[1]))
    case AddAl(imm) => AddToAl(s, imm)
    case AddGs(disp, imm) => AddToWord(s, Gs(s, disp), SignExtend(imm))
    case MovRcxGs(disp) => s.(rcx := Load(s.memory, Gs(s, disp)))
    case CmpGsRcx(disp) => s.(flags := CompareFlags(s.flags, ValueAt(s.memory, Gs(s, disp)), RegisterValue(s.rcx)))
    case JumpBelow(rel) => if s.flags.carry then s.(rip := Wrap(s.rip + if rel < 128 then rel else rel - 256)) else s
    case Int3 => s.(traps := s.traps + 1)
    case JumpRelative(disp) => s.(rip := Wrap(s.rip + disp))
    case JumpMemory(disp) => s.(rip := ValueAt(code, Wrap(s.rip + disp)))
  }

  lemma KnownEncodable(b: seq<Byte>)
    ensures Known(b).Some? ==> Encodable(Known(b).value.instruction)
  {
  }

  /** The longest instruction has 15 bytes. */
  function Window(code: Memory, s: Cpu): (b: seq<Byte>)
    ensures |b| == 15
  {
    Fetch(code, s.rip, 15)
  }

  function Advance(s: Cpu, n: nat): Cpu
    requires n <= 15
  {
    s.(rip := Wrap(s.rip + n))
  }

  /** One emitted instruction. */
  function Next(code: Memory, s: Cpu): Cpu {
    var d := Known(Window(code, s));
    if d.None? then s
    else
      KnownEncodable(Window(code, s));
      Execute(code, Advance(s, d.value.length), d.value.instruction)
  }

  function Steps(code: Memory, s: Cpu, n: nat): Cpu {
    if n == 0 then s else Next(code, Steps(code, s, n - 1))
  }
}
