/** Running code: emitted instructions by their documented effect, all others by the instruction set's. */
module Execution {
  import opened Options
  import opened Words
  import opened Processor
  import opened InstructionSet
  import opened Relocation

  /** The bytes of an instruction with the displacement of its RIP-relative operand zeroed. */
  function Zeroed(insn: seq<Byte>, f: Form): seq<Byte>
    requires f.operandAt.Some? ==> f.operandAt.value + 4 <= |insn|
  {
    if f.operandAt.None? then insn else Patched(insn, f.operandAt.value, [0, 0, 0, 0])
  }

  function OperandAddress(insn: seq<Byte>, f: Form, a: Word): Word
    requires f.length <= 15 && (f.operandAt.Some? ==> f.operandAt.value + 4 <= |insn|)
  {
    if f.operandAt.None? then 0 else Wrap(a + f.length + OperandOf(insn, f))
  }

  ghost function Step(isa: Isa, code: Memory, s: Cpu): Cpu
    requires Lawful(isa)
  {
    var w := Window(code, s);
    var d := isa.decode(w);
    if Known(w).Some? then Next(code, s)
    else if d.None? then s
    else
      DecodeBounds(isa, w);
      var insn := w[..d.value.length];
      isa.effect(Zeroed(insn, d.value), OperandAddress(insn, d.value, s.rip), Advance(s, d.value.length))
  }

  ghost function Run(isa: Isa, code: Memory, s: Cpu, n: nat): Cpu
    requires Lawful(isa)
  {
    if n == 0 then s else Step(isa, code, Run(isa, code, s, n - 1))
  }

  lemma {:induction false} RunSplit(isa: Isa, code: Memory, s: Cpu, m: nat, n: nat)
    requires Lawful(isa)
    ensures Run(isa, code, s, m + n) == Run(isa, code, Run(isa, code, s, m), n)
  {
    hide Step, Lawful;
    if n > 0 {
      RunSplit(isa, code, s, m, n - 1);
    }
  }

  // ---- instructions that are not branches -----------------------------------------------------------------------------------

  /** The effect of an instruction that is not a branch, from its zeroed bytes and its operand's address. */
  function Effect(isa: Isa, z: seq<Byte>, operand: Word, s: Cpu): Cpu {
    KnownEncodable(z);
    if Known(z).Some? then Execute(s.memory, s, Known(z).value.instruction) else isa.effect(z, operand, s)
  }

  lemma KnownPrefix(b: seq<Byte>, c: seq<Byte>)
    requires Known(b).Some? && Known(b).value.length <= |c| && b[..Known(b).value.length] == c[..Known(b).value.length]
    ensures Known(c) == Known(b)
  {
    var n := Known(b).value.length;
    assert forall i :: 0 <= i < n ==> b[i] == b[..n][i] == c[..n][i] == c[i];
    assert n >= 3 ==> b[..3] == c[..3] && b[..2] == c[..2];
    assert n >= 6 ==> b[..5] == c[..5] && b[2..6] == c[2..6] && b[1..5] == c[1..5];
    assert n >= 9 ==> b[5..9] == c[5..9];
    assert n == 5 ==> b[1..5] == c[1..5];
  }

  function KnownForm(b: seq<Byte>): Option<Form> {
    if Known(b).None? then None
    else
      var n := Known(b).value.length;
      match Known(b).value.instruction
      case JumpBelow(rel) => Some(Form(n, ConditionalBranch, None, Some(if rel < 128 then rel else rel - 256)))
      case JumpRelative(disp) => Some(Form(n, UnconditionalBranch, None, Some(disp)))
      case JumpMemory(_) => Some(Form(n, UnconditionalBranch, None, None))
      case _ => Some(Form(n, Plain, None, None))
  }

  /** The laws can be met: the emitted encodings alone make a lawful instruction set. */
  lemma KnownAloneIsLawful(effect: (seq<Byte>, Word, Cpu) -> Cpu)
    ensures Lawful(Isa(KnownForm, effect))
  {
    var isa := Isa(KnownForm, effect);
    forall b: seq<Byte>, c: seq<Byte> ensures Local(isa, b, c) {
      if Known(b).Some? && Known(b).value.length <= |c| && b[..Known(b).value.length] == c[..Known(b).value.length] {
        KnownPrefix(b, c);
      }
    }
    hide Known;
    forall b: seq<Byte> ensures Bounded(isa, b) && Agrees(isa, b) {}
  }

  /** An instruction that is not a branch is executed by its effect, wherever it stands. */
  lemma StepIsEffect(isa: Isa, code: Memory, s: Cpu, insn: seq<Byte>, f: Form)
    requires Lawful(isa) && isa.decode(insn) == Some(f) && |insn| == f.length && f.category.Plain?
    requires f.length <= 15 && Window(code, s)[..f.length] == insn
    requires f.operandAt.Some? ==> f.operandAt.value + 4 <= |insn|
    ensures Step(isa, code, s) == Effect(isa, Zeroed(insn, f), OperandAddress(insn, f, s.rip), Advance(s, f.length))
  {
    var w := Window(code, s);
    assert insn[..f.length] == insn;
    DecodeLocal(isa, insn, w);
    assert Agrees(isa, w) && Agrees(isa, Zeroed(insn, f));
    assert f.operandAt.Some? ==> Rebasable(isa, insn, [0, 0, 0, 0]);
    hide Lawful;
    if Known(w).Some? {
      KnownPrefix(w, insn);
      PlainNeedsNoCode(code, s.memory, Advance(s, f.length), Known(w).value.instruction);
    } else if Known(Zeroed(insn, f)).Some? {
      assert f.operandAt.None?;
      KnownPrefix(insn, w);
    }
  }

  lemma PlainNeedsNoCode(code: Memory, code': Memory, s: Cpu, i: Instruction)
    requires Encodable(i) && !i.JumpMemory?
    ensures Execute(code, s, i) == Execute(code', s, i)
  {
    hide AddToAl, AddToWord, Load, Store, FromByte, FlagByte, CompareFlags, ValueAt, RegisterValue;
  }

  // ---- a run of plain instructions ----------------------------------------------------------------------------------------

  /** One instruction taken out of its place: its zeroed bytes and the address of its operand. */
  datatype Act = Act(bytes: seq<Byte>, operand: Word)

  function Acts(b: seq<Byte>, forms: seq<Form>, from: Word): seq<Act>
    requires Total(forms) <= |b| && Shapely(forms) && from + Total(forms) < WORD && Short(forms)
  {
    if forms == [] then []
    else
      var f := forms[0];
      [Act(Zeroed(b[..f.length], f), OperandAddress(b[..f.length], f, from))] + Acts(b[f.length..], forms[1..], from + f.length)
  }

  predicate Short(forms: seq<Form>) {
    forall i :: 0 <= i < |forms| ==> forms[i].length <= 15
  }

  function Do(isa: Isa, acts: seq<Act>, s: Cpu): Cpu {
    if acts == [] then s else Do(isa, acts[1..], Effect(isa, acts[0].bytes, acts[0].operand, s))
  }

  /** The instruction neither reads nor sets the instruction pointer. */
  ghost predicate Movable(isa: Isa, act: Act) {
    forall s: Cpu, x: Word :: Effect(isa, act.bytes, act.operand, s.(rip := x)) == Effect(isa, act.bytes, act.operand, s).(rip := x)
  }

  ghost predicate AllMovable(isa: Isa, acts: seq<Act>) {
    forall i :: 0 <= i < |acts| ==> Movable(isa, acts[i])
  }

  lemma {:induction false} DoMoves(isa: Isa, acts: seq<Act>, s: Cpu, x: Word)
    requires AllMovable(isa, acts)
    ensures Do(isa, acts, s.(rip := x)) == Do(isa, acts, s).(rip := x)
  {
    hide Effect;
    if acts != [] {
      assert Movable(isa, acts[0]);
      assert forall i :: 0 <= i < |acts[1..]| ==> acts[1..][i] == acts[i + 1];
      DoMoves(isa, acts[1..], Effect(isa, acts[0].bytes, acts[0].operand, s), x);
    }
  }

  predicate Lies(code: Memory, a: Word, b: seq<Byte>) {
    a + |b| < WORD && forall i :: 0 <= i < |b| ==> code[a + i] == b[i]
  }

  lemma WindowLies(code: Memory, s: Cpu, b: seq<Byte>, n: nat)
    requires Lies(code, s.rip, b) && n <= |b| && n <= 15
    ensures Window(code, s)[..n] == b[..n]
  {
  }

  lemma FirstPlain(isa: Isa, code: Memory, s: Cpu, b: seq<Byte>, forms: seq<Form>)
    requires Lawful(isa) && Decodes(isa, b, forms) && |b| == Total(forms) && Shapely(forms) && Short(forms) && forms != []
    requires Lies(code, s.rip, b) && AllMovable(isa, Acts(b, forms, s.rip))
    ensures var n, acts := forms[0].length, Acts(b, forms, s.rip);
      && Shapely(forms[1..]) && Short(forms[1..]) && Lies(code, s.rip + n, b[n..])
      && Step(isa, code, s) == Effect(isa, acts[0].bytes, acts[0].operand, s).(rip := s.rip + n)
      && acts[1..] == Acts(b[n..], forms[1..], s.rip + n) && AllMovable(isa, acts[1..])
  {
    hide Lawful, Step, Effect, Known, Zeroed, OperandAddress;
    var f, acts := forms[0], Acts(b, forms, s.rip);
    WindowLies(code, s, b, f.length);
    DecodeLocal(isa, b, b[..f.length]);
    StepIsEffect(isa, code, s, b[..f.length], f);
    assert Movable(isa, acts[0]);
    assert forall i :: 0 < i < |forms| ==> forms[i] == forms[1..][i - 1];
    assert forall i :: 0 <= i < |acts[1..]| ==> acts[1..][i] == acts[i + 1];
  }

  /** Plain instructions placed one after the other have the same effect at any address, one by one. */
  lemma {:induction false} PlainRun(isa: Isa, code: Memory, s: Cpu, b: seq<Byte>, forms: seq<Form>, j: nat)
    requires Lawful(isa) && Decodes(isa, b, forms) && |b| == Total(forms) && Shapely(forms) && Short(forms) && j <= |forms|
    requires Lies(code, s.rip, b) && AllMovable(isa, Acts(b, forms, s.rip))
    ensures |Acts(b, forms, s.rip)| == |forms| && Total(forms[..j]) <= Total(forms)
    ensures Run(isa, code, s, j) == Do(isa, Acts(b, forms, s.rip)[..j], s).(rip := s.rip + Total(forms[..j]))
    decreases |forms|
  {
    hide Lawful, Step, Effect, Zeroed, OperandAddress, Movable, AllMovable, Shapely, Short;
    if forms != [] {
      FirstPlain(isa, code, s, b, forms);
      var n, acts, s1 := forms[0].length, Acts(b, forms, s.rip), Step(isa, code, s);
      PlainRun(isa, code, s1, b[n..], forms[1..], if j == 0 then 0 else j - 1);
      if j > 0 {
        assert acts[..j][1..] == acts[1..][..j - 1] && forms[..j][1..] == forms[1..][..j - 1];
        PrefixMovable(isa, acts[1..], j - 1);
        DoMoves(isa, acts[1..][..j - 1], Effect(isa, acts[0].bytes, acts[0].operand, s), s1.rip);
        RunSplit(isa, code, s, 1, j - 1);
        assert Run(isa, code, s, 1) == s1 by { assert Run(isa, code, s, 0) == s; }
      }
    }
  }

  lemma PrefixMovable(isa: Isa, acts: seq<Act>, j: nat)
    requires AllMovable(isa, acts) && j <= |acts|
    ensures AllMovable(isa, acts[..j])
  {
  }

  /** Moving the instructions keeps what they are and what they do. */
  lemma {:induction false} MovedActs(isa: Isa, b: seq<Byte>, forms: seq<Form>, from: Word, to: Word)
    requires Lawful(isa) && Decodes(isa, b, forms) && |b| == Total(forms) && Shapely(forms) && Short(forms)
    requires from + Total(forms) < WORD && to + Total(forms) < WORD && MovedAll(b, forms, from, to).Some?
    ensures var m := MovedAll(b, forms, from, to).value;
      |m| == Total(forms) && Decodes(isa, m, forms) && Acts(m, forms, to) == Acts(b, forms, from)
    decreases |forms|
  {
    hide Lawful, Moved, Zeroed, OperandAddress;
    if forms != [] {
      var f, n := forms[0], forms[0].length;
      var insn, first := b[..n], Moved(b[..n], f, from, to).value;
      var rest, m := MovedAll(b[n..], forms[1..], from + n, to + n).value, MovedAll(b, forms, from, to).value;
      assert forall i :: 0 < i < |forms| ==> forms[i] == forms[1..][i - 1];
      MovedActs(isa, b[n..], forms[1..], from + n, to + n);
      DecodeLocal(isa, b, insn);
      MovedResolves(isa, insn, f, from, to);
      assert m[..n] == first && m[n..] == rest;
      DecodeLocal(isa, first, m);
      SameAct(isa, insn, f, from, to);
    }
  }

  lemma SameAct(isa: Isa, insn: seq<Byte>, f: Form, from: Word, to: Word)
    requires Lawful(isa) && isa.decode(insn) == Some(f) && |insn| == f.length <= 15
    requires f.operandAt.Some? ==> f.operandAt.value + 4 <= |insn|
    requires Moved(insn, f, from, to).Some?
    ensures var m := Moved(insn, f, from, to).value;
      |m| == |insn| && Zeroed(m, f) == Zeroed(insn, f) && OperandAddress(m, f, to) == OperandAddress(insn, f, from)
  {
    MovedResolves(isa, insn, f, from, to);
  }

  // ---- what a leader may depend on -----------------------------------------------------------------------------------------

  /** Equal but for the counter, the 16 bytes below an address and the number of stops. */
  ghost predicate Alike(slot: Word, top: Word, s: Cpu, t: Cpu) {
    && t == s.(memory := t.memory, traps := t.traps)
    && forall a: Word :: !InSlot(slot, a) && Wrap(top - 1 - a) >= 16 ==> s.memory[a] == t.memory[a]
  }

  /**
   Run from a state, the instructions neither read the counter nor the 16 bytes below its stack pointer (before writing
   them), and do not write the counter: any state alike comes out alike. Code that respects the calling convention has
   no data below RSP.
   */
  ghost predicate Insensitive(isa: Isa, acts: seq<Act>, slot: Word, s: Cpu) {
    forall t: Cpu :: Alike(slot, s.rsp, s, t) ==>
      && Alike(slot, s.rsp, Do(isa, acts, s), Do(isa, acts, t))
      && Load(Do(isa, acts, t).memory, slot) == Load(t.memory, slot)
      && Do(isa, acts, t).traps + s.traps == Do(isa, acts, s).traps + t.traps
  }

  /** mov rax, [rcx] as an effect. */
  function LoadThroughRcx(z: seq<Byte>, operand: Word, s: Cpu): Cpu {
    s.(rax := Load(s.memory, RegisterValue(s.rcx)))
  }

  /** A load through a register is covered whenever it reads neither the counter nor the bytes below RSP. */
  lemma LoadIsInsensitive(decode: seq<Byte> -> Option<Form>, slot: Word, s: Cpu)
    requires forall a: Word :: InSlot(RegisterValue(s.rcx), a) ==> !InSlot(slot, a) && Wrap(s.rsp - 1 - a) >= 16
    ensures Insensitive(Isa(decode, LoadThroughRcx), [Act([0x48, 0x8B, 0x01], 0)], slot, s)
  {
    hide RegisterValue;
    var isa, act := Isa(decode, LoadThroughRcx), Act([0x48, 0x8B, 0x01], 0);
    forall t: Cpu | Alike(slot, s.rsp, s, t)
      ensures Alike(slot, s.rsp, Do(isa, [act], s), Do(isa, [act], t))
      ensures Load(Do(isa, [act], t).memory, slot) == Load(t.memory, slot)
      ensures Do(isa, [act], t).traps + s.traps == Do(isa, [act], s).traps + t.traps
    {
      DoLoad(isa, s);
      DoLoad(isa, t);
      SameLoad(s.memory, t.memory, RegisterValue(s.rcx));
    }
  }

  lemma SameLoad(m: Memory, n: Memory, a: Word)
    requires forall x: Word :: InSlot(a, x) ==> m[x] == n[x]
    ensures Load(m, a) == Load(n, a)
  {
    forall i | 0 <= i < 8 ensures Load(m, a)[i] == Load(n, a)[i] {
      assert InSlot(a, Wrap(a + i));
    }
  }

  lemma DoLoad(isa: Isa, s: Cpu)
    requires isa.effect == LoadThroughRcx
    ensures Do(isa, [Act([0x48, 0x8B, 0x01], 0)], s) == LoadThroughRcx([0x48, 0x8B, 0x01], 0, s)
  {
    assert Known([0x48, 0x8B, 0x01]).None?;
  }
}
