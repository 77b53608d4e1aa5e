/**
 Decoding as the instrumentation sees it, and moving the leading instructions of a block to another address. The decoder
 and the effects of instructions are parameters; what is assumed of them is Lawful.
 */
module InstructionSet {
  import opened Options
  import opened Words
  import opened Processor

  datatype Category = ConditionalBranch | UnconditionalBranch | CallBranch | ReturnBranch | Plain

  /**
   What decoding tells of an instruction. operandAt is where the 32-bit displacement of a RIP-relative memory operand
   starts; relative is the displacement of a direct branch from the instruction's end.
   */
  datatype Form = Form(length: nat, category: Category, operandAt: Option<nat>, relative: Option<int>)

  /** effect is given the bytes with the displacement zeroed, the operand's address and the state past the instruction. */
  datatype Isa = Isa(decode: seq<Byte> -> Option<Form>, effect: (seq<Byte>, Word, Cpu) -> Cpu)

  /** An instruction has 1 to 15 bytes, holds its displacement, and is decoded from its own bytes only. */
  ghost predicate Bounded(isa: Isa, b: seq<Byte>) {
    var d := isa.decode(b);
    d.Some? ==>
      && 1 <= d.value.length <= 15 && d.value.length <= |b|
      && (d.value.operandAt.Some? ==> d.value.operandAt.value + 4 <= d.value.length)
  }

  ghost predicate Local(isa: Isa, b: seq<Byte>, c: seq<Byte>) {
    var d := isa.decode(b);
    d.Some? && d.value.length <= |b| && d.value.length <= |c| && b[..d.value.length] == c[..d.value.length] ==> isa.decode(c) == d
  }

  /** Another displacement in the same place does not change what the instruction is. */
  ghost predicate Rebasable(isa: Isa, b: seq<Byte>, v: seq<Byte>) {
    var d := isa.decode(b);
    d.Some? && d.value.operandAt.Some? && d.value.operandAt.value + 4 <= |b| && |v| == 4 ==>
      isa.decode(Patched(b, d.value.operandAt.value, v)) == d
  }

  /** The emitted jumps are decoded as what they are, with their displacement. */
  predicate Jumps(i: Instruction, f: Form) {
    match i
    case JumpBelow(rel) => f.category.ConditionalBranch? && f.relative == Some(if rel < 128 then rel else rel - 256)
    case JumpRelative(disp) => f.category.UnconditionalBranch? && f.relative == Some(disp)
    case JumpMemory(_) => f.category.UnconditionalBranch? && f.relative.None?
    case _ => true
  }

  ghost predicate Agrees(isa: Isa, b: seq<Byte>) {
    var k := Known(b);
    k.Some? ==>
      && isa.decode(b).Some?
      && isa.decode(b).value.length == k.value.length
      && (isa.decode(b).value.category.Plain? <==>
            !k.value.instruction.JumpBelow? && !k.value.instruction.JumpRelative? && !k.value.instruction.JumpMemory?)
      && (isa.decode(b).value.category.Plain? ==> isa.decode(b).value.operandAt.None?)
      && Jumps(k.value.instruction, isa.decode(b).value)
  }

  ghost predicate Lawful(isa: Isa) {
    && (forall b: seq<Byte> :: Bounded(isa, b))
    && (forall b: seq<Byte>, c: seq<Byte> :: Local(isa, b, c))
    && (forall b: seq<Byte>, v: seq<Byte> :: Rebasable(isa, b, v))
    && (forall b: seq<Byte> :: Agrees(isa, b))
  }

  function Patched(b: seq<Byte>, at: nat, v: seq<Byte>): (p: seq<Byte>)
    requires at + |v| <= |b|
    ensures |p| == |b|
  {
    b[..at] + v + b[at + |v|..]
  }

  lemma DecodeBounds(isa: Isa, b: seq<Byte>)
    requires Lawful(isa) && isa.decode(b).Some?
    ensures var f := isa.decode(b).value;
      1 <= f.length <= 15 && f.length <= |b| && (f.operandAt.Some? ==> f.operandAt.value + 4 <= f.length)
  {
    assert Bounded(isa, b);
  }

  lemma DecodeLocal(isa: Isa, b: seq<Byte>, c: seq<Byte>)
    requires Lawful(isa) && isa.decode(b).Some? && isa.decode(b).value.length <= |c|
    requires isa.decode(b).value.length <= |b| && b[..isa.decode(b).value.length] == c[..isa.decode(b).value.length]
    ensures isa.decode(c) == isa.decode(b)
  {
    assert Local(isa, b, c);
  }
}

module Relocation {
  import opened Options
  import opened Words
  import opened InstructionSet

  /** The leading instructions of a block that make room for a detour, or why there are none. */
  datatype Leader = Leader(forms: seq<Form>) | TooSmall | Undecodable | Terminator

  const DETOUR := 5

  /** buf holds the first bytes of the block, at most 32. */
  function Grow(isa: Isa, buf: seq<Byte>, size: nat, at: nat): Leader
    decreases DETOUR - at
  {
    if at >= DETOUR then Leader([])
    else if at >= size then TooSmall
    else if at > |buf| then Undecodable
    else
      var d := isa.decode(buf[at..]);
      if d.None? || d.value.length == 0 then Undecodable
      else if !d.value.category.Plain? then Terminator
      else
        var rest := Grow(isa, buf, size, at + d.value.length);
        if rest.Leader? then Leader([d.value] + rest.forms) else rest
  }

  function Total(forms: seq<Form>): nat {
    if forms == [] then 0 else forms[0].length + Total(forms[1..])
  }

  /** The forms are the instructions decoded one after the other from the bytes. */
  ghost predicate Decodes(isa: Isa, b: seq<Byte>, forms: seq<Form>) {
    if forms == [] then true
    else
      && isa.decode(b) == Some(forms[0]) && 1 <= forms[0].length <= |b| && forms[0].category.Plain?
      && (forms[0].operandAt.Some? ==> forms[0].operandAt.value + 4 <= forms[0].length)
      && Decodes(isa, b[forms[0].length..], forms[1..])
  }

  lemma {:induction false} DecodesTotal(isa: Isa, b: seq<Byte>, forms: seq<Form>)
    requires Decodes(isa, b, forms)
    ensures Total(forms) <= |b|
  {
    if forms != [] {
      DecodesTotal(isa, b[forms[0].length..], forms[1..]);
    }
  }

  /** The displaced instructions are plain, at least a detour long, and do not pass the buffer. */
  lemma {:induction false} GrowFits(isa: Isa, buf: seq<Byte>, size: nat, at: nat)
    requires Lawful(isa) && |buf| <= size && at <= |buf| && Grow(isa, buf, size, at).Leader?
    ensures var forms := Grow(isa, buf, size, at).forms;
      && Decodes(isa, buf[at..], forms)
      && DETOUR <= at + Total(forms) <= |buf|
      && (at < DETOUR ==> at + Total(forms) <= DETOUR + 14)
    decreases DETOUR - at
  {
    if at < DETOUR {
      var f := isa.decode(buf[at..]).value;
      DecodeBounds(isa, buf[at..]);
      GrowFits(isa, buf, size, at + f.length);
      assert buf[at..][f.length..] == buf[at + f.length..];
      assert Grow(isa, buf, size, at).forms[1..] == Grow(isa, buf, size, at + f.length).forms;
    }
  }

  // ---- moving -----------------------------------------------------------------------------------------------------------------

  function OperandOf(insn: seq<Byte>, f: Form): int
    requires f.operandAt.Some? && f.operandAt.value + 4 <= |insn|
  {
    Signed32(insn[f.operandAt.value..f.operandAt.value + 4])
  }

  /** One instruction, moved; a RIP-relative displacement is re-based, and the move fails when it no longer fits. */
  function Moved(insn: seq<Byte>, f: Form, from: nat, to: nat): Option<seq<Byte>>
    requires f.operandAt.Some? ==> f.operandAt.value + 4 <= |insn|
  {
    if f.operandAt.None? then Some(insn)
    else
      var disp := OperandOf(insn, f) + (from - to);
      if Int32(disp) then Some(Patched(insn, f.operandAt.value, Encode32(disp))) else None
  }

  lemma MovedSize(insn: seq<Byte>, f: Form, from: nat, to: nat)
    requires f.operandAt.Some? ==> f.operandAt.value + 4 <= |insn|
    ensures var m := Moved(insn, f, from, to); m.Some? ==> |m.value| == |insn|
  {
  }

  predicate Shapely(forms: seq<Form>) {
    forall i :: 0 <= i < |forms| && forms[i].operandAt.Some? ==> forms[i].operandAt.value + 4 <= forms[i].length
  }

  function MovedAll(b: seq<Byte>, forms: seq<Form>, from: nat, to: nat): Option<seq<Byte>>
    requires Total(forms) <= |b| && Shapely(forms)
  {
    if forms == [] then Some([])
    else
      var n := forms[0].length;
      var first := Moved(b[..n], forms[0], from, to);
      if first.None? then None
      else
        var rest := MovedAll(b[n..], forms[1..], from + n, to + n);
        if rest.None? then None else Some(first.value + rest.value)
  }

  lemma {:induction false} DecodesShapely(isa: Isa, b: seq<Byte>, forms: seq<Form>)
    requires Decodes(isa, b, forms)
    ensures Shapely(forms)
  {
    if forms != [] {
      DecodesShapely(isa, b[forms[0].length..], forms[1..]);
      assert forall i :: 0 < i < |forms| ==> forms[i] == forms[1..][i - 1];
    }
  }

  lemma {:induction false} MovedLength(b: seq<Byte>, forms: seq<Form>, from: nat, to: nat)
    requires Total(forms) <= |b| && Shapely(forms) && MovedAll(b, forms, from, to).Some?
    ensures |MovedAll(b, forms, from, to).value| == Total(forms)
  {
    if forms != [] {
      MovedLength(b[forms[0].length..], forms[1..], from + forms[0].length, to + forms[0].length);
    }
  }

  /**
   A moved instruction names the same absolute operand from its new address, is decoded as the same instruction, and
   differs only in the displacement; the move fails exactly when no 32-bit displacement would do.
   */
  lemma MovedResolves(isa: Isa, insn: seq<Byte>, f: Form, from: nat, to: nat)
    requires Lawful(isa) && isa.decode(insn) == Some(f) && |insn| == f.length
    requires f.operandAt.Some? ==> f.operandAt.value + 4 <= |insn|
    ensures var m := Moved(insn, f, from, to);
      && (m.Some? ==> |m.value| == |insn| && isa.decode(m.value) == Some(f))
      && (m.Some? && f.operandAt.Some? ==>
            && to + f.length + OperandOf(m.value, f) == from + f.length + OperandOf(insn, f)
            && Patched(m.value, f.operandAt.value, [0, 0, 0, 0]) == Patched(insn, f.operandAt.value, [0, 0, 0, 0]))
      && (m.None? <==> f.operandAt.Some? && !(exists v: seq<Byte> :: |v| == 4 && to + Signed32(v) == from + OperandOf(insn, f)))
  {
    var m := Moved(insn, f, from, to);
    if f.operandAt.Some? {
      var at, disp := f.operandAt.value, OperandOf(insn, f) + (from - to);
      if m.Some? {
        Encode32RoundTrip(disp);
        assert m.value[at..at + 4] == Encode32(disp);
        assert Rebasable(isa, insn, Encode32(disp));
        assert m.value[..at] == insn[..at] && m.value[at + 4..] == insn[at + 4..];
        assert to + Signed32(Encode32(disp)) == from + OperandOf(insn, f);
      }
    }
  }
}
