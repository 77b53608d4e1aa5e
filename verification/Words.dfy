/** Bytes, 64-bit words and little-endian encodings. */
module Words {
  type Byte = b: int | 0 <= b < 256

  const WORD := 0x1_0000_0000_0000_0000

  type Word = w: int | 0 <= w < WORD

  /** Arithmetic on addresses wraps around; no sum formed here is off by more than one turn. */
  function Wrap(x: int): Word
    requires -WORD <= x < 2 * WORD
  {
    if x < 0 then x + WORD else if x >= WORD then x - WORD else x
  }

  function Power(n: nat): (p: nat)
    ensures p > 0
  {
    if n == 0 then 1 else 256 * Power(n - 1)
  }

  function Encode(n: nat, v: nat): (s: seq<Byte>)
    ensures |s| == n
  {
    if n == 0 then [] else [v % 256] + Encode(n - 1, v / 256)
  }

  function Value(s: seq<Byte>): nat {
    if s == [] then 0 else s[0] + 256 * Value(s[1..])
  }

  lemma {:induction false} ValueBelow(s: seq<Byte>)
    ensures Value(s) < Power(|s|)
  {
    if s != [] {
      ValueBelow(s[1..]);
    }
  }

  lemma {:induction false} ValueOfEncode(n: nat, v: nat)
    requires v < Power(n)
    ensures Value(Encode(n, v)) == v
  {
    if n > 0 {
      ValueOfEncode(n - 1, v / 256);
    }
  }

  lemma WordPower()
    ensures Power(8) == WORD && Power(4) == 0x1_0000_0000
  {
    assert Power(1) == 256 && Power(2) == 0x1_0000 && Power(3) == 0x100_0000;
    assert Power(5) == 0x100_0000_0000 && Power(6) == 0x1_0000_0000_0000 && Power(7) == 0x100_0000_0000_0000;
  }

  // ---- signed 32-bit displacements --------------------------------------------------------------------------------------

  predicate Int32(x: int) {
    -0x8000_0000 <= x <= 0x7FFF_FFFF
  }

  function Encode32(x: int): (s: seq<Byte>)
    requires Int32(x)
    ensures |s| == 4
  {
    Encode(4, if x < 0 then x + 0x1_0000_0000 else x)
  }

  function Signed32(s: seq<Byte>): (x: int)
    requires |s| == 4
    ensures Int32(x)
  {
    ValueBelow(s);
    WordPower();
    if Value(s) >= 0x8000_0000 then Value(s) - 0x1_0000_0000 else Value(s)
  }

  lemma Encode32RoundTrip(x: int)
    requires Int32(x)
    ensures Signed32(Encode32(x)) == x
  {
    WordPower();
    ValueOfEncode(4, if x < 0 then x + 0x1_0000_0000 else x);
  }
}
