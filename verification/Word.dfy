/** Unsigned machine words and the wrapping "before" order of the scheduler's clocks. */
module Word {
  const U64_SIZE := 0x1_0000_0000_0000_0000
  const U63_SIZE := 0x8000_0000_0000_0000
  const U32_MAX := 0xFFFF_FFFF

  type U64 = x: int | 0 <= x < 0x1_0000_0000_0000_0000
  type U32 = x: int | 0 <= x < 0x1_0000_0000
  type U8 = x: int | 0 <= x < 0x100

  /** Reduction of an unbounded integer to a 64-bit word. */
  function Wrap(z: int): U64 {
    z % 0x1_0000_0000_0000_0000
  }

  function Add64(a: U64, b: U64): U64 {
    if a + b < 0x1_0000_0000_0000_0000 then a + b else a + b - 0x1_0000_0000_0000_0000
  }

  function Sub64(a: U64, b: U64): U64 {
    if b <= a then a - b else a - b + 0x1_0000_0000_0000_0000
  }

  function Mul64(a: U64, b: U64): U64 {
    if 0 <= a * b < 0x1_0000_0000_0000_0000 then a * b else Wrap(a * b)
  }

  /** The two's complement reading of a word. */
  function Signed(a: U64): int {
    if a < 0x8000_0000_0000_0000 then a else a - 0x1_0000_0000_0000_0000
  }

  /** `(s64)(b - a) > 0`: a is before b in the wrapping order. */
  predicate TimeBefore(a: U64, b: U64) {
    Signed(Sub64(b, a)) > 0
  }

  function Min(a: int, b: int): int { if a <= b then a else b }

  function Max(a: int, b: int): int { if a <= b then b else a }

  lemma WrapWord(x: U64)
    ensures Wrap(x) == x
  {
  }

  /** Adding the modulus does not change the word. */
  lemma WrapPeriod(z: int, k: int)
    ensures Wrap(z + k * 0x1_0000_0000_0000_0000) == Wrap(z)
  {
  }

  /** On unbounded instants less than 2^63 apart the wrapping order is the integer order. */
  lemma TimeBeforeIsLess(a: int, b: int)
    requires -0x8000_0000_0000_0000 < b - a < 0x8000_0000_0000_0000
    ensures TimeBefore(Wrap(a), Wrap(b)) <==> a < b
  {
    WrapSub(b, a);
  }

  /** Subtracting two words wraps the difference of the instants they stand for. */
  lemma WrapSub(a: int, b: int)
    ensures Sub64(Wrap(a), Wrap(b)) == Wrap(a - b)
  {
    var k := a / 0x1_0000_0000_0000_0000 - b / 0x1_0000_0000_0000_0000;
    WrapPeriod(Sub64(Wrap(a), Wrap(b)), if Wrap(b) <= Wrap(a) then k else k - 1);
  }

  lemma WrapAdd(a: int, b: int)
    ensures Add64(Wrap(a), Wrap(b)) == Wrap(a + b)
  {
    var k := a / 0x1_0000_0000_0000_0000 + b / 0x1_0000_0000_0000_0000;
    WrapPeriod(Add64(Wrap(a), Wrap(b)), if Wrap(a) + Wrap(b) < 0x1_0000_0000_0000_0000 then k else k + 1);
  }

  lemma WrapAddWord(a: int, k: U64)
    ensures Add64(Wrap(a), k) == Wrap(a + k)
  {
    WrapWord(k);
    WrapAdd(a, k);
  }

  /** A word lies on the half circle that starts at base. */
  predicate InArc(base: U64, x: U64) {
    Sub64(x, base) < 0x8000_0000_0000_0000
  }

  /** On one half circle the wrapping order is the order of the distances from its start. */
  lemma TimeBeforeInArc(base: U64, a: U64, b: U64)
    requires InArc(base, a) && InArc(base, b)
    ensures TimeBefore(a, b) <==> Sub64(a, base) < Sub64(b, base)
  {
  }
}
