/** Machine words: the 32-bit lock word, 64-bit counters, and the bit tests the code applies to them. */
module Words {

  const U32_LIMIT: int := 0x1_0000_0000
  const U64_LIMIT: int := 0x1_0000_0000_0000_0000

  type u32 = x: int | 0 <= x < U32_LIMIT
  type u64 = x: int | 0 <= x < U64_LIMIT

  /** Bit 31 of a reader/writer word is the writer; the bits below count the readers. */
  const TOP_BIT: u32 := 0x8000_0000

  predicate HasTop(v: u32) {
    v >= TOP_BIT
  }

  /** `v & ~TOP_BIT` */
  function ClearTop(v: u32): (cleared: u32)
    ensures !HasTop(cleared) && (cleared == v <==> !HasTop(v))
  {
    v % TOP_BIT
  }

  /** `v + 1` in 32 bits */
  function Inc(v: u32): u32 {
    (v + 1) % U32_LIMIT
  }

  /** `v - 1` in 32 bits */
  function Dec(v: u32): u32 {
    (v + U32_LIMIT - 1) % U32_LIMIT
  }

  /** `v >> n` */
  function ShiftRight(v: u32, n: nat): u32 {
    if n == 0 then v else ShiftRight(v / 2, n - 1)
  }

  /** `(v >> index) & 1`, for an index below the width of the word */
  function BitAt(v: u32, index: nat): nat {
    ShiftRight(v, index) % 2
  }

  function PowerOfTwo(n: nat): (p: nat)
    ensures p > 0
  {
    if n == 0 then 1 else 2 * PowerOfTwo(n - 1)
  }

  /** Shifting is dividing. */
  lemma {:induction false} ShiftDivides(v: u32, n: nat)
    ensures ShiftRight(v, n) == v / PowerOfTwo(n)
  {
    if n > 0 {
      ShiftDivides(v / 2, n - 1);
      HalfThenDivide(v, PowerOfTwo(n - 1));
    }
  }

  lemma HalfThenDivide(v: nat, d: nat)
    requires d > 0
    ensures v / 2 / d == v / (2 * d)
  {
    var q, r := v / 2 / d, v / 2 % d;
    assert v / 2 == q * d + r;
    Regroup(q, d);
    QuotientIs(v, 2 * d, q, 2 * r + v % 2);
  }

  lemma Regroup(q: nat, d: nat)
    ensures q * (2 * d) == 2 * (q * d)
  {
  }

  lemma QuotientIs(v: nat, d: nat, q: nat, r: nat)
    requires r < d && v == q * d + r
    ensures v / d == q
  {
    Divide(v, d, v / d, v % d, q, r);
  }

  /** Quotients are unique. */
  lemma Divide(v: nat, d: nat, q: int, r: nat, q': nat, r': nat)
    requires r < d && v == q * d + r && r' < d && v == q' * d + r'
    ensures q == q'
  {
    if q < q' {
      MulGrows(q + 1, q', d);
    } else if q' < q {
      MulGrows(q' + 1, q, d);
    }
  }

  lemma MulGrows(a: int, b: int, d: nat)
    requires a <= b
    ensures a * d <= b * d
  {
  }

  lemma {:induction false} ShiftsAdd(v: u32, m: nat, n: nat)
    ensures ShiftRight(v, m + n) == ShiftRight(ShiftRight(v, m), n)
  {
    if m > 0 {
      ShiftsAdd(v / 2, m - 1, n);
    }
  }

  lemma ShiftByFour(v: u32)
    ensures ShiftRight(v, 3) == v / 8
    ensures ShiftRight(v, 4) == v / 0x10
  {
    assert ShiftRight(v, 1) == v / 2;
    assert ShiftRight(v / 2, 1) == v / 4;
    assert ShiftRight(v / 4, 1) == v / 8;
    assert ShiftRight(v / 8, 1) == v / 0x10;
    ShiftsAdd(v, 1, 1);
    ShiftsAdd(v, 2, 1);
    ShiftsAdd(v, 3, 1);
  }

  lemma ShiftByByte(v: u32)
    ensures ShiftRight(v, 8) == v / 0x100
  {
    ShiftByFour(v);
    ShiftByFour(v / 0x10);
    ShiftsAdd(v, 4, 4);
  }

  lemma ShiftBySeven(v: u32)
    ensures ShiftRight(v, 7) == v / 0x80
  {
    ShiftByFour(v);
    ShiftByFour(v / 0x10);
    ShiftsAdd(v, 4, 3);
  }

  lemma ShiftByThreeBytes(v: u32)
    ensures ShiftRight(v, 24) == v / 0x100_0000
  {
    ShiftByByte(v);
    ShiftByByte(v / 0x100);
    ShiftByByte(v / 0x1_0000);
    ShiftsAdd(v, 8, 8);
    ShiftsAdd(v, 16, 8);
  }

  /** The binary digits are those that the shifts test. */
  lemma BitsAreDigits(v: u32, index: nat)
    ensures BitAt(v, index) == v / PowerOfTwo(index) % 2
  {
    ShiftDivides(v, index);
  }

  /** Testing bit 31 by shifting is testing `v & TOP_BIT`. */
  lemma TopIsBit31(v: u32)
    ensures BitAt(v, 31) == 1 <==> HasTop(v)
    ensures BitAt(v, 31) == 0 <==> !HasTop(v)
  {
    ShiftByThreeBytes(v);
    ShiftBySeven(v / 0x100_0000);
    ShiftsAdd(v, 24, 7);
  }
}
