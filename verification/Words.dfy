/**
  Unsigned machine words as natural numbers: powers of two, single bits, bitwise OR and shifts.
  Every fact about the shifts and masks of the C code comes from here.
  */
module Words {

  const U16: nat := 0x1_0000
  const U32: nat := 0x1_0000_0000

  /** A byte of a file or of memory. */
  type byte = x: nat | x < 256

  function Pow2(n: nat): (r: nat)
    ensures 1 <= r
  {
    if n == 0 then 1 else 2 * Pow2(n - 1)
  }

  /** Bit i of v, counting from the least significant bit. */
  predicate BitOf(v: nat, i: nat) {
    if i == 0 then v % 2 == 1 else BitOf(v / 2, i - 1)
  }

  function Bit(b: bool): nat { if b then 1 else 0 }

  /** The C operator `|` on unsigned operands. */
  function Or(a: nat, b: nat): nat
    decreases a + b
  {
    if a == 0 && b == 0 then 0
    else Bit(a % 2 == 1 || b % 2 == 1) + 2 * Or(a / 2, b / 2)
  }

  /** The C operator `<<` on an unsigned 32-bit operand. */
  function Shl32(a: nat, k: nat): nat { a * Pow2(k) % U32 }

  /** The C operator `>>` on an unsigned operand. */
  function Shr(a: nat, k: nat): nat { Quotient(a, Pow2(k)) }

  function Quotient(a: nat, d: nat): nat
    requires 0 < d
  {
    a / d
  }

  /** Unsigned 32-bit addition, subtraction and multiplication, with wrap-around. */
  function Add32(a: nat, b: nat): nat { (a + b) % U32 }
  function Sub32(a: nat, b: nat): nat { (a - b) % U32 }
  function Mul32(a: nat, b: nat): nat { (a * b) % U32 }

  lemma {:induction false} Pow2Sum(a: nat, b: nat)
    ensures Pow2(a + b) == Pow2(a) * Pow2(b)
  {
    if a > 0 {
      Pow2Sum(a - 1, b);
      assert Pow2(a) * Pow2(b) == 2 * (Pow2(a - 1) * Pow2(b));
    }
  }

  /** A left shift that loses no bit. */
  lemma ShlFits(a: nat, k: nat)
    requires a * Pow2(k) < U32
    ensures Shl32(a, k) == a * Pow2(k)
  {
  }

  lemma Pow2Values()
    ensures Pow2(0) == 1 && Pow2(1) == 2 && Pow2(2) == 4 && Pow2(3) == 8 && Pow2(4) == 16
    ensures Pow2(5) == 0x20 && Pow2(6) == 0x40 && Pow2(7) == 0x80
    ensures Pow2(8) == 0x100 && Pow2(9) == 0x200 && Pow2(10) == 0x400 && Pow2(11) == 0x800 && Pow2(12) == 0x1000
    ensures Pow2(13) == 0x2000 && Pow2(14) == 0x4000 && Pow2(15) == 0x8000 && Pow2(16) == 0x1_0000
  {
    assert Pow2(4) == 16;
    assert Pow2(8) == 256;
    assert Pow2(12) == 0x1000;
  }

  lemma Pow2Of32()
    ensures Pow2(32) == U32
  {
    Pow2Sum(16, 16);
    Pow2Values();
  }

  /** Bits of a number at or above its width are clear. */
  lemma {:induction false} HighBitsClear(v: nat, w: nat, i: nat)
    requires v < Pow2(w) && w <= i
    ensures !BitOf(v, i)
  {
    if i > 0 {
      HighBitsClear(v / 2, if w == 0 then 0 else w - 1, i - 1);
    }
  }

  /** A bitwise OR has a bit exactly where one of its operands has it. */
  lemma {:induction false} OrBit(a: nat, b: nat, i: nat)
    ensures BitOf(Or(a, b), i) == (BitOf(a, i) || BitOf(b, i))
    decreases i
  {
    if a == 0 && b == 0 {
      HighBitsClear(0, 0, i);
    } else if i > 0 {
      assert Or(a, b) / 2 == Or(a / 2, b / 2);
      OrBit(a / 2, b / 2, i - 1);
    }
  }

  /** A left shift by k moves bit i to bit k + i and clears the bits below k. */
  lemma {:induction false} ShiftedBit(v: nat, k: nat, i: nat)
    ensures BitOf(v * Pow2(k), k + i) == BitOf(v, i)
    ensures i < k ==> !BitOf(v * Pow2(k), i)
    decreases k
  {
    if k > 0 {
      assert v * Pow2(k) == 2 * (v * Pow2(k - 1));
      ShiftedBit(v, k - 1, i);
      ShiftedBit(v, k - 1, if i == 0 then 0 else i - 1);
    }
  }

  lemma {:induction false} OrBound(a: nat, b: nat, w: nat)
    requires a < Pow2(w) && b < Pow2(w)
    ensures Or(a, b) < Pow2(w)
  {
    if w > 0 {
      OrBound(a / 2, b / 2, w - 1);
    }
  }

  lemma {:induction false} OrZero(a: nat)
    ensures Or(a, 0) == a && Or(0, a) == a
  {
    if a > 0 {
      OrZero(a / 2);
    }
  }

  /** OR of a multiple of 2^w with a number below 2^w is their sum: the two fields cannot overlap. */
  lemma {:induction false} OrDisjoint(hi: nat, lo: nat, w: nat)
    requires lo < Pow2(w)
    ensures Or(hi * Pow2(w), lo) == hi * Pow2(w) + lo
    decreases w
  {
    if w == 0 {
      OrZero(hi);
    } else {
      var a := hi * Pow2(w);
      assert a == 2 * (hi * Pow2(w - 1));
      OrDisjoint(hi, lo / 2, w - 1);
      assert a / 2 == hi * Pow2(w - 1) && a % 2 == 0;
    }
  }

  /** a times 2^w, doubling by doubling. */
  function Up(a: nat, w: nat): nat { if w == 0 then a else 2 * Up(a, w - 1) }

  lemma {:induction false} UpIs(a: nat, w: nat)
    ensures Up(a, w) == a * Pow2(w)
  {
    if w > 0 {
      UpIs(a, w - 1);
    }
  }

  /** OR with a multiple of 2^w leaves the part below bit w alone. */
  lemma {:induction false} OrAbove(a: nat, low: nat, b: nat, w: nat)
    requires low < Pow2(w)
    ensures Or(Up(a, w) + low, Up(b, w)) == Up(Or(a, b), w) + low
    decreases w
  {
    if w > 0 {
      OrAbove(a, low / 2, b, w - 1);
      OrAboveStep(Up(a, w), Up(a, w - 1), low, Up(b, w), Up(b, w - 1), Up(Or(a, b), w - 1));
    }
  }

  lemma OrAboveStep(x: nat, x': nat, low: nat, y: nat, y': nat, o: nat)
    requires x == 2 * x' && y == 2 * y' && Or(x' + low / 2, y') == o + low / 2
    ensures Or(x + low, y) == 2 * o + low
  {
    OrHalves(x + low, x' + low / 2, low, y, y', 0);
  }

  /** One step of OR, the operands given by their halves and a number of the same parity. */
  lemma OrHalves(x: nat, x': nat, b: nat, y: nat, y': nat, d: nat)
    requires x == 2 * x' + b % 2 && y == 2 * y' + d % 2
    ensures Or(x, y) == Bit(b % 2 == 1 || d % 2 == 1) + 2 * Or(x', y')
  {
    if x != 0 || y != 0 {
      assert x / 2 == x' && y / 2 == y';
    }
  }

  /** Two fields side by side, the upper one shifted into place without losing a bit. */
  lemma TwoFields(hi: nat, lo: nat, w: nat)
    requires lo < Pow2(w) && hi * Pow2(w) < U32
    ensures Or(Shl32(hi, w), lo) == hi * Pow2(w) + lo
  {
    ShlFits(hi, w);
    OrDisjoint(hi, lo, w);
  }

  /** Reading back the two halves of hi * 2^w + lo. */
  lemma SplitHalves(hi: nat, lo: nat, w: nat)
    requires lo < Pow2(w)
    ensures (hi * Pow2(w) + lo) / Pow2(w) == hi
    ensures (hi * Pow2(w) + lo) % Pow2(w) == lo
  {
    DivModUnique(hi * Pow2(w) + lo, Pow2(w), hi, lo);
  }

  /** Quotient and remainder are determined by their defining equation. */
  lemma DivModUnique(x: nat, d: nat, q: nat, r: nat)
    requires 0 < d && x == q * d + r && r < d
    ensures x / d == q && x % d == r
  {
    var q', r' := x / d, x % d;
    var k := q' - q;
    assert k * d == r - r' by {
      assert x == d * q' + r';
      Distribute(q', q, d);
    }
    MultipleApart(k, d);
  }

  lemma SmallMod(v: nat, p: nat)
    requires v < p
    ensures v % p == v
  {
  }

  lemma Distribute(a: int, b: int, d: int)
    ensures (a - b) * d == a * d - b * d
  {
  }

  /** Multiples of d other than zero are at least d away from zero. */
  lemma MultipleApart(k: int, d: int)
    requires 0 < d
    ensures k >= 1 ==> k * d >= d
    ensures k <= -1 ==> k * d <= -d
  {
    if k >= 1 {
      assert k * d == (k - 1) * d + d;
    } else {
      assert k * d == (k + 1) * d - d;
    }
  }

  lemma MulMono(a: int, b: int, d: nat)
    requires a <= b
    ensures a * d <= b * d
  {
    assert (b - a) * d >= 0;
    Distribute(b, a, d);
  }

  /** Bounds on a quotient from bounds on the dividend. */
  lemma QuotientAtLeast(x: nat, d: nat, q: nat)
    requires 0 < d && q * d <= x
    ensures q <= x / d
  {
    var r := x / d;
    assert x < (r + 1) * d by { assert (r + 1) * d == r * d + d; }
    if r < q {
      MulMono(r + 1, q, d);
    }
  }

  lemma QuotientBelow(x: nat, d: nat, q: nat)
    requires 0 < d && x < q * d
    ensures x / d < q
  {
    var r := x / d;
    assert r * d <= x;
    if r >= q {
      MulMono(q, r, d);
    }
  }
}
