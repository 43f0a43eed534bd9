/**
  The memory behind a C struct, as a string of bits: bit k of byte b is bit 8*b + k.
  On the x86 ABI the original insists on, a member `T name : w` declared after n bits of a struct
  is the w bits from bit n up, least significant first, and a little-endian integer of w bits at
  byte b is the w bits from bit 8*b up.  Reading and assigning any member is Get and Put.
  */
module Memory {
  import opened Words

  type Bits = seq<bool>

  /** A member of a struct: where its lowest bit is and how many bits it has. */
  datatype Field = Field(off: nat, width: nat) {
    function End(): nat { off + width }
    predicate In(m: Bits) { off + width <= |m| }
    predicate Covers(k: nat) { off <= k < off + width }
    predicate Apart(g: Field) { End() <= g.off || g.End() <= off }
  }

  /** Bits lo .. lo+width-1 of the 32-bit register at a byte address. */
  function Reg(address: nat, lo: nat, width: nat): Field {
    Field(8 * address + lo, width)
  }

  /** A byte array of a struct, by byte address and length. */
  function ByteArray(address: nat, count: nat): Field {
    Field(8 * address, 8 * count)
  }

  /** The value of a member. */
  function Get(m: Bits, f: Field): nat
    requires f.In(m)
    decreases f.width, |m|
  {
    if f.width == 0 then 0
    else Bit(m[f.off]) + 2 * Get(m, Field(f.off + 1, f.width - 1))
  }

  /** Assignment to a member; a value too wide for it loses its high bits, as in C. */
  function Put(m: Bits, f: Field, v: nat): (r: Bits)
    requires f.In(m)
    ensures |r| == |m|
  {
    seq(|m|, k requires 0 <= k < |m| => if f.Covers(k) then BitOf(v, k - f.off) else m[k])
  }

  /** Two memories hold the same bits in a member. */
  predicate Same(m: Bits, n: Bits, f: Field)
    requires f.In(m) && f.In(n)
  {
    forall k :: f.off <= k < f.End() ==> m[k] == n[k]
  }

  /** A member's value spells out its bits, and fits its width. */
  lemma {:induction false} GetBits(m: Bits, f: Field)
    requires f.In(m)
    ensures Get(m, f) < Pow2(f.width)
    ensures forall i :: 0 <= i < f.width ==> BitOf(Get(m, f), i) == m[f.off + i]
    decreases f.width
  {
    if f.width > 0 {
      var rest := Field(f.off + 1, f.width - 1);
      GetBits(m, rest);
      assert Get(m, f) / 2 == Get(m, rest);
      forall i | 0 <= i < f.width
        ensures BitOf(Get(m, f), i) == m[f.off + i]
      {
        if i > 0 { assert BitOf(Get(m, rest), i - 1) == m[rest.off + (i - 1)]; }
      }
    }
  }

  /** The bits of v determine the value read: exactly v modulo 2^width. */
  lemma {:induction false} GetFromBits(m: Bits, f: Field, v: nat)
    requires f.In(m)
    requires forall i :: 0 <= i < f.width ==> m[f.off + i] == BitOf(v, i)
    ensures Get(m, f) == v % Pow2(f.width)
    decreases f.width
  {
    if f.width > 0 {
      var rest := Field(f.off + 1, f.width - 1);
      forall i | 0 <= i < rest.width
        ensures m[rest.off + i] == BitOf(v / 2, i)
      {
        assert m[f.off + (i + 1)] == BitOf(v, i + 1);
      }
      GetFromBits(m, rest, v / 2);
      assert m[f.off + 0] == BitOf(v, 0);
      HalfMod(v, Pow2(f.width - 1));
    }
  }

  lemma HalfMod(v: nat, p: nat)
    requires 0 < p
    ensures v % (2 * p) == v % 2 + 2 * ((v / 2) % p)
  {
    var h := v / 2;
    var q, r := h / p, h % p;
    assert h == q * p + r;
    assert v == q * (2 * p) + (v % 2 + 2 * r);
    DivModUnique(v, 2 * p, q, v % 2 + 2 * r);
  }

  /** Reading a member just assigned gives the assigned value cut to the member's width. */
  lemma GetPut(m: Bits, f: Field, v: nat)
    requires f.In(m)
    ensures Get(Put(m, f, v), f) == v % Pow2(f.width)
  {
    var r := Put(m, f, v);
    forall i | 0 <= i < f.width
      ensures r[f.off + i] == BitOf(v, i)
    {
    }
    GetFromBits(r, f, v);
  }

  /** The value of a member is the same exactly when its bits are. */
  lemma {:induction false} GetSame(m: Bits, n: Bits, f: Field)
    requires f.In(m) && f.In(n)
    ensures Same(m, n, f) <==> Get(m, f) == Get(n, f)
  {
    GetBits(m, f);
    GetBits(n, f);
    if Same(m, n, f) {
      forall i | 0 <= i < f.width
        ensures m[f.off + i] == BitOf(Get(n, f), i)
      {
        assert m[f.off + i] == n[f.off + i];
      }
      GetFromBits(m, f, Get(n, f));
      SmallMod(Get(n, f), Pow2(f.width));
    }
    if Get(m, f) == Get(n, f) {
      forall k | f.off <= k < f.End()
        ensures m[k] == n[k]
      {
        assert BitOf(Get(m, f), k - f.off) == m[f.off + (k - f.off)];
        assert BitOf(Get(n, f), k - f.off) == n[f.off + (k - f.off)];
      }
    }
  }

  /** A member of m has the value v exactly when its bits are those of v. */
  lemma GetIs(m: Bits, f: Field, v: nat)
    requires f.In(m) && v < Pow2(f.width)
    ensures Get(m, f) == v <==> forall k :: f.off <= k < f.End() ==> m[k] == BitOf(v, k - f.off)
  {
    GetPut(m, f, v);
    SmallMod(v, Pow2(f.width));
    GetSame(m, Put(m, f, v), f);
    assert Same(m, Put(m, f, v), f) <==> forall k :: f.off <= k < f.End() ==> m[k] == BitOf(v, k - f.off);
  }

  /** Assigning one member leaves every member apart from it alone. */
  lemma GetPutApart(m: Bits, f: Field, v: nat, g: Field)
    requires f.In(m) && g.In(m) && f.Apart(g)
    ensures Get(Put(m, f, v), g) == Get(m, g)
  {
    GetSame(m, Put(m, f, v), g);
  }

  // ----- parts of members -----

  /** Two adjacent members read together: the first declared is the lower one. */
  lemma {:induction false} GetJoined(m: Bits, off: nat, low: nat, high: nat)
    requires off + low + high <= |m|
    ensures Get(m, Field(off, low + high)) == Get(m, Field(off, low)) + Pow2(low) * Get(m, Field(off + low, high))
    decreases low
  {
    if low > 0 {
      GetJoined(m, off + 1, low - 1, high);
      GetStep(m, off, low + high);
      GetStep(m, off, low);
      Doubled(Pow2(low - 1), Get(m, Field(off + low, high)));
    }
  }

  lemma GetStep(m: Bits, off: nat, width: nat)
    requires 0 < width && off + width <= |m|
    ensures Get(m, Field(off, width)) == Bit(m[off]) + 2 * Get(m, Field(off + 1, width - 1))
  {
  }

  lemma Doubled(p: nat, x: nat)
    ensures 2 * p * x == 2 * (p * x)
  {
  }

  // ----- bytes -----

  /** The bits of a byte string, and the bytes of a bit string. */
  function BitsOf(bytes: seq<byte>): (m: Bits)
    ensures |m| == 8 * |bytes|
  {
    seq(8 * |bytes|, k requires 0 <= k < 8 * |bytes| => BitOf(bytes[k / 8], k % 8))
  }

  function ByteAt(m: Bits, i: nat): (b: byte)
    requires 8 * i + 8 <= |m|
  {
    GetBits(m, Field(8 * i, 8));
    Pow2Values();
    Get(m, Field(8 * i, 8))
  }

  function BytesOf(m: Bits): (bytes: seq<byte>)
    requires |m| % 8 == 0
    ensures |bytes| == |m| / 8
  {
    seq(|m| / 8, i requires 0 <= i < |m| / 8 => ByteAt(m, i))
  }

  lemma BitOfByte(bytes: seq<byte>, i: nat, j: nat)
    requires i < |bytes| && j < 8
    ensures BitsOf(bytes)[8 * i + j] == BitOf(bytes[i], j)
  {
  }

  lemma ByteAtBits(bytes: seq<byte>, i: nat)
    requires i < |bytes|
    ensures ByteAt(BitsOf(bytes), i) == bytes[i]
  {
    var m, f := BitsOf(bytes), Field(8 * i, 8);
    forall j | 0 <= j < f.width
      ensures m[f.off + j] == BitOf(bytes[i], j)
    {
      BitOfByte(bytes, i, j);
    }
    GetFromBits(m, f, bytes[i]);
    assert Pow2(f.width) == 256 by { Pow2Values(); }
    SmallMod(bytes[i], 256);
  }

  /** Bytes and bits carry the same information: the two views convert into each other exactly. */
  lemma BytesOfBits(bytes: seq<byte>)
    ensures BytesOf(BitsOf(bytes)) == bytes
  {
    forall i | 0 <= i < |bytes|
      ensures BytesOf(BitsOf(bytes))[i] == bytes[i]
    {
      ByteAtBits(bytes, i);
    }
  }

  lemma BitsOfBytes(m: Bits)
    requires |m| % 8 == 0
    ensures BitsOf(BytesOf(m)) == m
  {
    var bytes := BytesOf(m);
    forall k | 0 <= k < |m|
      ensures BitsOf(bytes)[k] == m[k]
    {
      var f := Field(8 * (k / 8), 8);
      GetBits(m, f);
      assert bytes[k / 8] == Get(m, f);
      assert BitOf(Get(m, f), k % 8) == m[f.off + k % 8];
    }
  }

  /** A part of a member: w bits from bit lo on. */
  lemma MemberPart(m: Bits, f: Field, lo: nat, w: nat)
    requires f.In(m) && lo + w <= f.width
    ensures Get(m, Field(f.off + lo, w)) == Get(m, f) / Pow2(lo) % Pow2(w)
  {
    var low, high := Get(m, Field(f.off, lo)), Get(m, Field(f.off + lo, f.width - lo));
    GetJoined(m, f.off, lo, f.width - lo);
    GetBits(m, Field(f.off, lo));
    Parts(Get(m, f), Pow2(lo), low, high);
    LowestPart(m, f.off + lo, w, f.width - lo);
  }

  lemma LowestPart(m: Bits, off: nat, w: nat, width: nat)
    requires w <= width && off + width <= |m|
    ensures Get(m, Field(off, w)) == Get(m, Field(off, width)) % Pow2(w)
  {
    GetJoined(m, off, w, width - w);
    GetBits(m, Field(off, w));
    Parts(Get(m, Field(off, width)), Pow2(w), Get(m, Field(off, w)), Get(m, Field(off + w, width - w)));
  }

  /** The bits lo to lo+w-1 of a byte. */
  lemma BytePart(m: Bits, i: nat, lo: nat, w: nat)
    requires 8 * i + 8 <= |m| && lo + w <= 8
    ensures Get(m, Field(8 * i + lo, w)) == ByteAt(m, i) / Pow2(lo) % Pow2(w)
  {
    MemberPart(m, Field(8 * i, 8), lo, w);
  }

  lemma Parts(x: nat, p: nat, low: nat, high: nat)
    requires x == low + p * high && low < p
    ensures x / p == high && x % p == low
  {
    DivModUnique(x, p, high, low);
  }
}
