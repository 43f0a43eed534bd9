/**
  The GbE region: its checksum and the repair ich9deblob makes.  A 4 KiB record is 64 words of
  settings, the last of them the checksum, and padding; the 8 KiB region is a main record and a backup.
  */
module Gbe {
  import opened Words
  import opened Memory
  import opened EmittedC
  import opened StructLayout

  const GBECHECKSUMTOTAL: nat := 0xBABA

  /** The memory of one struct GBEREGIONRECORD_4K. */
  type Record = m: Bits | |m| == 0x8000 witness seq(0x8000, _ => false)

  datatype Record8K = Record8K(main: Record, backup: Record)

  function Word(i: nat): Field { Field(16 * i, 16) }
  function MacByte(i: nat): Field { Field(8 * i, 8) }
  const CHECKSUM := Word(0x3F)
  const PADDING := ByteArray(0x80, 3968)

  // ----- the checksum -----

  /** Sum of n words from word `first` on. */
  function WordSum(m: Bits, first: nat, n: nat): nat
    requires 16 * (first + n) <= |m|
  {
    if n == 0 then 0 else WordSum(m, first, n - 1) + Get(m, Word(first + n - 1))
  }

  /** The word that brings the sum of a record's 64 words to desired. */
  function ChecksumFor(m: Bits, first: nat, desired: nat): nat
    requires 16 * (first + 0x3F) <= |m|
  {
    (desired - WordSum(m, first, 0x3F)) % U16
  }

  predicate ValidChecksum(g: Record) {
    WordSum(g, 0, 0x40) % U16 == GBECHECKSUMTOTAL
  }

  /** A 16-bit accumulator over the words, and the difference to the desired value in 16 bits. */
  method GetChecksumFrom4kBuffer(buffer: Bits, desired: nat, regionBase: nat) returns (checksum: nat)
    requires desired < U16 && 16 * (regionBase / 2 + 0x3F) <= |buffer|
    ensures checksum == ChecksumFor(buffer, regionBase / 2, desired)
    ensures checksum < U16 && (WordSum(buffer, regionBase / 2, 0x3F) + checksum) % U16 == desired
  {
    var base := regionBase / 2;
    var total := 0;
    var wordOffset := 0;
    while wordOffset < 0x3F
      invariant wordOffset <= 0x3F
      invariant total == WordSum(buffer, base, wordOffset) % U16
    {
      AddMod(WordSum(buffer, base, wordOffset), Get(buffer, Word(wordOffset + base)));
      total := (total + Get(buffer, Word(wordOffset + base))) % U16;
      wordOffset := wordOffset + 1;
    }
    checksum := (desired - total) % U16;
    Difference(WordSum(buffer, base, 0x3F), desired);
  }

  lemma AddMod(sum: nat, x: nat)
    ensures (sum % U16 + x) % U16 == (sum + x) % U16
  {
  }

  lemma Difference(sum: nat, desired: nat)
    requires desired < U16
    ensures (desired - sum % U16) % U16 == (desired - sum) % U16
    ensures (sum + (desired - sum) % U16) % U16 == desired
  {
  }

  method GetChecksumFrom4kStruct(g: Record, desired: nat) returns (checksum: nat)
    requires desired < U16
    ensures checksum == ChecksumFor(g, 0, desired)
  {
    checksum := GetChecksumFrom4kBuffer(g, desired, 0);
  }

  /** The sum of the words before the checksum depends on those words only. */
  lemma {:induction false} WordSumSame(m: Bits, n: Bits, first: nat, count: nat)
    requires 16 * (first + count) <= |m| && |m| == |n|
    requires forall k :: 16 * first <= k < 16 * (first + count) ==> m[k] == n[k]
    ensures WordSum(m, first, count) == WordSum(n, first, count)
  {
    if count > 0 {
      WordSumSame(m, n, first, count - 1);
      GetSame(m, n, Word(first + count - 1));
    }
  }

  /**
    Of all 16-bit values exactly one makes the record valid when stored in the checksum word: the one
    the tool computes.
    */
  lemma ChecksumUnique(g: Record, v: nat)
    requires v < U16
    ensures ValidChecksum(Put(g, CHECKSUM, v)) <==> v == ChecksumFor(g, 0, GBECHECKSUMTOTAL)
  {
    var h := Put(g, CHECKSUM, v);
    WordSumSame(g, h, 0, 0x3F);
    GetPut(g, CHECKSUM, v);
    assert Get(h, CHECKSUM) == v by { Pow2Values(); SmallMod(v, U16); }
    assert WordSum(h, 0, 0x40) == WordSum(h, 0, 0x3F) + Get(h, Word(0x3F));
    OnlySolution(WordSum(g, 0, 0x3F), v, GBECHECKSUMTOTAL);
  }

  lemma OnlySolution(sum: nat, v: nat, desired: nat)
    requires v < U16 && desired < U16
    ensures (sum + v) % U16 == desired <==> v == (desired - sum) % U16
  {
  }

  // ----- the repair -----

  function WithBlankPadding(g: Record): Record {
    seq(0x8000, k requires 0 <= k < 0x8000 => PADDING.off <= k || g[k])
  }

  function WithChecksum(g: Record): Record {
    Put(g, CHECKSUM, ChecksumFor(g, 0, GBECHECKSUMTOTAL))
  }

  function Repaired(g: Record): Record { WithChecksum(WithBlankPadding(g)) }

  /** The record comes from the backup: the factory's main record is known to be broken. */
  function Deblobbed8K(g: Record8K): Record8K {
    Record8K(Repaired(g.backup), Repaired(g.backup))
  }

  method DeblobbedGbeStructFromFactory(factory: Record8K) returns (g: Record8K)
    ensures g == Deblobbed8K(factory)
  {
    g := factory;
    var i := 0;
    while i < PADDING.width / 8
      invariant i <= PADDING.width / 8 && g.main == factory.main
      invariant forall k :: 0 <= k < 0x8000 ==>
                  g.backup[k] == (PADDING.off <= k < PADDING.off + 8 * i || factory.backup[k])
    {
      AllOnes();
      g := g.(backup := Put(g.backup, Element(PADDING, i), 0xFF));
      i := i + 1;
    }
    assert g.backup == WithBlankPadding(factory.backup);
    var checksum := GetChecksumFrom4kStruct(g.backup, GBECHECKSUMTOTAL);
    g := g.(backup := Put(g.backup, CHECKSUM, checksum));
    g := g.(main := g.backup);
  }

  predicate BlankPadding(g: Record) {
    forall k :: PADDING.off <= k < 0x8000 ==> g[k]
  }

  /** The first 63 words, which hold all settings, are the same. */
  predicate SameSettings(g: Record, h: Record) {
    forall k :: 0 <= k < CHECKSUM.off ==> g[k] == h[k]
  }

  lemma RepairedIs(g: Record)
    ensures SameSettings(Repaired(g), g) && BlankPadding(Repaired(g)) && ValidChecksum(Repaired(g))
  {
    var h := WithBlankPadding(g);
    ChecksumUnique(h, ChecksumFor(h, 0, GBECHECKSUMTOTAL));
    ChecksumOnly(h, ChecksumFor(h, 0, GBECHECKSUMTOTAL));
    assert SameSettings(h, g);
  }

  lemma ChecksumOnly(h: Record, v: nat)
    ensures SameSettings(Put(h, CHECKSUM, v), h)
    ensures forall k :: PADDING.off <= k < 0x8000 ==> Put(h, CHECKSUM, v)[k] == h[k]
  {
  }

  /** A record with the settings of g, blank padding and a valid checksum is the repair of g. */
  lemma RepairedUnique(g: Record, h: Record)
    requires SameSettings(h, g) && BlankPadding(h) && ValidChecksum(h)
    ensures h == Repaired(g)
  {
    var v := Get(h, CHECKSUM);
    GetBits(h, CHECKSUM);
    assert v < U16 == Pow2(16) by { Pow2Values(); }
    SettingsAndChecksum(g, h, v);
    ChecksumUnique(WithBlankPadding(g), v);
  }

  lemma SettingsAndChecksum(g: Record, h: Record, v: nat)
    requires SameSettings(h, g) && BlankPadding(h) && v == Get(h, CHECKSUM) && v < Pow2(16)
    ensures Put(WithBlankPadding(g), CHECKSUM, v) == h
  {
    GetIs(h, CHECKSUM, v);
    var r := Put(WithBlankPadding(g), CHECKSUM, v);
    forall k | 0 <= k < 0x8000
      ensures r[k] == h[k]
    {
    }
  }

  /**
    The repaired region, completely: both records are the same one, it has a valid checksum, all padding
    is 0xFF, its settings are those of the factory backup; and it is the only region of which this holds.
    */
  lemma Deblobbed8KIs(g: Record8K, r: Record8K)
    ensures r == Deblobbed8K(g) <==>
              && r.main == r.backup && ValidChecksum(r.main) && BlankPadding(r.main)
              && SameSettings(r.main, g.backup)
  {
    RepairedIs(g.backup);
    if r.main == r.backup && ValidChecksum(r.main) && BlankPadding(r.main) && SameSettings(r.main, g.backup) {
      RepairedUnique(g.backup, r.main);
    }
  }

  /** Repairing twice is repairing once. */
  lemma Deblobbed8KAgain(g: Record8K)
    ensures Deblobbed8K(Deblobbed8K(g)) == Deblobbed8K(g)
  {
    RepairedIs(g.backup);
    RepairedUnique(Repaired(g.backup), Repaired(g.backup));
  }
}
