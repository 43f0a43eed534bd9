/**
  Why the checksum 0x348A that mkgbe.c has as a constant is right.
  */
module GbeChecksum {
  import opened Memory
  import opened Gbe
  import opened GbeLayout
  import opened GbeWords

  /** The sum of eight words of the table. */
  function Eight(w: nat): nat {
    GbeWord(w) + GbeWord(w + 1) + GbeWord(w + 2) + GbeWord(w + 3)
    + GbeWord(w + 4) + GbeWord(w + 5) + GbeWord(w + 6) + GbeWord(w + 7)
  }

  lemma Eight00()
    ensures Eight(0x00) == 0x54CE1
  {
  }

  lemma Eight08()
    ensures Eight(0x08) == 0x1EADD
  {
  }

  lemma Eight10()
    ensures Eight(0x10) == 0x15AB1
  {
  }

  lemma Eight18()
    ensures Eight(0x18) == 0x11EDB
  {
  }

  lemma Eight20()
    ensures Eight(0x20) == 0x240D2
  {
  }

  lemma Eight28()
    ensures Eight(0x28) == 0x0
  {
  }

  lemma Eight30()
    ensures Eight(0x30) == 0x4941B
  {
  }

  lemma Eight38()
    ensures Eight(0x38) == 0x73483
  {
  }

  /** A record with these words. */
  ghost predicate HasWords(t: Record) { forall w :: 0 <= w < 0x40 ==> Get(t, Word(w)) == GbeWord(w) }

  lemma SumOfEight(t: Record, w: nat)
    requires HasWords(t) && w + 8 <= 0x40
    ensures WordSum(t, 0, w + 8) == WordSum(t, 0, w) + Eight(w)
  {
    OneMore(t, w);
    OneMore(t, w + 1);
    OneMore(t, w + 2);
    OneMore(t, w + 3);
    OneMore(t, w + 4);
    OneMore(t, w + 5);
    OneMore(t, w + 6);
    OneMore(t, w + 7);
  }

  lemma OneMore(t: Record, w: nat)
    requires HasWords(t) && w < 0x40
    ensures WordSum(t, 0, w + 1) == WordSum(t, 0, w) + GbeWord(w)
  {
  }

  /** The words of mkgbe.c, checksum included, sum to 0xBABA modulo 2^16. */
  lemma SumOfWords(t: Record)
    requires HasWords(t)
    ensures WordSum(t, 0, 0x40) == 0x17BABA
  {
    Eight00();
    SumOfEight(t, 0x00);
    Eight08();
    SumOfEight(t, 0x08);
    Eight10();
    SumOfEight(t, 0x10);
    Eight18();
    SumOfEight(t, 0x18);
    Eight20();
    SumOfEight(t, 0x20);
    Eight28();
    SumOfEight(t, 0x28);
    Eight30();
    SumOfEight(t, 0x30);
    Eight38();
    SumOfEight(t, 0x38);
  }

  lemma ValidRecord(t: Record)
    requires HasWords(t) && BlankPadding(t)
    ensures ValidChecksum(t) && Repaired(t) == t
  {
    SumOfWords(t);
    RepairedUnique(t, t);
  }

  lemma GeneratedHasWords(m: Record)
    ensures HasWords(GeneratedRecord(m)) && BlankPadding(GeneratedRecord(m))
  {
    GeneratedRecordIs(m);
    forall w | 0 <= w < 0x40
      ensures Get(GeneratedRecord(m), Word(w)) == GbeWord(w)
    {
      WordOfRecord(w);
    }
  }

  /** The record mkgbe.c builds has a valid checksum and blank padding: ich9deblob would leave it alone. */
  lemma ShippedRecordValid(m: Record)
    ensures ValidChecksum(GeneratedRecord(m)) && BlankPadding(GeneratedRecord(m))
    ensures Repaired(GeneratedRecord(m)) == GeneratedRecord(m)
  {
    GeneratedHasWords(m);
    ValidRecord(GeneratedRecord(m));
  }
}
