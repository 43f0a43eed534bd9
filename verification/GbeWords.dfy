/**
  The GbE record that ich9gen generates, word by word: the values that gbe.h documents, and for the words
  that the shipped program assigns in pieces what the pieces amount to.
  */
module GbeWords {
  import opened Words
  import opened Memory
  import opened EmittedC
  import opened Gbe
  import opened GbeLayout

  /** Words 00 to 3F: MAC address, device IDs, control words, LEDs, reserved words, boot agent, checksum. */
  function GbeWord(w: nat): nat {
    match w
    case 0x00 => 0xF500
    case 0x01 => 0x40F0
    case 0x02 => 0xFE71
    case 0x03 => 0x0800
    case 0x04 => 0xFFFF
    case 0x05 => 0x1083
    case 0x06 => 0xFFFF
    case 0x07 => 0xFFFF
    case 0x08 => 0x1008
    case 0x09 => 0xFFFF
    case 0x0A => 0x10C3
    case 0x0B => 0x20EE
    case 0x0C => 0x17AA
    case 0x0D => 0x10F5
    case 0x0E => 0x8086
    case 0x10 => 0x0D01
    case 0x13 => 0x8605
    case 0x14 => 0x3020
    case 0x15 => 0x0A00
    case 0x17 => 0x8D8B
    case 0x18 => 0x0602
    case 0x19 => 0x2B40
    case 0x1A => 0x0043
    case 0x1C => 0x10F5
    case 0x1D => 0xBAAD
    case 0x1E => 0x10F5
    case 0x1F => 0x10BF
    case 0x20 => 0xBAAD
    case 0x21 => 0x10CB
    case 0x22 => 0xBAAD
    case 0x23 => 0xBAAD
    case 0x30 => 0x0100
    case 0x31 => 0x4000
    case 0x32 => 0x1318
    case 0x33 => 0x4007
    case 0x34 => 0xFFFF
    case 0x35 => 0xFFFF
    case 0x36 => 0xFFFF
    case 0x37 => 0xFFFF
    case 0x38 => 0xFFFF
    case 0x39 => 0xFFFF
    case 0x3A => 0xFFFF
    case 0x3B => 0xFFFF
    case 0x3C => 0xFFFF
    case 0x3D => 0xFFFF
    case 0x3E => 0xFFFF
    case 0x3F => 0x348A
    case _ => 0
  }

  /** The record with these words and blank padding. */
  function RecordOfWords(): Record {
    seq(0x8000, k requires 0 <= k < 0x8000 => k >= 0x400 || BitOf(GbeWord(k / 16), k % 16))
  }

  lemma WordsFit(w: nat)
    ensures GbeWord(w) < 0x1_0000
  {
  }

  lemma WordOfRecord(w: nat)
    requires w < 0x40
    ensures Get(RecordOfWords(), Word(w)) == GbeWord(w)
  {
    var t := RecordOfWords();
    forall i | 0 <= i < 16
      ensures t[16 * w + i] == BitOf(GbeWord(w), i)
    {
    }
    GetFromBits(t, Word(w), GbeWord(w));
    WordsFit(w);
    assert Pow2(16) == 0x1_0000 by { Pow2Values(); }
    SmallMod(GbeWord(w), 0x1_0000);
  }

  // ----- the lines against the words -----

  /** A line whose constant is its part of a word. */
  predicate PartOfWord(s: Stmt, words: seq<nat>) {
    && s.Assign? && s.rhs.Hex? && s.f.off % 16 + s.f.width <= 16 && s.f.off / 16 < |words|
    && s.rhs.printed == Quotient(words[s.f.off / 16], Pow2(s.f.off % 16)) % Pow2(s.f.width)
  }

  predicate PartsOfWords(p: Program, from: nat, to: nat, words: seq<nat>)
    requires from <= to <= |p|
  {
    forall i :: from <= i < to ==> PartOfWord(p[i], words)
  }

  lemma PartHolds(s: Stmt, words: seq<nat>, a: Args)
    requires PartOfWord(s, words) && |words| == 0x40 && forall w :: 0 <= w < 0x40 ==> words[w] == GbeWord(w)
    ensures Holds(s, a, RecordOfWords())
  {
    var t, w, lo := RecordOfWords(), s.f.off / 16, s.f.off % 16;
    WordOfRecord(w);
    MemberPart(t, Word(w), lo, s.f.width);
    assert Field(16 * w + lo, s.f.width) == s.f;
    ConstantIs(s.rhs.printed, s.rhs.digits);
    SmallMod(s.rhs.printed, Pow2(s.f.width));
    AssignHolds(s.f, s.rhs, a, t);
  }

  lemma Words00To09Parts(words: seq<nat>)
    requires |words| == 0x40
    requires words[0x00] == 0xF500 && words[0x01] == 0x40F0 && words[0x02] == 0xFE71 && words[0x03] == 0x0800
    requires words[0x04] == 0xFFFF && words[0x05] == 0x1083 && words[0x06] == 0xFFFF && words[0x07] == 0xFFFF
    requires words[0x08] == 0x1008 && words[0x09] == 0xFFFF
    ensures PartsOfWords(WORDS_00_09_LINES, 0, 16, words)
  {
    Pow2Values();
    assert PartOfWord(WORDS_00_09_LINES[0], words);
    assert PartOfWord(WORDS_00_09_LINES[1], words);
    assert PartOfWord(WORDS_00_09_LINES[2], words);
    assert PartOfWord(WORDS_00_09_LINES[3], words);
    assert PartOfWord(WORDS_00_09_LINES[4], words);
    assert PartOfWord(WORDS_00_09_LINES[5], words);
    assert PartOfWord(WORDS_00_09_LINES[6], words);
    assert PartOfWord(WORDS_00_09_LINES[7], words);
    assert PartOfWord(WORDS_00_09_LINES[8], words);
    assert PartOfWord(WORDS_00_09_LINES[9], words);
    assert PartOfWord(WORDS_00_09_LINES[10], words);
    assert PartOfWord(WORDS_00_09_LINES[11], words);
    assert PartOfWord(WORDS_00_09_LINES[12], words);
    assert PartOfWord(WORDS_00_09_LINES[13], words);
    assert PartOfWord(WORDS_00_09_LINES[14], words);
    assert PartOfWord(WORDS_00_09_LINES[15], words);
  }

  lemma Words0ATo0FParts(words: seq<nat>)
    requires |words| == 0x40
    requires words[0x0A] == 0x10C3 && words[0x0B] == 0x20EE && words[0x0C] == 0x17AA && words[0x0D] == 0x10F5
    requires words[0x0E] == 0x8086 && words[0x0F] == 0x0000
    ensures PartsOfWords(WORDS_0A_0F_LINES, 0, 13, words)
  {
    Pow2Values();
    assert PartOfWord(WORDS_0A_0F_LINES[0], words);
    assert PartOfWord(WORDS_0A_0F_LINES[1], words);
    assert PartOfWord(WORDS_0A_0F_LINES[2], words);
    assert PartOfWord(WORDS_0A_0F_LINES[3], words);
    assert PartOfWord(WORDS_0A_0F_LINES[4], words);
    assert PartOfWord(WORDS_0A_0F_LINES[5], words);
    assert PartOfWord(WORDS_0A_0F_LINES[6], words);
    assert PartOfWord(WORDS_0A_0F_LINES[7], words);
    assert PartOfWord(WORDS_0A_0F_LINES[8], words);
    assert PartOfWord(WORDS_0A_0F_LINES[9], words);
    assert PartOfWord(WORDS_0A_0F_LINES[10], words);
    assert PartOfWord(WORDS_0A_0F_LINES[11], words);
    assert PartOfWord(WORDS_0A_0F_LINES[12], words);
  }

  lemma Words10To12Parts(words: seq<nat>)
    requires |words| == 0x40
    requires words[0x10] == 0x0D01 && words[0x11] == 0x0000 && words[0x12] == 0x0000
    ensures PartsOfWords(WORDS_10_12_LINES, 0, 5, words)
  {
    Pow2Values();
    assert PartOfWord(WORDS_10_12_LINES[0], words);
    assert PartOfWord(WORDS_10_12_LINES[1], words);
    assert PartOfWord(WORDS_10_12_LINES[2], words);
    assert PartOfWord(WORDS_10_12_LINES[3], words);
    assert PartOfWord(WORDS_10_12_LINES[4], words);
  }

  lemma Word13Parts(words: seq<nat>)
    requires |words| == 0x40
    requires words[0x13] == 0x8605
    ensures PartsOfWords(WORDS_13_16_LINES, 0, 9, words)
  {
    Pow2Values();
    assert PartOfWord(WORDS_13_16_LINES[0], words);
    assert PartOfWord(WORDS_13_16_LINES[1], words);
    assert PartOfWord(WORDS_13_16_LINES[2], words);
    assert PartOfWord(WORDS_13_16_LINES[3], words);
    assert PartOfWord(WORDS_13_16_LINES[4], words);
    assert PartOfWord(WORDS_13_16_LINES[5], words);
    assert PartOfWord(WORDS_13_16_LINES[6], words);
    assert PartOfWord(WORDS_13_16_LINES[7], words);
    assert PartOfWord(WORDS_13_16_LINES[8], words);
  }

  lemma Word14Parts(words: seq<nat>)
    requires |words| == 0x40
    requires words[0x14] == 0x3020
    ensures PartsOfWords(WORDS_13_16_LINES, 9, 14, words)
  {
    Pow2Values();
    assert PartOfWord(WORDS_13_16_LINES[9], words);
    assert PartOfWord(WORDS_13_16_LINES[10], words);
    assert PartOfWord(WORDS_13_16_LINES[11], words);
    assert PartOfWord(WORDS_13_16_LINES[12], words);
    assert PartOfWord(WORDS_13_16_LINES[13], words);
  }

  lemma Words15To16Parts(words: seq<nat>)
    requires |words| == 0x40
    requires words[0x15] == 0x0A00 && words[0x16] == 0x0000
    ensures PartsOfWords(WORDS_13_16_LINES, 14, 17, words)
  {
    Pow2Values();
    assert PartOfWord(WORDS_13_16_LINES[14], words);
    assert PartOfWord(WORDS_13_16_LINES[15], words);
    assert PartOfWord(WORDS_13_16_LINES[16], words);
  }

  lemma Word17LowerParts(words: seq<nat>)
    requires |words| == 0x40
    requires words[0x17] == 0x8D8B
    ensures PartsOfWords(WORDS_17_18_LINES, 0, 6, words)
  {
    Pow2Values();
    assert PartOfWord(WORDS_17_18_LINES[0], words);
    assert PartOfWord(WORDS_17_18_LINES[1], words);
    assert PartOfWord(WORDS_17_18_LINES[2], words);
    assert PartOfWord(WORDS_17_18_LINES[3], words);
    assert PartOfWord(WORDS_17_18_LINES[4], words);
    assert PartOfWord(WORDS_17_18_LINES[5], words);
  }

  lemma Word17UpperParts(words: seq<nat>)
    requires |words| == 0x40
    requires words[0x17] == 0x8D8B
    ensures PartsOfWords(WORDS_17_18_LINES, 6, 12, words)
  {
    Pow2Values();
    assert PartOfWord(WORDS_17_18_LINES[6], words);
    assert PartOfWord(WORDS_17_18_LINES[7], words);
    assert PartOfWord(WORDS_17_18_LINES[8], words);
    assert PartOfWord(WORDS_17_18_LINES[9], words);
    assert PartOfWord(WORDS_17_18_LINES[10], words);
    assert PartOfWord(WORDS_17_18_LINES[11], words);
  }

  lemma Word18Parts(words: seq<nat>)
    requires |words| == 0x40
    requires words[0x18] == 0x0602
    ensures PartsOfWords(WORDS_17_18_LINES, 12, 22, words)
  {
    Pow2Values();
    assert PartOfWord(WORDS_17_18_LINES[12], words);
    assert PartOfWord(WORDS_17_18_LINES[13], words);
    assert PartOfWord(WORDS_17_18_LINES[14], words);
    assert PartOfWord(WORDS_17_18_LINES[15], words);
    assert PartOfWord(WORDS_17_18_LINES[16], words);
    assert PartOfWord(WORDS_17_18_LINES[17], words);
    assert PartOfWord(WORDS_17_18_LINES[18], words);
    assert PartOfWord(WORDS_17_18_LINES[19], words);
    assert PartOfWord(WORDS_17_18_LINES[20], words);
    assert PartOfWord(WORDS_17_18_LINES[21], words);
  }

  lemma Words19To23Parts(words: seq<nat>)
    requires |words| == 0x40
    requires words[0x19] == 0x2B40 && words[0x1A] == 0x0043 && words[0x1B] == 0x0000 && words[0x1C] == 0x10F5
    requires words[0x1D] == 0xBAAD && words[0x1E] == 0x10F5 && words[0x1F] == 0x10BF && words[0x20] == 0xBAAD
    requires words[0x21] == 0x10CB && words[0x22] == 0xBAAD && words[0x23] == 0xBAAD
    ensures PartsOfWords(WORDS_19_23_LINES, 0, 11, words)
  {
    Pow2Values();
    assert PartOfWord(WORDS_19_23_LINES[0], words);
    assert PartOfWord(WORDS_19_23_LINES[1], words);
    assert PartOfWord(WORDS_19_23_LINES[2], words);
    assert PartOfWord(WORDS_19_23_LINES[3], words);
    assert PartOfWord(WORDS_19_23_LINES[4], words);
    assert PartOfWord(WORDS_19_23_LINES[5], words);
    assert PartOfWord(WORDS_19_23_LINES[6], words);
    assert PartOfWord(WORDS_19_23_LINES[7], words);
    assert PartOfWord(WORDS_19_23_LINES[8], words);
    assert PartOfWord(WORDS_19_23_LINES[9], words);
    assert PartOfWord(WORDS_19_23_LINES[10], words);
  }

  lemma Words24To2FParts(words: seq<nat>)
    requires |words| == 0x40
    requires words[0x24] == 0x0000 && words[0x25] == 0x0000 && words[0x26] == 0x0000 && words[0x27] == 0x0000
    requires words[0x28] == 0x0000 && words[0x29] == 0x0000 && words[0x2A] == 0x0000 && words[0x2B] == 0x0000
    requires words[0x2C] == 0x0000 && words[0x2D] == 0x0000 && words[0x2E] == 0x0000 && words[0x2F] == 0x0000
    ensures PartsOfWords(WORDS_24_2F_LINES, 0, 12, words)
  {
    Pow2Values();
    assert PartOfWord(WORDS_24_2F_LINES[0], words);
    assert PartOfWord(WORDS_24_2F_LINES[1], words);
    assert PartOfWord(WORDS_24_2F_LINES[2], words);
    assert PartOfWord(WORDS_24_2F_LINES[3], words);
    assert PartOfWord(WORDS_24_2F_LINES[4], words);
    assert PartOfWord(WORDS_24_2F_LINES[5], words);
    assert PartOfWord(WORDS_24_2F_LINES[6], words);
    assert PartOfWord(WORDS_24_2F_LINES[7], words);
    assert PartOfWord(WORDS_24_2F_LINES[8], words);
    assert PartOfWord(WORDS_24_2F_LINES[9], words);
    assert PartOfWord(WORDS_24_2F_LINES[10], words);
    assert PartOfWord(WORDS_24_2F_LINES[11], words);
  }

  lemma Word30Parts(words: seq<nat>)
    requires |words| == 0x40
    requires words[0x30] == 0x0100
    ensures PartsOfWords(WORDS_30_31_LINES, 0, 12, words)
  {
    Pow2Values();
    assert PartOfWord(WORDS_30_31_LINES[0], words);
    assert PartOfWord(WORDS_30_31_LINES[1], words);
    assert PartOfWord(WORDS_30_31_LINES[2], words);
    assert PartOfWord(WORDS_30_31_LINES[3], words);
    assert PartOfWord(WORDS_30_31_LINES[4], words);
    assert PartOfWord(WORDS_30_31_LINES[5], words);
    assert PartOfWord(WORDS_30_31_LINES[6], words);
    assert PartOfWord(WORDS_30_31_LINES[7], words);
    assert PartOfWord(WORDS_30_31_LINES[8], words);
    assert PartOfWord(WORDS_30_31_LINES[9], words);
    assert PartOfWord(WORDS_30_31_LINES[10], words);
    assert PartOfWord(WORDS_30_31_LINES[11], words);
  }

  lemma Word31Parts(words: seq<nat>)
    requires |words| == 0x40
    requires words[0x31] == 0x4000
    ensures PartsOfWords(WORDS_30_31_LINES, 12, 22, words)
  {
    Pow2Values();
    assert PartOfWord(WORDS_30_31_LINES[12], words);
    assert PartOfWord(WORDS_30_31_LINES[13], words);
    assert PartOfWord(WORDS_30_31_LINES[14], words);
    assert PartOfWord(WORDS_30_31_LINES[15], words);
    assert PartOfWord(WORDS_30_31_LINES[16], words);
    assert PartOfWord(WORDS_30_31_LINES[17], words);
    assert PartOfWord(WORDS_30_31_LINES[18], words);
    assert PartOfWord(WORDS_30_31_LINES[19], words);
    assert PartOfWord(WORDS_30_31_LINES[20], words);
    assert PartOfWord(WORDS_30_31_LINES[21], words);
  }

  lemma Word32Parts(words: seq<nat>)
    requires |words| == 0x40
    requires words[0x32] == 0x1318
    ensures PartsOfWords(WORDS_32_33_LINES, 0, 3, words)
  {
    Pow2Values();
    assert PartOfWord(WORDS_32_33_LINES[0], words);
    assert PartOfWord(WORDS_32_33_LINES[1], words);
    assert PartOfWord(WORDS_32_33_LINES[2], words);
  }

  lemma Word33Parts(words: seq<nat>)
    requires |words| == 0x40
    requires words[0x33] == 0x4007
    ensures PartsOfWords(WORDS_32_33_LINES, 3, 10, words)
  {
    Pow2Values();
    assert PartOfWord(WORDS_32_33_LINES[3], words);
    assert PartOfWord(WORDS_32_33_LINES[4], words);
    assert PartOfWord(WORDS_32_33_LINES[5], words);
    assert PartOfWord(WORDS_32_33_LINES[6], words);
    assert PartOfWord(WORDS_32_33_LINES[7], words);
    assert PartOfWord(WORDS_32_33_LINES[8], words);
    assert PartOfWord(WORDS_32_33_LINES[9], words);
  }

  lemma Words34To3FParts(words: seq<nat>)
    requires |words| == 0x40
    requires words[0x34] == 0xFFFF && words[0x35] == 0xFFFF && words[0x36] == 0xFFFF && words[0x37] == 0xFFFF
    requires words[0x38] == 0xFFFF && words[0x39] == 0xFFFF && words[0x3A] == 0xFFFF && words[0x3B] == 0xFFFF
    requires words[0x3C] == 0xFFFF && words[0x3D] == 0xFFFF && words[0x3E] == 0xFFFF && words[0x3F] == 0x348A
    ensures PartsOfWords(WORDS_34_3F_LINES, 0, 12, words)
  {
    Pow2Values();
    assert PartOfWord(WORDS_34_3F_LINES[0], words);
    assert PartOfWord(WORDS_34_3F_LINES[1], words);
    assert PartOfWord(WORDS_34_3F_LINES[2], words);
    assert PartOfWord(WORDS_34_3F_LINES[3], words);
    assert PartOfWord(WORDS_34_3F_LINES[4], words);
    assert PartOfWord(WORDS_34_3F_LINES[5], words);
    assert PartOfWord(WORDS_34_3F_LINES[6], words);
    assert PartOfWord(WORDS_34_3F_LINES[7], words);
    assert PartOfWord(WORDS_34_3F_LINES[8], words);
    assert PartOfWord(WORDS_34_3F_LINES[9], words);
    assert PartOfWord(WORDS_34_3F_LINES[10], words);
    assert PartOfWord(WORDS_34_3F_LINES[11], words);
  }

  // ----- the record -----

  predicate WordTable(words: seq<nat>) { |words| == 0x40 && forall w :: 0 <= w < 0x40 ==> words[w] == GbeWord(w) }

  lemma SectionHolds(p: Program, words: seq<nat>, a: Args)
    requires WordTable(words) && PartsOfWords(p, 0, |p|, words)
    ensures forall s :: s in p ==> Holds(s, a, RecordOfWords())
  {
    forall s | s in p
      ensures Holds(s, a, RecordOfWords())
    {
      var i :| 0 <= i < |p| && p[i] == s;
      PartHolds(p[i], words, a);
    }
  }

  lemma Words00To09Hold(words: seq<nat>, a: Args)
    requires WordTable(words)
    ensures forall s :: s in WORDS_00_09_LINES ==> Holds(s, a, RecordOfWords())
  {
    Words00To09Parts(words);
    SectionHolds(WORDS_00_09_LINES, words, a);
  }

  lemma Words0ATo0FHold(words: seq<nat>, a: Args)
    requires WordTable(words)
    ensures forall s :: s in WORDS_0A_0F_LINES ==> Holds(s, a, RecordOfWords())
  {
    Words0ATo0FParts(words);
    SectionHolds(WORDS_0A_0F_LINES, words, a);
  }

  lemma Words10To12Hold(words: seq<nat>, a: Args)
    requires WordTable(words)
    ensures forall s :: s in WORDS_10_12_LINES ==> Holds(s, a, RecordOfWords())
  {
    Words10To12Parts(words);
    SectionHolds(WORDS_10_12_LINES, words, a);
  }

  lemma Words13To16Hold(words: seq<nat>, a: Args)
    requires WordTable(words)
    ensures forall s :: s in WORDS_13_16_LINES ==> Holds(s, a, RecordOfWords())
  {
    Word13Parts(words);
    Word14Parts(words);
    Words15To16Parts(words);
    SectionHolds(WORDS_13_16_LINES, words, a);
  }

  lemma Words17To18Hold(words: seq<nat>, a: Args)
    requires WordTable(words)
    ensures forall s :: s in WORDS_17_18_LINES ==> Holds(s, a, RecordOfWords())
  {
    Word17LowerParts(words);
    Word17UpperParts(words);
    Word18Parts(words);
    SectionHolds(WORDS_17_18_LINES, words, a);
  }

  lemma Words19To23Hold(words: seq<nat>, a: Args)
    requires WordTable(words)
    ensures forall s :: s in WORDS_19_23_LINES ==> Holds(s, a, RecordOfWords())
  {
    Words19To23Parts(words);
    SectionHolds(WORDS_19_23_LINES, words, a);
  }

  lemma Words24To2FHold(words: seq<nat>, a: Args)
    requires WordTable(words)
    ensures forall s :: s in WORDS_24_2F_LINES ==> Holds(s, a, RecordOfWords())
  {
    Words24To2FParts(words);
    SectionHolds(WORDS_24_2F_LINES, words, a);
  }

  lemma Words30To31Hold(words: seq<nat>, a: Args)
    requires WordTable(words)
    ensures forall s :: s in WORDS_30_31_LINES ==> Holds(s, a, RecordOfWords())
  {
    Word30Parts(words);
    Word31Parts(words);
    SectionHolds(WORDS_30_31_LINES, words, a);
  }

  lemma Words32To33Hold(words: seq<nat>, a: Args)
    requires WordTable(words)
    ensures forall s :: s in WORDS_32_33_LINES ==> Holds(s, a, RecordOfWords())
  {
    Word32Parts(words);
    Word33Parts(words);
    SectionHolds(WORDS_32_33_LINES, words, a);
  }

  lemma Words34To3FHold(words: seq<nat>, a: Args)
    requires WordTable(words)
    ensures forall s :: s in WORDS_34_3F_LINES ==> Holds(s, a, RecordOfWords())
  {
    Words34To3FParts(words);
    SectionHolds(WORDS_34_3F_LINES, words, a);
  }

  lemma FirstLinesHold(words: seq<nat>, a: Args)
    requires WordTable(words)
    ensures forall s :: s in FIRST_LINES ==> Holds(s, a, RecordOfWords())
  {
    Words00To09Hold(words, a);
    Words0ATo0FHold(words, a);
    Words10To12Hold(words, a);
    Words13To16Hold(words, a);
    Words17To18Hold(words, a);
  }

  lemma SecondLinesHold(words: seq<nat>, a: Args)
    requires WordTable(words)
    ensures forall s :: s in SECOND_LINES ==> Holds(s, a, RecordOfWords())
  {
    Words19To23Hold(words, a);
    Words24To2FHold(words, a);
    Words30To31Hold(words, a);
    Words32To33Hold(words, a);
    Words34To3FHold(words, a);
  }

  /** mkgbe.c builds the record of these words, whatever the memory held. */
  lemma GeneratedRecordIs(m: Record)
    ensures GeneratedRecord(m) == RecordOfWords()
  {
    LinesHold(Args(0, 0));
    ShippedGbeTiled();
    BuiltFrom(FIRST_LINES + SECOND_LINES, Args(0, 0), m, RecordOfWords());
  }

  lemma LinesHold(a: Args)
    ensures BlankPadding(RecordOfWords())
    ensures forall s :: s in FIRST_LINES + SECOND_LINES ==> Holds(s, a, RecordOfWords())
  {
    var words := seq(0x40, w requires 0 <= w < 0x40 => GbeWord(w));
    FirstLinesHold(words, a);
    SecondLinesHold(words, a);
  }

  lemma BuiltFrom(p: Program, a: Args, m: Record, t: Record)
    requires Tiled(p + [Fill(PADDING)], 0, 0x8000) && Fits(p + [Fill(PADDING)], 0x8000)
    requires BlankPadding(t) && forall s :: s in p ==> Holds(s, a, t)
    ensures Run(p + [Fill(PADDING)], a, m) == t
  {
    RunBuilds(p + [Fill(PADDING)], a, m, t);
  }

  /** Word by word: the documented values, the assembled words, and after word 3F only 0xFFFF. */
  lemma GeneratedWords(m: Record, w: nat)
    requires w < 0x800
    ensures Get(GeneratedRecord(m), Word(w)) == if w < 0x40 then GbeWord(w) else 0xFFFF
  {
    GeneratedRecordIs(m);
    if w < 0x40 {
      WordOfRecord(w);
    } else {
      BlankWord(RecordOfWords(), w);
    }
  }

  lemma BlankWord(t: Record, w: nat)
    requires 0x40 <= w < 0x800 && BlankPadding(t)
    ensures Get(t, Word(w)) == 0xFFFF
  {
    forall i | 0 <= i < 16
      ensures t[16 * w + i] == BitOf(0xFFFF, i)
    {
      SixteenOnes(i);
    }
    GetFromBits(t, Word(w), 0xFFFF);
    assert Pow2(16) == 0x1_0000 by { Pow2Values(); }
  }

  lemma {:induction false} SixteenOnes(i: nat)
    requires i < 16
    ensures BitOf(0xFFFF, i)
  {
    OnesHave(16, i);
    assert Pow2(16) == 0x1_0000 by { Pow2Values(); }
  }

  lemma {:induction false} OnesHave(n: nat, i: nat)
    requires i < n
    ensures BitOf(Pow2(n) - 1, i)
  {
    if i > 0 {
      OnesHave(n - 1, i - 1);
      assert (Pow2(n) - 1) / 2 == Pow2(n - 1) - 1;
    }
  }
}
