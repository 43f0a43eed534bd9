/**
  The text of the printed constants: every member of both structs is printed with as many digits as its
  width can need, so that a member always takes the same room, whatever its value.
  */
module EmittedText {
  import opened Words
  import opened Memory
  import opened HexText
  import opened StructLayout
  import opened DescriptorLayout
  import opened GbeLayout

  /** A digit for each four bits, or part of four. */
  predicate FullWidth(s: Slot) { s.Scalar? ==> s.digits == (s.f.width + 3) / 4 && s.f.width > 0 }

  /** The text of a member: 0x and exactly its digits, in lower case. */
  lemma ConstantText(s: Slot, d: Bits)
    requires s.Scalar? && s.f.In(d) && FullWidth(s)
    ensures var text := PrintHex(Get(d, s.f), s.digits);
            && |text| == 2 + s.digits && text[..2] == "0x"
            && forall i :: 2 <= i < |text| ==> LowerHex(text[i])
  {
    GetBits(d, s.f);
    Pow2Grows(s.f.width, 4 * s.digits);
    PrintHexShape(Get(d, s.f), s.digits);
  }

  lemma Pow2Grows(a: nat, b: nat)
    requires a <= b
    ensures Pow2(a) <= Pow2(b)
  {
    Pow2Sum(a, b - a);
    MulMono(1, Pow2(b - a), Pow2(a));
  }

  /** This is so for all members of the descriptor and of the GbE record. */
  lemma AllFullWidth(s: Slot)
    requires s in DESCRIPTOR_LAYOUT || s in GBE_LAYOUT
    ensures FullWidth(s)
  {
    if s in DESCRIPTOR_LAYOUT {
      FrontFullWidth(s);
      StrapsFullWidth(s);
      TailFullWidth(s);
    } else {
      FirstHalfFullWidth(s);
      SecondHalfFullWidth(s);
    }
  }

  lemma FrontFullWidth(s: Slot)
    ensures s in FRONT ==> FullWidth(s)
  {
    HeadFullWidth(s);
    RegionsFullWidth(s);
    MastersFullWidth(s);
  }

  lemma HeadFullWidth(s: Slot)
    ensures s in HEAD ==> FullWidth(s)
  {
  }

  lemma RegionsFullWidth(s: Slot)
    ensures s in REGIONS ==> FullWidth(s)
  {
  }

  lemma MastersFullWidth(s: Slot)
    ensures s in MASTERS ==> FullWidth(s)
  {
  }

  lemma StrapsFullWidth(s: Slot)
    ensures s in ICHSTRAPS || s in MCHSTRAP0_SLOTS ==> FullWidth(s)
  {
  }

  lemma TailFullWidth(s: Slot)
    ensures s in VSCC_TABLE_SLOTS || s in TAIL ==> FullWidth(s)
  {
  }

  lemma FirstHalfFullWidth(s: Slot)
    ensures s in FIRST_HALF ==> FullWidth(s)
  {
    LedFullWidth(s);
  }

  lemma LedFullWidth(s: Slot)
    ensures s in WORDS_17_18 ==> FullWidth(s)
  {
  }

  lemma SecondHalfFullWidth(s: Slot)
    ensures s in SECOND_HALF ==> FullWidth(s)
  {
    BootAgentFullWidth(s);
  }

  lemma BootAgentFullWidth(s: Slot)
    ensures s in WORDS_30_31 ==> FullWidth(s)
  {
  }
}
