/**
  What ich9deblob promises about the descriptor it writes: the test for a GbE region gives the same
  answer at every point of the run, and running again changes nothing.
  */
module DescriptorTheorems {
  import opened Words
  import opened Memory
  import opened DescriptorLayout
  import opened Descriptor

  // ----- reading the transformed descriptor -----

  /** A member whose bits are those of v reads v, if v fits. */
  lemma ReadsFit(m: Region, f: Field, v: nat)
    requires f.In(m) && v < Pow2(f.width)
    requires forall k :: f.off <= k < f.End() ==> m[k] == BitOf(v, k - f.off)
    ensures Get(m, f) == v
  {
    GetIs(m, f, v);
  }

  /** A 13-bit member whose bits are those of v reads v modulo 2^13. */
  lemma ReadsPage(m: Region, f: Field, v: nat)
    requires f.In(m) && f.width == 13
    requires forall k :: f.off <= k < f.End() ==> m[k] == BitOf(v, k - f.off)
    ensures Get(m, f) == v % 0x2000
  {
    GetFromBits(m, f, v);
    Pow2Values();
  }

  lemma ImageKeeps(d: Region, romSize: nat, gbe: bool, f: Field)
    requires f.In(d) && forall k :: f.off <= k < f.End() ==> !Touched(k)
    ensures Get(Image(d, romSize, gbe), f) == Get(d, f)
  {
    GetSame(d, Image(d, romSize, gbe), f);
  }

  /** The BASE and LIMIT the transformation gives to region registers 1 to 4. */
  predicate RegionBecomes(romSize: nat, gbe: bool, flreg: nat, base: nat, limit: nat) {
    || (flreg == FLREG1 && base == (if gbe then 3 else 1) && limit == LastPage(romSize))
    || (flreg == FLREG2 && base == 0x1FFF && limit == 0)
    || (flreg == FLREG3 && base == (if gbe then 1 else 0x1FFF) && limit == (if gbe then 2 else 0))
    || (flreg == FLREG4 && base == 0x1FFF && limit == 0)
  }

  lemma ImageRegion(d: Region, romSize: nat, gbe: bool, flreg: nat, base: nat, limit: nat)
    requires RegionBecomes(romSize, gbe, flreg, base, limit)
    ensures Get(Image(d, romSize, gbe), Base(flreg)) == base
    ensures Get(Image(d, romSize, gbe), Limit(flreg)) == limit % 0x2000
  {
    RegionTargets(d, romSize, gbe, flreg, base, limit);
    RegionReads(Image(d, romSize, gbe), flreg, base, limit);
  }

  lemma RegionReads(m: Region, flreg: nat, base: nat, limit: nat)
    requires flreg < 0x1000 - 4 && base < 0x2000
    requires forall k :: Base(flreg).off <= k < Base(flreg).End() ==> m[k] == BitOf(base, k - Base(flreg).off)
    requires forall k :: Limit(flreg).off <= k < Limit(flreg).End() ==> m[k] == BitOf(limit, k - Limit(flreg).off)
    ensures Get(m, Base(flreg)) == base
    ensures Get(m, Limit(flreg)) == limit % 0x2000
  {
    ReadsPage(m, Base(flreg), base);
    ReadsPage(m, Limit(flreg), limit);
  }

  lemma RegionTargets(d: Region, romSize: nat, gbe: bool, flreg: nat, base: nat, limit: nat)
    requires RegionBecomes(romSize, gbe, flreg, base, limit)
    ensures forall k :: Base(flreg).off <= k < Base(flreg).End() ==>
              Image(d, romSize, gbe)[k] == BitOf(base, k - Base(flreg).off)
    ensures forall k :: Limit(flreg).off <= k < Limit(flreg).End() ==>
              Image(d, romSize, gbe)[k] == BitOf(limit, k - Limit(flreg).off)
  {
    forall k: nat | InRegister(flreg, k)
      ensures Image(d, romSize, gbe)[k] == Region13(flreg, base, limit, k)
    {
      RegionTarget(romSize, gbe, flreg, base, limit, k);
    }
  }

  lemma RegionTarget(romSize: nat, gbe: bool, flreg: nat, base: nat, limit: nat, k: nat)
    requires RegionBecomes(romSize, gbe, flreg, base, limit) && InRegister(flreg, k)
    ensures Touched(k) && Target(romSize, gbe, k) == Region13(flreg, base, limit, k)
  {
  }

  lemma ImageSmallMembers(d: Region, romSize: nat, gbe: bool)
    ensures Get(Image(d, romSize, gbe), NR) == if gbe then 2 else 1
    ensures Get(Image(d, romSize, gbe), INTEGRATED_GBE) == Bit(gbe)
    ensures Get(Image(d, romSize, gbe), LAN_PHY) == Bit(gbe)
  {
    NrReads(d, romSize, gbe, if gbe then 2 else 1);
    StrapReads(d, romSize, gbe, INTEGRATED_GBE);
    StrapReads(d, romSize, gbe, LAN_PHY);
  }

  lemma NrReads(d: Region, romSize: nat, gbe: bool, nr: nat)
    requires nr == if gbe then 2 else 1
    ensures Get(Image(d, romSize, gbe), NR) == nr
  {
    assert nr < Pow2(3) by { Pow2Values(); }
    ReadsFit(Image(d, romSize, gbe), NR, nr);
  }

  lemma StrapReads(d: Region, romSize: nat, gbe: bool, f: Field)
    requires f == INTEGRATED_GBE || f == LAN_PHY
    ensures Get(Image(d, romSize, gbe), f) == Bit(gbe)
  {
    assert Bit(gbe) < Pow2(1) by { Pow2Values(); }
    OneBit(gbe);
    ReadsFit(Image(d, romSize, gbe), f, Bit(gbe));
  }

  lemma ImageDefinesGbe(d: Region, romSize: nat, gbe: bool)
    ensures DefinesGbe(Image(d, romSize, gbe)) == gbe
  {
    ImageRegion(d, romSize, gbe, FLREG3, if gbe then 1 else 0x1FFF, if gbe then 2 else 0);
    ImageSmallMembers(d, romSize, gbe);
  }

  // ----- the GbE test -----

  /** Step i of a run, for the steps after the GbE and BIOS regions are set. */
  function Step(d: Region, i: nat): Region {
    match i
    case 2 => WithRegion(d, FLREG2, 0x1FFF, 0)
    case 3 => WithRegion(d, FLREG4, 0x1FFF, 0)
    case 4 => WithMeDisabled(d)
    case 5 => Put(d, TPM_DISABLE, 1)
    case 6 => WithAccess(d, FLMSTR2, false)
    case 7 => WithAccess(d, FLMSTR1, true)
    case 8 => WithOemString(d)
    case _ => d
  }

  /** The descriptor after i steps of a run: 0 is the factory descriptor, 8 the one written. */
  function State(d: Region, romSize: nat, i: nat): Region {
    if i == 0 then d
    else if i == 1 then WithGbeAndBios(d, romSize, DefinesGbe(d))
    else Step(State(d, romSize, i - 1), i)
  }

  lemma LastState(d: Region, romSize: nat)
    ensures State(d, romSize, 8) == Deblobbed(d, romSize)
  {
    var d1 := State(d, romSize, 1);
    StateSteps(d, romSize);
    StepsAre(d1);
    StepsAre(WithoutMe(d1));
  }

  lemma StepsAre(d: Region)
    ensures Step(Step(Step(Step(d, 2), 3), 4), 5) == WithoutMe(d)
    ensures Step(Step(Step(d, 6), 7), 8) == Unlocked(d)
  {
  }

  lemma StateSteps(d: Region, romSize: nat)
    ensures var d1 := WithGbeAndBios(d, romSize, DefinesGbe(d));
            State(d, romSize, 8) == Step(Step(Step(Step(Step(Step(Step(d1, 2), 3), 4), 5), 6), 7), 8)
  {
    StateStep(d, romSize, 2);
    StateStep(d, romSize, 3);
    StateStep(d, romSize, 4);
    StateStep(d, romSize, 5);
    StateStep(d, romSize, 6);
    StateStep(d, romSize, 7);
    StateStep(d, romSize, 8);
  }

  lemma StateStep(d: Region, romSize: nat, i: nat)
    requires i >= 2
    ensures State(d, romSize, i) == Step(State(d, romSize, i - 1), i)
    ensures State(d, romSize, 1) == WithGbeAndBios(d, romSize, DefinesGbe(d))
  {
  }

  /** The members the test reads, and nothing else, decide it. */
  lemma GbeTestReads(d: Region, e: Region)
    requires Same(d, e, Base(FLREG3)) && Same(d, e, Limit(FLREG3))
    requires Same(d, e, INTEGRATED_GBE) && Same(d, e, LAN_PHY)
    ensures DefinesGbe(d) == DefinesGbe(e)
  {
    GetSame(d, e, Base(FLREG3));
    GetSame(d, e, Limit(FLREG3));
    GetSame(d, e, INTEGRATED_GBE);
    GetSame(d, e, LAN_PHY);
  }

  lemma GbeAndBiosDefinesGbe(d: Region, romSize: nat, gbe: bool)
    ensures DefinesGbe(WithGbeAndBios(d, romSize, gbe)) == gbe
  {
    ImageDefinesGbe(d, romSize, gbe);
    GbeAndBiosAgrees(d, romSize, gbe);
    GbeTestReads(WithGbeAndBios(d, romSize, gbe), Image(d, romSize, gbe));
  }

  lemma GbeAndBiosAgrees(d: Region, romSize: nat, gbe: bool)
    ensures forall k :: 0 <= k < 0x8000 && GbeAndBiosBit(k) ==>
              WithGbeAndBios(d, romSize, gbe)[k] == Image(d, romSize, gbe)[k]
  {
    forall k | 0 <= k < 0x8000 && GbeAndBiosBit(k)
      ensures WithGbeAndBios(d, romSize, gbe)[k] == Image(d, romSize, gbe)[k]
    {
      GbeAndBiosBits(d, romSize, gbe, k);
    }
  }

  lemma StepKeepsTest(d: Region, i: nat)
    ensures DefinesGbe(Step(d, i)) == DefinesGbe(d)
  {
    GbeTestReads(d, Step(d, i));
  }

  /**
    The test gives the answer of the factory descriptor at every point of the run, sentinels 0xFFF and
    0x1FFF and contradictory straps included; so all its occurrences in one run take the same side.
    */
  lemma {:induction false} GbeTestStable(d: Region, romSize: nat, i: nat)
    ensures DefinesGbe(State(d, romSize, i)) == DefinesGbe(d)
  {
    if i == 1 {
      GbeAndBiosDefinesGbe(d, romSize, DefinesGbe(d));
    } else if i > 1 {
      GbeTestStable(d, romSize, i - 1);
      StepKeepsTest(State(d, romSize, i - 1), i);
    }
  }

  lemma DeblobbedDefinesGbe(d: Region, romSize: nat)
    ensures DefinesGbe(Deblobbed(d, romSize)) == DefinesGbe(d)
  {
    GbeTestStable(d, romSize, 8);
    LastState(d, romSize);
  }

  // ----- running again -----

  /** Only the last run counts; in particular a second run on the same ROM size changes nothing. */
  lemma DeblobAgain(d: Region, romSize: nat, romSize': nat)
    ensures Deblobbed(Deblobbed(d, romSize), romSize') == Deblobbed(d, romSize')
  {
    var e := Deblobbed(d, romSize);
    DeblobbedDefinesGbe(d, romSize);
    DeblobbedIsImage(d, romSize);
    DeblobbedIsImage(d, romSize');
    DeblobbedIsImage(e, romSize');
    assert Image(e, romSize', DefinesGbe(d)) == Image(d, romSize', DefinesGbe(d));
  }

  /** A descriptor is left alone exactly when its touched bits are already at their targets. */
  lemma FixedPoint(d: Region, romSize: nat)
    ensures Deblobbed(d, romSize) == d <==>
              forall k :: 0 <= k < 0x8000 && Touched(k) ==> d[k] == Target(romSize, DefinesGbe(d), k)
  {
    DeblobbedIsImage(d, romSize);
    var e := Image(d, romSize, DefinesGbe(d));
    assert e == d <==> forall k :: 0 <= k < 0x8000 ==> e[k] == d[k];
  }
}
