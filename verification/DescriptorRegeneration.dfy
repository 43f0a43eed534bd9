/**
  The C program ich9deblob prints for a descriptor, and when that program rebuilds the descriptor.
  */
module DescriptorRegeneration {
  import opened Words
  import opened Memory
  import opened EmittedC
  import opened StructLayout
  import opened DescriptorLayout
  import opened Descriptor
  import opened DescriptorTheorems

  /** The printed function body for descriptor d. */
  function DescriptorProgram(d: Region): (p: Program)
    ensures Fits(p, 0x8000)
  {
    DescriptorTiles();
    EmittedCoversStruct(DESCRIPTOR_LAYOUT, d);
    Emit(DESCRIPTOR_LAYOUT, d)
  }

  /** The struct the printed function returns when called with a, from memory m. */
  function Rebuilt(d: Region, a: Args, m: Region): Region {
    Run(DescriptorProgram(d), a, m)
  }

  function WithDensities(d: Region, density: nat): Region {
    Put(Put(d, DENSITY1, density), DENSITY2, density)
  }

  // ----- values of the derived members -----

  lemma DerivedValues(a: Args)
    ensures Eval(NR_EXPR, a) == if a.hasGbe != 0 then 2 else 1
    ensures Eval(Density(RomSizeArg), a) == ComponentDensity(a.romSize)
    ensures Eval(BIOS_BASE_EXPR, a) == if a.hasGbe != 0 then 3 else 1
    ensures Eval(BIOS_LIMIT_EXPR, a) == LastPage(a.romSize)
    ensures Eval(GBE_BASE_EXPR, a) == if a.hasGbe != 0 then 1 else 0x1FFF
    ensures Eval(GBE_LIMIT_EXPR, a) == if a.hasGbe != 0 then 2 else 0
    ensures Eval(STRAP_EXPR, a) == Bit(a.hasGbe != 0)
  {
    ConstantIs(2, 1);
    ConstantIs(1, 1);
    ConstantIs(0, 1);
    BiosBaseValue(a);
    GbeValues(a);
    assert Eval(ShiftRight(RomSizeArg, FLREGIONBITSHIFT), a) == Shr(a.romSize, FLREGIONBITSHIFT);
  }

  lemma BiosBaseValue(a: Args)
    ensures Eval(BIOS_BASE_EXPR, a) == if a.hasGbe != 0 then 3 else 1
  {
    PageNumbers();
    var gbe := IfGbe(Const(GBEREGIONSIZE_8K), Const(0));
    assert Eval(gbe, a) == if a.hasGbe != 0 then GBEREGIONSIZE_8K else 0;
    var sum := Plus(Const(DESCRIPTORREGIONSIZE), gbe);
    assert Eval(sum, a) == DESCRIPTORREGIONSIZE + Eval(gbe, a);
    assert Eval(ShiftRight(sum, FLREGIONBITSHIFT), a) == Shr(Eval(sum, a), FLREGIONBITSHIFT);
  }

  lemma GbeValues(a: Args)
    ensures Eval(GBE_BASE_EXPR, a) == if a.hasGbe != 0 then 1 else 0x1FFF
    ensures Eval(GBE_LIMIT_EXPR, a) == if a.hasGbe != 0 then 2 else 0
  {
    PageNumbers();
    ConstantIs(0x1FFF, 4);
    ConstantIs(0, 4);
    assert Eval(ShiftRight(Const(DESCRIPTORREGIONSIZE), FLREGIONBITSHIFT), a) == 1;
    assert Eval(ShiftRight(Const(GBEREGIONSIZE_8K), FLREGIONBITSHIFT), a) == 2;
  }

  /** What t must read in the derived members for the program to build it. */
  predicate Matches(t: Region, a: Args) {
    var gbe := a.hasGbe != 0;
    && Get(t, NR) == (if gbe then 2 else 1)
    && Get(t, DENSITY1) == ComponentDensity(a.romSize) && Get(t, DENSITY2) == ComponentDensity(a.romSize)
    && Get(t, Base(FLREG1)) == (if gbe then 3 else 1) && Get(t, Limit(FLREG1)) == LastPage(a.romSize) % 0x2000
    && Get(t, Base(FLREG3)) == (if gbe then 1 else 0x1FFF) && Get(t, Limit(FLREG3)) == (if gbe then 2 else 0)
    && Get(t, INTEGRATED_GBE) == Bit(gbe) && Get(t, LAN_PHY) == Bit(gbe)
  }

  lemma MatchesIsDerived(d: Region, a: Args, t: Region)
    ensures Matches(t, a) <==> forall s :: s in DERIVED ==> SlotHolds(s, d, a, t)
  {
    NrMatches(d, a, t);
    DensitiesMatch(d, a, t);
    BiosMatches(d, a, t);
    GbeMatches(d, a, t);
    StrapsMatch(d, a, t);
    DerivedOneByOne(d, a, t);
  }

  lemma DerivedOneByOne(d: Region, a: Args, t: Region)
    ensures (forall s :: s in DERIVED ==> SlotHolds(s, d, a, t)) <==>
              && SlotHolds(DERIVED[0], d, a, t) && SlotHolds(DERIVED[1], d, a, t) && SlotHolds(DERIVED[2], d, a, t)
              && SlotHolds(DERIVED[3], d, a, t) && SlotHolds(DERIVED[4], d, a, t) && SlotHolds(DERIVED[5], d, a, t)
              && SlotHolds(DERIVED[6], d, a, t) && SlotHolds(DERIVED[7], d, a, t) && SlotHolds(DERIVED[8], d, a, t)
  {
    assert forall s :: s in DERIVED ==> exists i :: 0 <= i < 9 && s == DERIVED[i];
  }

  lemma NrMatches(d: Region, a: Args, t: Region)
    ensures SlotHolds(DERIVED[0], d, a, t) <==> Get(t, NR) == if a.hasGbe != 0 then 2 else 1
  {
    DerivedValues(a);
    CodeMatches(DERIVED[0], d, a, t, if a.hasGbe != 0 then 2 else 1);
  }

  lemma DensitiesMatch(d: Region, a: Args, t: Region)
    ensures SlotHolds(DERIVED[1], d, a, t) <==> Get(t, DENSITY1) == ComponentDensity(a.romSize)
    ensures SlotHolds(DERIVED[2], d, a, t) <==> Get(t, DENSITY2) == ComponentDensity(a.romSize)
  {
    CodeMatches(DERIVED[1], d, a, t, ComponentDensity(a.romSize));
    CodeMatches(DERIVED[2], d, a, t, ComponentDensity(a.romSize));
  }

  lemma CodeMatches(s: Slot, d: Region, a: Args, t: Region, v: nat)
    requires s.Derived? && s.f.In(d) && s.f.width == 3 && Eval(s.rhs, a) == v && v < 8
    ensures SlotHolds(s, d, a, t) <==> Get(t, s.f) == v
  {
    assert Pow2(3) == 8 by { Pow2Values(); }
    DerivedFits(s, d, a, t, v);
  }

  lemma BiosMatches(d: Region, a: Args, t: Region)
    ensures SlotHolds(DERIVED[3], d, a, t) <==> Get(t, Base(FLREG1)) == if a.hasGbe != 0 then 3 else 1
    ensures SlotHolds(DERIVED[4], d, a, t) <==> Get(t, Limit(FLREG1)) == LastPage(a.romSize) % 0x2000
  {
    BiosBaseValue(a);
    PageMatches(DERIVED[3], d, a, t, if a.hasGbe != 0 then 3 else 1);
    DerivedPage(DERIVED[4], d, a, t, Eval(BIOS_LIMIT_EXPR, a));
    DerivedValues(a);
  }

  lemma GbeMatches(d: Region, a: Args, t: Region)
    ensures SlotHolds(DERIVED[5], d, a, t) <==> Get(t, Base(FLREG3)) == if a.hasGbe != 0 then 1 else 0x1FFF
    ensures SlotHolds(DERIVED[6], d, a, t) <==> Get(t, Limit(FLREG3)) == if a.hasGbe != 0 then 2 else 0
  {
    GbeValues(a);
    PageMatches(DERIVED[5], d, a, t, if a.hasGbe != 0 then 1 else 0x1FFF);
    PageMatches(DERIVED[6], d, a, t, if a.hasGbe != 0 then 2 else 0);
  }

  lemma PageMatches(s: Slot, d: Region, a: Args, t: Region, v: nat)
    requires s.Derived? && s.f.In(d) && s.f.width == 13 && Eval(s.rhs, a) == v && v < 0x2000
    ensures SlotHolds(s, d, a, t) <==> Get(t, s.f) == v
  {
    assert Pow2(13) == 0x2000 by { Pow2Values(); }
    DerivedFits(s, d, a, t, v);
  }

  lemma StrapsMatch(d: Region, a: Args, t: Region)
    ensures SlotHolds(DERIVED[7], d, a, t) <==> Get(t, INTEGRATED_GBE) == Bit(a.hasGbe != 0)
    ensures SlotHolds(DERIVED[8], d, a, t) <==> Get(t, LAN_PHY) == Bit(a.hasGbe != 0)
  {
    DerivedValues(a);
    assert Pow2(1) == 2 by { Pow2Values(); }
    DerivedFits(DERIVED[7], d, a, t, Bit(a.hasGbe != 0));
    DerivedFits(DERIVED[8], d, a, t, Bit(a.hasGbe != 0));
  }

  lemma DerivedFits(s: Slot, d: Region, a: Args, t: Region, v: nat)
    requires s.Derived? && s.f.In(d) && Eval(s.rhs, a) == v && v < Pow2(s.f.width)
    ensures SlotHolds(s, d, a, t) <==> Get(t, s.f) == v
  {
    SmallMod(v, Pow2(s.f.width));
  }

  lemma DerivedPage(s: Slot, d: Region, a: Args, t: Region, v: nat)
    requires s.Derived? && s.f.In(d) && Eval(s.rhs, a) == v && s.f.width == 13
    ensures SlotHolds(s, d, a, t) <==> Get(t, s.f) == v % 0x2000
  {
    Pow2Values();
  }

  /** A bit of a member the emitter prints as an expression. */
  ghost predicate DerivedBit(k: nat) {
    exists s :: s in DERIVED && s.f.Covers(k)
  }

  lemma DerivedBitsAre(k: nat)
    ensures DerivedBit(k) <==>
              || NR.Covers(k) || DENSITY1.Covers(k) || DENSITY2.Covers(k)
              || InRegister(FLREG1, k) || InRegister(FLREG3, k)
              || INTEGRATED_GBE.Covers(k) || LAN_PHY.Covers(k)
  {
    assert forall i :: 0 <= i < 9 && DERIVED[i].f.Covers(k) ==> DerivedBit(k);
    assert DERIVED[0].f == NR && DERIVED[1].f == DENSITY1 && DERIVED[2].f == DENSITY2;
    assert DERIVED[3].f == Base(FLREG1) && DERIVED[4].f == Limit(FLREG1);
    assert DERIVED[5].f == Base(FLREG3) && DERIVED[6].f == Limit(FLREG3);
    assert DERIVED[7].f == INTEGRATED_GBE && DERIVED[8].f == LAN_PHY;
  }

  lemma ScalarBit(s: Slot, k: nat)
    requires s in DESCRIPTOR_LAYOUT && s.f.Covers(k) && !s.Derived?
    ensures !DerivedBit(k)
  {
    if DerivedBit(k) {
      var u :| u in DERIVED && u.f.Covers(k);
      DerivedMembers(u);
      DescriptorTiles();
      TilesUnique(DESCRIPTOR_LAYOUT, 0, 0x8000, s, u, k);
    }
  }

  /** If t matches the arguments and agrees with d on all other bits, the program for d builds t. */
  lemma RebuiltIs(d: Region, a: Args, m: Region, t: Region)
    requires Matches(t, a)
    requires forall k :: 0 <= k < 0x8000 && !DerivedBit(k) ==> t[k] == d[k]
    ensures Rebuilt(d, a, m) == t
  {
    DescriptorTiles();
    EmittedCoversStruct(DESCRIPTOR_LAYOUT, d);
    MatchesIsDerived(d, a, t);
    forall s | s in DESCRIPTOR_LAYOUT
      ensures SlotHolds(s, d, a, t)
    {
      DerivedMembers(s);
      forall k | s.f.Covers(k) && !s.Derived?
        ensures !DerivedBit(k)
      {
        ScalarBit(s, k);
      }
      SlotOfLayout(s, d, a, t);
    }
    Regeneration(DESCRIPTOR_LAYOUT, d, a, m, t);
  }

  lemma SlotOfLayout(s: Slot, d: Region, a: Args, t: Region)
    requires s.f.End() <= 0x8000 && (s.Derived? ==> SlotHolds(s, d, a, t))
    requires forall k: nat :: s.f.Covers(k) && !s.Derived? ==> !DerivedBit(k)
    requires forall k :: 0 <= k < 0x8000 && !DerivedBit(k) ==> t[k] == d[k]
    ensures SlotHolds(s, d, a, t)
  {
    if !s.Derived? {
      forall k | s.f.off <= k < s.f.End()
        ensures d[k] == t[k]
      {
        assert s.f.Covers(k);
      }
    }
  }

  /**
    For any descriptor at all: its printed program rebuilds it, from any memory, exactly when NR, the
    densities, the BIOS and GbE registers and the two GbE straps already match the arguments.
    */
  lemma RebuiltExactly(d: Region, a: Args, m: Region)
    ensures Rebuilt(d, a, m) == d <==> Matches(d, a)
  {
    if Matches(d, a) {
      RebuiltIs(d, a, m, d);
    }
    if Rebuilt(d, a, m) == d {
      DescriptorTiles();
      EmittedCoversStruct(DESCRIPTOR_LAYOUT, d);
      Regeneration(DESCRIPTOR_LAYOUT, d, a, m, d);
      DerivedAllHold(d, a);
      MatchesIsDerived(d, a, d);
    }
  }

  lemma DerivedAllHold(d: Region, a: Args)
    requires forall s :: s in DESCRIPTOR_LAYOUT ==> SlotHolds(s, d, a, d)
    ensures forall s :: s in DERIVED ==> SlotHolds(s, d, a, d)
  {
    forall s | s in DERIVED
      ensures SlotHolds(s, d, a, d)
    {
      DerivedMembers(s);
    }
  }

  // ----- descriptors that ich9deblob wrote -----

  lemma KeepsApart(e: Region, density: nat, f: Field)
    requires f.In(e) && DENSITY1.Apart(f) && DENSITY2.Apart(f)
    ensures Get(WithDensities(e, density), f) == Get(e, f)
  {
    GetPutApart(e, DENSITY1, density, f);
    GetPutApart(Put(e, DENSITY1, density), DENSITY2, density, f);
  }

  lemma DensitiesRead(e: Region, density: nat)
    requires density < 8
    ensures Get(WithDensities(e, density), DENSITY1) == density
    ensures Get(WithDensities(e, density), DENSITY2) == density
  {
    assert Pow2(3) == 8 by { Pow2Values(); }
    SmallMod(density, 8);
    var e1 := Put(e, DENSITY1, density);
    GetPut(e, DENSITY1, density);
    GetPut(e1, DENSITY2, density);
    GetPutApart(e1, DENSITY2, density, DENSITY1);
  }

  lemma ImageMatches(d: Region, a: Args)
    ensures Matches(WithDensities(Image(d, a.romSize, a.hasGbe != 0), ComponentDensity(a.romSize)), a)
  {
    var gbe := a.hasGbe != 0;
    var density := ComponentDensity(a.romSize);
    var e := Image(d, a.romSize, gbe);
    DensitiesRead(e, density);
    ImageSmallMembers(d, a.romSize, gbe);
    ImageRegion(d, a.romSize, gbe, FLREG1, if gbe then 3 else 1, LastPage(a.romSize));
    ImageRegion(d, a.romSize, gbe, FLREG3, if gbe then 1 else 0x1FFF, if gbe then 2 else 0);
    KeepsApart(e, density, NR);
    KeepsApart(e, density, Base(FLREG1));
    KeepsApart(e, density, Limit(FLREG1));
    KeepsApart(e, density, Base(FLREG3));
    KeepsApart(e, density, Limit(FLREG3));
    KeepsApart(e, density, INTEGRATED_GBE);
    KeepsApart(e, density, LAN_PHY);
  }

  /**
    The program printed for a ROM of one size, called for any size and with or without GbE, returns
    what ich9deblob would have made of the same factory descriptor for those arguments, with the
    density fields set for that size.
    */
  lemma ProgramRetargets(d: Region, romSize: nat, a: Args, m: Region)
    ensures Rebuilt(Deblobbed(d, romSize), a, m)
         == WithDensities(Image(d, a.romSize, a.hasGbe != 0), ComponentDensity(a.romSize))
  {
    var e := Deblobbed(d, romSize);
    var t := WithDensities(Image(d, a.romSize, a.hasGbe != 0), ComponentDensity(a.romSize));
    ImageMatches(d, a);
    DeblobbedIsImage(d, romSize);
    forall k | 0 <= k < 0x8000 && !DerivedBit(k)
      ensures t[k] == e[k]
    {
      DerivedBitsAre(k);
      ScalarTarget(romSize, DefinesGbe(d), a, k);
    }
    RebuiltIs(e, a, m, t);
  }

  /** A touched bit outside the derived members gets the same value for all arguments. */
  lemma ScalarTarget(romSize: nat, gbe: bool, a: Args, k: nat)
    requires !DerivedBit(k)
    ensures Touched(k) ==> Target(romSize, gbe, k) == Target(a.romSize, a.hasGbe != 0, k)
  {
    DerivedBitsAre(k);
  }

  /** Arguments that describe the ROM itself. */
  predicate ArgsFor(d: Region, romSize: nat, a: Args) {
    a.romSize == romSize && (a.hasGbe != 0 <==> DefinesGbe(d))
  }

  /** For the ROM's own arguments the program returns the written descriptor, densities apart. */
  lemma ProgramRebuilds(d: Region, romSize: nat, a: Args, m: Region)
    requires ArgsFor(d, romSize, a)
    ensures Rebuilt(Deblobbed(d, romSize), a, m) == WithDensities(Deblobbed(d, romSize), ComponentDensity(romSize))
  {
    ProgramRetargets(d, romSize, a, m);
    DeblobbedIsImage(d, romSize);
  }

  /** And exactly the written descriptor if and only if the factory densities were those of the ROM size. */
  lemma ProgramRebuildsExactly(d: Region, romSize: nat, a: Args, m: Region)
    requires ArgsFor(d, romSize, a)
    ensures Rebuilt(Deblobbed(d, romSize), a, m) == Deblobbed(d, romSize) <==>
              Get(d, DENSITY1) == ComponentDensity(romSize) && Get(d, DENSITY2) == ComponentDensity(romSize)
  {
    var e := Deblobbed(d, romSize);
    ProgramRebuilds(d, romSize, a, m);
    DensitiesRead(e, ComponentDensity(romSize));
    DeblobbedKeepsDensities(d, romSize);
    DensitiesUnchanged(e, ComponentDensity(romSize));
  }

  lemma DeblobbedKeepsDensities(d: Region, romSize: nat)
    ensures Get(Deblobbed(d, romSize), DENSITY1) == Get(d, DENSITY1)
    ensures Get(Deblobbed(d, romSize), DENSITY2) == Get(d, DENSITY2)
  {
    DeblobbedIsImage(d, romSize);
    ImageKeeps(d, romSize, DefinesGbe(d), DENSITY1);
    ImageKeeps(d, romSize, DefinesGbe(d), DENSITY2);
  }

  lemma DensitiesUnchanged(e: Region, density: nat)
    requires density < 8
    ensures Get(e, DENSITY1) == density && Get(e, DENSITY2) == density ==> WithDensities(e, density) == e
  {
    assert density < Pow2(3) by { Pow2Values(); }
    GetIs(e, DENSITY1, density);
    GetIs(e, DENSITY2, density);
    if Get(e, DENSITY1) == density && Get(e, DENSITY2) == density {
      assert forall k :: 0 <= k < 0x8000 ==> WithDensities(e, density)[k] == e[k];
    }
  }

  // ----- demefactory -----

  /** What demefactory does: ME and TPM disabled, host unlocked, ME locked out; regions are left alone. */
  function Demed(d: Region): Region {
    WithAccess(WithAccess(Put(WithMeDisabled(d), TPM_DISABLE, 1), FLMSTR1, true), FLMSTR2, false)
  }

  /**
    demefactory also prints a program for its descriptor.  That program is right exactly when the
    factory descriptor already had the members the emitter derives; a descriptor with all five regions
    (NR = 4) never qualifies.
    */
  lemma DemefactoryProgram(d: Region, a: Args, m: Region)
    ensures Rebuilt(Demed(d), a, m) == Demed(d) <==> Matches(d, a)
    ensures Get(d, NR) == 4 ==> Rebuilt(Demed(d), a, m) != Demed(d)
  {
    RebuiltExactly(Demed(d), a, m);
    DemedMatches(d, a);
  }

  lemma DemedMatches(d: Region, a: Args)
    ensures Matches(Demed(d), a) <==> Matches(d, a)
  {
    DemedKeeps(d, NR);
    DemedKeeps(d, DENSITY1);
    DemedKeeps(d, DENSITY2);
    DemedKeeps(d, Base(FLREG1));
    DemedKeeps(d, Limit(FLREG1));
    DemedKeeps(d, Base(FLREG3));
    DemedKeeps(d, Limit(FLREG3));
    DemedKeeps(d, INTEGRATED_GBE);
    DemedKeeps(d, LAN_PHY);
  }

  lemma DemedKeeps(d: Region, f: Field)
    requires f.In(d)
    requires forall k :: f.off <= k < f.End() ==>
               && !AccessBit(FLMSTR1, k) && !AccessBit(FLMSTR2, k)
               && !ICH_ME_DISABLE.Covers(k) && !MCH_ME_DISABLE.Covers(k) && !TPM_DISABLE.Covers(k)
    ensures Get(Demed(d), f) == Get(d, f)
  {
    GetSame(d, Demed(d), f);
  }

  // ----- the emitter -----

  lemma EmitGrows(ls: Layout, ms: Layout, f: Field, d: Region, p: Program)
    requires Inside(ls, 0x8000) && Inside(ms, 0x8000) && f.In(d) && p == Emit(ls, d)
    ensures Inside(ls + ms + [Padding(f)], 0x8000)
    ensures p + Emit(ms, d) + EmitPadding(f, d) == Emit(ls + ms + [Padding(f)], d)
  {
    EmitAppend(ls, ms, d);
    EmitAppend(ls + ms, [Padding(f)], d);
    EmitOne(f, d);
  }

  lemma SectionsInside()
    ensures Inside(HEAD, 0x8000) && Inside(REGIONS, 0x8000) && Inside(MASTERS, 0x8000) && Inside(ICHSTRAPS, 0x8000)
    ensures Inside(MCHSTRAP0_SLOTS, 0x8000) && Inside(VSCC_TABLE_SLOTS, 0x8000) && Inside(TAIL, 0x8000)
  {
    DescriptorTiles();
  }

  lemma SectionsOnlyMembers()
    ensures OnlyMembers(HEAD) && OnlyMembers(REGIONS) && OnlyMembers(MASTERS) && OnlyMembers(ICHSTRAPS)
    ensures OnlyMembers(MCHSTRAP0_SLOTS) && OnlyMembers(VSCC_TABLE_SLOTS) && OnlyMembers(TAIL)
  {
    forall s: Slot
      ensures s in MASTERS || s in MCHSTRAP0_SLOTS || s in VSCC_TABLE_SLOTS || s in TAIL ==> !s.Padding?
      ensures s in HEAD || s in REGIONS || s in ICHSTRAPS ==> !s.Padding?
    {
      ScalarsElsewhere(s);
      NoPaddingInHead(s);
      NoPaddingInRegions(s);
      NoPaddingInStraps(s);
    }
  }

  lemma NoPaddingInHead(s: Slot)
    ensures s in HEAD ==> !s.Padding?
  {
  }

  lemma NoPaddingInRegions(s: Slot)
    ensures s in REGIONS ==> !s.Padding?
  {
  }

  lemma NoPaddingInStraps(s: Slot)
    ensures s in ICHSTRAPS ==> !s.Padding?
  {
  }

  /** The members of one section line by line, then its padding array through the scan. */
  method WriteSection(d: Region, ghost done: Layout, section: Layout, address: nat, count: nat, out0: Program)
    returns (out: Program, ghost grown: Layout)
    requires Inside(done, 0x8000) && Inside(section, 0x8000) && 0 < count && address + count <= 0x1000
    requires OnlyMembers(section) && out0 == Emit(done, d)
    ensures grown == done + section + [Padding(ByteArray(address, count))]
    ensures Inside(grown, 0x8000) && out == Emit(grown, d)
  {
    var f := ByteArray(address, count);
    out := WriteMembers(section, d, out0);
    out := WritePaddingByScan(f, d, out);
    grown := done + section + [Padding(f)];
    EmitGrows(done, section, f, d, out0);
  }

  lemma FromEmpty(ls: Layout)
    ensures [] + ls == ls && Inside([], 0x8000)
  {
  }

  method WriteFront(d: Region) returns (out: Program)
    ensures Inside(FRONT, 0x8000) && out == Emit(FRONT, d)
  {
    SectionsInside();
    SectionsOnlyMembers();
    FromEmpty(HEAD);
    ghost var done: Layout := [];
    out := [];
    out, done := WriteSection(d, done, HEAD, 0x1C, 36, out);
    out, done := WriteSection(d, done, REGIONS, 0x54, 12, out);
    out, done := WriteSection(d, done, MASTERS, 0x6C, 148, out);
  }

  /** The printing code of descriptor.c. */
  method WriteDescriptorProgram(d: Region) returns (out: Program)
    ensures out == DescriptorProgram(d)
  {
    out := WriteFront(d);
    SectionsInside();
    SectionsOnlyMembers();
    ghost var done: Layout := FRONT;
    out, done := WriteSection(d, done, ICHSTRAPS, 0x108, 248, out);
    out, done := WriteSection(d, done, MCHSTRAP0_SLOTS, 0x204, 3292, out);
    out, done := WriteSection(d, done, VSCC_TABLE_SLOTS, 0xEF8, 4, out);
    out, done := WriteSection(d, done, TAIL, 0xF08, 248, out);
  }
}
