/**
  The 4 KiB flash descriptor: where each member lies, and how the emitter of descriptor.c prints it.
  Members that the transformations name have constants; the others appear in their register's list,
  in the order the comment above the list gives.
  */
module DescriptorLayout {
  import opened Memory
  import opened EmittedC
  import opened StructLayout

  const DESCRIPTORREGIONSIZE: nat := 0x1000
  const GBEREGIONSIZE_8K: nat := 0x2000
  const GBEREGIONSIZE_4K: nat := 0x1000
  const FLREGIONBITSHIFT: nat := 12

  /** The memory of one struct DESCRIPTORREGIONRECORD. */
  type Region = m: Bits | |m| == 0x8000 witness seq(0x8000, _ => false)

  // ----- members -----

  const SIGNATURE := Reg(0x00, 0, 32)
  const FCBA := Reg(0x04, 0, 8)
  const FRBA := Reg(0x04, 16, 8)
  const NR := Reg(0x04, 24, 3)
  const FMBA := Reg(0x08, 0, 8)
  const FISBA := Reg(0x08, 16, 8)
  const FMSBA := Reg(0x0C, 0, 8)
  const DENSITY1 := Reg(0x10, 0, 3)
  const DENSITY2 := Reg(0x10, 3, 3)
  const COMPONENT_PADDING := ByteArray(0x1C, 36)

  /** Region registers: descriptor, BIOS, ME, GbE, platform. */
  const FLREG0: nat := 0x40
  const FLREG1: nat := 0x44
  const FLREG2: nat := 0x48
  const FLREG3: nat := 0x4C
  const FLREG4: nat := 0x50
  function Base(flreg: nat): Field { Reg(flreg, 0, 13) }
  function Limit(flreg: nat): Field { Reg(flreg, 16, 13) }
  const REGION_PADDING := ByteArray(0x54, 12)

  /** Master access registers: host CPU, ME, GbE. */
  const FLMSTR1: nat := 0x60
  const FLMSTR2: nat := 0x64
  const FLMSTR3: nat := 0x68

  /** Access bits of a master, one for each region in the order of the region registers. */
  function ReadAccess(flmstr: nat, region: nat): Field { Reg(flmstr, 16 + region, 1) }
  function WriteAccess(flmstr: nat, region: nat): Field { Reg(flmstr, 24 + region, 1) }
  const MASTER_PADDING := ByteArray(0x6C, 148)

  const ICH_ME_DISABLE := Reg(0x100, 0, 1)
  const INTEGRATED_GBE := Reg(0x100, 19, 1)
  const LAN_PHY := Reg(0x100, 20, 1)
  const ICH_PADDING := ByteArray(0x108, 248)

  const MCH_ME_DISABLE := Reg(0x200, 0, 1)
  const TPM_DISABLE := Reg(0x200, 2, 1)
  const MCH_PADDING := ByteArray(0x204, 3292)

  const VSCC_PADDING := ByteArray(0xEF8, 4)
  const VSCC_BASE := Reg(0xEFC, 0, 8)

  function OemByte(i: nat): Field { Field(8 * (0xF00 + i), 8) }
  const OEM_STRING := Field(8 * 0xF00, 64)
  const OEM_PADDING := ByteArray(0xF08, 248)

  // ----- the expressions of the derived members -----

  const NR_EXPR := IfGbe(Hex(2, 1), Hex(1, 1))
  const BIOS_BASE_EXPR :=
    ShiftRight(Plus(Const(DESCRIPTORREGIONSIZE), IfGbe(Const(GBEREGIONSIZE_8K), Const(0))), FLREGIONBITSHIFT)
  const BIOS_LIMIT_EXPR := Minus(ShiftRight(RomSizeArg, FLREGIONBITSHIFT), Const(1))
  const GBE_BASE_EXPR := IfGbe(ShiftRight(Const(DESCRIPTORREGIONSIZE), FLREGIONBITSHIFT), Hex(0x1fff, 4))
  const GBE_LIMIT_EXPR := IfGbe(ShiftRight(Const(GBEREGIONSIZE_8K), FLREGIONBITSHIFT), Hex(0, 4))
  const STRAP_EXPR := IfGbe(Hex(1, 1), Hex(0, 1))

  // ----- registers, in the order of the struct and of the emitted lines -----

  // signature
  const FLVALSIG_SLOTS: Layout := [
    Scalar(SIGNATURE, 8)
  ]

  // FCBA, NC, reserved1, FRBA, NR, reserved2
  const FLMAP0_SLOTS: Layout := [
    Scalar(FCBA, 2), Scalar(Reg(0x04, 8, 2), 1), Scalar(Reg(0x04, 10, 6), 2), Scalar(FRBA, 2),
    Derived(NR, NR_EXPR), Scalar(Reg(0x04, 27, 5), 2)
  ]

  // FMBA, NM, reserved, FISBA, ISL
  const FLMAP1_SLOTS: Layout := [
    Scalar(FMBA, 2), Scalar(Reg(0x08, 8, 3), 1), Scalar(Reg(0x08, 11, 5), 2), Scalar(FISBA, 2),
    Scalar(Reg(0x08, 24, 8), 2)
  ]

  // FMSBA, MSL, reserved
  const FLMAP2_SLOTS: Layout := [
    Scalar(FMSBA, 2), Scalar(Reg(0x0C, 8, 8), 2), Scalar(Reg(0x0C, 16, 16), 4)
  ]

  // component1Density, component2Density, reserved1, reserved2, reserved3, readClockFrequency, fastReadSupport,
  // fastreadClockFrequency, writeEraseClockFrequency, readStatusClockFrequency, reserved4
  const FLCOMP_SLOTS: Layout := [
    Derived(DENSITY1, Density(RomSizeArg)), Derived(DENSITY2, Density(RomSizeArg)), Scalar(Reg(0x10, 6, 2), 1),
    Scalar(Reg(0x10, 8, 8), 2), Scalar(Reg(0x10, 16, 1), 1), Scalar(Reg(0x10, 17, 3), 1),
    Scalar(Reg(0x10, 20, 1), 1), Scalar(Reg(0x10, 21, 3), 1), Scalar(Reg(0x10, 24, 3), 1),
    Scalar(Reg(0x10, 27, 3), 1), Scalar(Reg(0x10, 30, 2), 1)
  ]

  // flill, flpb
  const FLILL_FLPB_SLOTS: Layout := [
    Scalar(Reg(0x14, 0, 32), 8), Scalar(Reg(0x18, 0, 32), 8)
  ]

  // BASE, reserved1, LIMIT, reserved2
  function RegionSlots(flreg: nat): Layout {
    [Scalar(Base(flreg), 4), Scalar(Reg(flreg, 13, 3), 1), Scalar(Limit(flreg), 4), Scalar(Reg(flreg, 29, 3), 1)]
  }

  // BASE, reserved1, LIMIT, reserved2
  const FLREG1_SLOTS: Layout := [
    Derived(Base(FLREG1), BIOS_BASE_EXPR), Scalar(Reg(FLREG1, 13, 3), 1),
    Derived(Limit(FLREG1), BIOS_LIMIT_EXPR), Scalar(Reg(FLREG1, 29, 3), 1)
  ]

  // BASE, reserved1, LIMIT, reserved2
  const FLREG3_SLOTS: Layout := [
    Derived(Base(FLREG3), GBE_BASE_EXPR), Scalar(Reg(FLREG3, 13, 3), 1), Derived(Limit(FLREG3), GBE_LIMIT_EXPR),
    Scalar(Reg(FLREG3, 29, 3), 1)
  ]

  // requesterId, five read access bits, reserved1, five write access bits, reserved2
  function MasterSlots(flmstr: nat): Layout {
    [
      Scalar(Reg(flmstr, 0, 16), 4),
      Scalar(ReadAccess(flmstr, 0), 1), Scalar(ReadAccess(flmstr, 1), 1), Scalar(ReadAccess(flmstr, 2), 1),
      Scalar(ReadAccess(flmstr, 3), 1), Scalar(ReadAccess(flmstr, 4), 1), Scalar(Reg(flmstr, 21, 3), 1),
      Scalar(WriteAccess(flmstr, 0), 1), Scalar(WriteAccess(flmstr, 1), 1), Scalar(WriteAccess(flmstr, 2), 1),
      Scalar(WriteAccess(flmstr, 3), 1), Scalar(WriteAccess(flmstr, 4), 1), Scalar(Reg(flmstr, 29, 3), 1)
    ]
  }

  // meDisable, reserved1, tcoMode, smBusAddress, bmcMode, tripPointSelect, reserved2, integratedGbe, lanPhy,
  // reserved3, dmiRequesterId, smBus2Address
  const ICHSTRAP0_SLOTS: Layout := [
    Scalar(ICH_ME_DISABLE, 1), Scalar(Reg(0x100, 1, 6), 2), Scalar(Reg(0x100, 7, 1), 1),
    Scalar(Reg(0x100, 8, 7), 2), Scalar(Reg(0x100, 15, 1), 1), Scalar(Reg(0x100, 16, 1), 1),
    Scalar(Reg(0x100, 17, 2), 1), Derived(INTEGRATED_GBE, STRAP_EXPR), Derived(LAN_PHY, STRAP_EXPR),
    Scalar(Reg(0x100, 21, 3), 1), Scalar(Reg(0x100, 24, 1), 1), Scalar(Reg(0x100, 25, 7), 2)
  ]

  // northMlink, southMlink, meSmbus, sstDynamic, reserved1, northMlink2, reserved2, reserved3
  const ICHSTRAP1_SLOTS: Layout := [
    Scalar(Reg(0x104, 0, 1), 1), Scalar(Reg(0x104, 1, 1), 1), Scalar(Reg(0x104, 2, 1), 1),
    Scalar(Reg(0x104, 3, 1), 1), Scalar(Reg(0x104, 4, 4), 1), Scalar(Reg(0x104, 8, 1), 1),
    Scalar(Reg(0x104, 9, 7), 2), Scalar(Reg(0x104, 16, 16), 4)
  ]

  // meDisable, meBootFromFlash, tpmDisable, reserved1, spiFingerprint, meAlternateDisable, reserved2, reserved3
  const MCHSTRAP0_SLOTS: Layout := [
    Scalar(MCH_ME_DISABLE, 1), Scalar(Reg(0x200, 1, 1), 1), Scalar(TPM_DISABLE, 1),
    Scalar(Reg(0x200, 3, 3), 1), Scalar(Reg(0x200, 6, 1), 1), Scalar(Reg(0x200, 7, 1), 1),
    Scalar(Reg(0x200, 8, 8), 2), Scalar(Reg(0x200, 16, 16), 4)
  ]

  // jid0, vscc0, jid1, vscc1, jid2, vscc2
  const VSCC_TABLE_SLOTS: Layout := [
    Scalar(Reg(0xEE0, 0, 32), 8), Scalar(Reg(0xEE4, 0, 32), 8), Scalar(Reg(0xEE8, 0, 32), 8),
    Scalar(Reg(0xEEC, 0, 32), 8), Scalar(Reg(0xEF0, 0, 32), 8), Scalar(Reg(0xEF4, 0, 32), 8)
  ]

  // meVsccTableBaseAddress, meVsccTableLength, reserved
  const MAP2_SLOTS: Layout := [
    Scalar(VSCC_BASE, 2), Scalar(Reg(0xEFC, 8, 8), 2), Scalar(Reg(0xEFC, 16, 16), 4)
  ]

  // magicString
  const OEM_SLOTS: Layout := [
    Scalar(OemByte(0), 2), Scalar(OemByte(1), 2), Scalar(OemByte(2), 2), Scalar(OemByte(3), 2),
    Scalar(OemByte(4), 2), Scalar(OemByte(5), 2), Scalar(OemByte(6), 2), Scalar(OemByte(7), 2)
  ]

  /** The whole struct, in order. */
  const HEAD: Layout := FLVALSIG_SLOTS + FLMAP0_SLOTS + FLMAP1_SLOTS + FLMAP2_SLOTS + FLCOMP_SLOTS + FLILL_FLPB_SLOTS
  const REGIONS: Layout := RegionSlots(FLREG0) + FLREG1_SLOTS + RegionSlots(FLREG2) + FLREG3_SLOTS + RegionSlots(FLREG4)
  const MASTERS: Layout := MasterSlots(FLMSTR1) + MasterSlots(FLMSTR2) + MasterSlots(FLMSTR3)
  const ICHSTRAPS: Layout := ICHSTRAP0_SLOTS + ICHSTRAP1_SLOTS
  const TAIL: Layout := MAP2_SLOTS + OEM_SLOTS
  const FRONT: Layout :=
    HEAD + [Padding(COMPONENT_PADDING)] + REGIONS + [Padding(REGION_PADDING)] + MASTERS + [Padding(MASTER_PADDING)]
  const DESCRIPTOR_LAYOUT: Layout :=
    FRONT + ICHSTRAPS + [Padding(ICH_PADDING)] + MCHSTRAP0_SLOTS + [Padding(MCH_PADDING)]
    + VSCC_TABLE_SLOTS + [Padding(VSCC_PADDING)] + TAIL + [Padding(OEM_PADDING)]

  // ----- the members tile the 4 KiB -----

  lemma HeadTiles()
    ensures Tiles(HEAD, 0, 0xE0)
  {
    TilesByStep(FLVALSIG_SLOTS, 0x00, 0x20);
    TilesByStep(FLMAP0_SLOTS, 0x20, 0x40);
    TilesByStep(FLMAP1_SLOTS, 0x40, 0x60);
    TilesByStep(FLMAP2_SLOTS, 0x60, 0x80);
    TilesByStep(FLCOMP_SLOTS, 0x80, 0xA0);
    TilesByStep(FLILL_FLPB_SLOTS, 0xA0, 0xE0);
    TilesAppend(FLVALSIG_SLOTS, FLMAP0_SLOTS, 0x00, 0x20, 0x40);
    TilesAppend(FLVALSIG_SLOTS + FLMAP0_SLOTS, FLMAP1_SLOTS, 0x00, 0x40, 0x60);
    TilesAppend(FLVALSIG_SLOTS + FLMAP0_SLOTS + FLMAP1_SLOTS, FLMAP2_SLOTS, 0x00, 0x60, 0x80);
    TilesAppend(FLVALSIG_SLOTS + FLMAP0_SLOTS + FLMAP1_SLOTS + FLMAP2_SLOTS, FLCOMP_SLOTS, 0x00, 0x80, 0xA0);
    TilesAppend(FLVALSIG_SLOTS + FLMAP0_SLOTS + FLMAP1_SLOTS + FLMAP2_SLOTS + FLCOMP_SLOTS, FLILL_FLPB_SLOTS,
                0x00, 0xA0, 0xE0);
  }

  lemma RegionTiles(flreg: nat)
    ensures Tiles(RegionSlots(flreg), 8 * flreg, 8 * flreg + 32)
  {
    TilesByStep(RegionSlots(flreg), 8 * flreg, 8 * flreg + 32);
  }

  lemma MasterTiles(flmstr: nat)
    ensures Tiles(MasterSlots(flmstr), 8 * flmstr, 8 * flmstr + 32)
  {
    TilesByStep(MasterSlots(flmstr), 8 * flmstr, 8 * flmstr + 32);
  }

  lemma RegionsTile()
    ensures Tiles(REGIONS, 0x200, 0x2A0)
  {
    RegionTiles(FLREG0);
    TilesByStep(FLREG1_SLOTS, 0x220, 0x240);
    RegionTiles(FLREG2);
    TilesByStep(FLREG3_SLOTS, 0x260, 0x280);
    RegionTiles(FLREG4);
    TilesAppend(RegionSlots(FLREG0), FLREG1_SLOTS, 0x200, 0x220, 0x240);
    TilesAppend(RegionSlots(FLREG0) + FLREG1_SLOTS, RegionSlots(FLREG2), 0x200, 0x240, 0x260);
    TilesAppend(RegionSlots(FLREG0) + FLREG1_SLOTS + RegionSlots(FLREG2), FLREG3_SLOTS, 0x200, 0x260, 0x280);
    TilesAppend(RegionSlots(FLREG0) + FLREG1_SLOTS + RegionSlots(FLREG2) + FLREG3_SLOTS, RegionSlots(FLREG4),
                0x200, 0x280, 0x2A0);
  }

  lemma MastersTile()
    ensures Tiles(MASTERS, 0x300, 0x360)
  {
    MasterTiles(FLMSTR1);
    MasterTiles(FLMSTR2);
    MasterTiles(FLMSTR3);
    TilesAppend(MasterSlots(FLMSTR1), MasterSlots(FLMSTR2), 0x300, 0x320, 0x340);
    TilesAppend(MasterSlots(FLMSTR1) + MasterSlots(FLMSTR2), MasterSlots(FLMSTR3), 0x300, 0x340, 0x360);
  }

  lemma StrapsTile()
    ensures Tiles(ICHSTRAPS, 0x800, 0x840)
    ensures Tiles(MCHSTRAP0_SLOTS, 0x1000, 0x1020)
  {
    TilesByStep(ICHSTRAP0_SLOTS, 0x800, 0x820);
    TilesByStep(ICHSTRAP1_SLOTS, 0x820, 0x840);
    TilesAppend(ICHSTRAP0_SLOTS, ICHSTRAP1_SLOTS, 0x800, 0x820, 0x840);
    TilesByStep(MCHSTRAP0_SLOTS, 0x1000, 0x1020);
  }

  lemma TailTiles()
    ensures Tiles(VSCC_TABLE_SLOTS, 0x7700, 0x77C0)
    ensures Tiles(TAIL, 0x77E0, 0x7840)
  {
    TilesByStep(VSCC_TABLE_SLOTS, 0x7700, 0x77C0);
    TilesByStep(MAP2_SLOTS, 0x77E0, 0x7800);
    TilesByStep(OEM_SLOTS, 0x7800, 0x7840);
    TilesAppend(MAP2_SLOTS, OEM_SLOTS, 0x77E0, 0x7800, 0x7840);
  }

  lemma PaddingTiles(f: Field)
    requires f.width % 8 == 0
    ensures Tiles([Padding(f)], f.off, f.End())
  {
    TilesByStep([Padding(f)], f.off, f.End());
  }

  lemma GrowTiles(ls: Layout, ms: Layout, f: Field, mid: nat)
    requires Tiles(ls, 0, mid) && Tiles(ms, mid, f.off) && f.width % 8 == 0
    ensures Tiles(ls + ms + [Padding(f)], 0, f.End())
  {
    PaddingTiles(f);
    TilesAppend(ls, ms, 0, mid, f.off);
    TilesAppend(ls + ms, [Padding(f)], 0, f.off, f.End());
  }

  /** Every bit of the 4 KiB belongs to exactly one member. */
  lemma DescriptorTiles()
    ensures Tiles(DESCRIPTOR_LAYOUT, 0, 0x8000)
    ensures Inside(DESCRIPTOR_LAYOUT, 0x8000)
  {
    FrontTiles();
    StrapsTile();
    TailTiles();
    GrowTiles(FRONT, ICHSTRAPS, ICH_PADDING, 0x800);
    var ls := FRONT + ICHSTRAPS + [Padding(ICH_PADDING)];
    GrowTiles(ls, MCHSTRAP0_SLOTS, MCH_PADDING, 0x1000);
    ls := ls + MCHSTRAP0_SLOTS + [Padding(MCH_PADDING)];
    GrowTiles(ls, VSCC_TABLE_SLOTS, VSCC_PADDING, 0x7700);
    ls := ls + VSCC_TABLE_SLOTS + [Padding(VSCC_PADDING)];
    GrowTiles(ls, TAIL, OEM_PADDING, 0x77E0);
    TilesInside(DESCRIPTOR_LAYOUT, 0, 0x8000);
  }

  lemma FrontTiles()
    ensures Tiles(FRONT, 0, 0x800)
  {
    HeadTiles();
    RegionsTile();
    MastersTile();
    assert [] + HEAD == HEAD;
    GrowTiles([], HEAD, COMPONENT_PADDING, 0);
    var ls := HEAD + [Padding(COMPONENT_PADDING)];
    GrowTiles(ls, REGIONS, REGION_PADDING, 0x200);
    ls := ls + REGIONS + [Padding(REGION_PADDING)];
    GrowTiles(ls, MASTERS, MASTER_PADDING, 0x300);
  }

  // ----- which members are derived -----

  const DERIVED: seq<Slot> := [
    Derived(NR, NR_EXPR),
    Derived(DENSITY1, Density(RomSizeArg)),
    Derived(DENSITY2, Density(RomSizeArg)),
    Derived(Base(FLREG1), BIOS_BASE_EXPR),
    Derived(Limit(FLREG1), BIOS_LIMIT_EXPR),
    Derived(Base(FLREG3), GBE_BASE_EXPR),
    Derived(Limit(FLREG3), GBE_LIMIT_EXPR),
    Derived(INTEGRATED_GBE, STRAP_EXPR),
    Derived(LAN_PHY, STRAP_EXPR)
  ]

  /** These nine members, and no others, are printed as expressions. */
  lemma DerivedMembers(s: Slot)
    ensures s in DESCRIPTOR_LAYOUT && s.Derived? <==> s in DERIVED
  {
    if s in DESCRIPTOR_LAYOUT && s.Derived? {
      assert s in HEAD || s in REGIONS || s in ICHSTRAPS by { ScalarsElsewhere(s); }
      DerivedInHead(s);
      DerivedInRegions(s);
      DerivedInStraps(s);
    }
    if s in DERIVED {
      DerivedPresent();
    }
  }

  lemma DerivedInHead(s: Slot)
    ensures s in HEAD && s.Derived? ==> s in DERIVED
  {
  }

  lemma DerivedInRegions(s: Slot)
    ensures s in REGIONS && s.Derived? ==> s in DERIVED
  {
  }

  lemma DerivedInStraps(s: Slot)
    ensures s in ICHSTRAPS && s.Derived? ==> s in DERIVED
  {
  }

  lemma ScalarsElsewhere(s: Slot)
    ensures s in MASTERS || s in MCHSTRAP0_SLOTS || s in VSCC_TABLE_SLOTS || s in TAIL ==> s.Scalar?
  {
  }

  lemma DerivedPresent()
    ensures forall s :: s in DERIVED ==> s in DESCRIPTOR_LAYOUT
  {
    assert FLMAP0_SLOTS[4] == DERIVED[0];
    assert FLCOMP_SLOTS[0] == DERIVED[1] && FLCOMP_SLOTS[1] == DERIVED[2];
    assert FLREG1_SLOTS[0] == DERIVED[3] && FLREG1_SLOTS[2] == DERIVED[4];
    assert FLREG3_SLOTS[0] == DERIVED[5] && FLREG3_SLOTS[2] == DERIVED[6];
    assert ICHSTRAP0_SLOTS[7] == DERIVED[7] && ICHSTRAP0_SLOTS[8] == DERIVED[8];
    assert forall s :: s in FLMAP0_SLOTS || s in FLCOMP_SLOTS ==> s in HEAD;
    assert forall s :: s in FLREG1_SLOTS || s in FLREG3_SLOTS ==> s in REGIONS;
    assert forall s :: s in ICHSTRAP0_SLOTS ==> s in ICHSTRAPS;
    assert forall s :: s in HEAD || s in REGIONS || s in ICHSTRAPS ==> s in DESCRIPTOR_LAYOUT;
  }
}
