/**
  The program shipped as mkdescriptor.c, line by line, and what it has to do with the other half of the
  repository: it is its own regeneration, and the descriptor it returns is one that ich9deblob would
  leave alone.
  */
module MkDescriptor {
  import opened Words
  import opened Memory
  import opened EmittedC
  import opened StructLayout
  import opened DescriptorLayout
  import opened Descriptor
  import opened DescriptorTheorems
  import opened DescriptorRegeneration
  import opened FlashRegions

  // ----- the shipped lines, register by register -----

  const FLVALSIG_LINES: Program := [
    Assign(SIGNATURE, Hex(0x0ff0a55a, 8))
  ]

  const FLMAP0_LINES: Program := [
    Assign(FCBA, Hex(0x01, 2)), Assign(Reg(0x04, 8, 2), Hex(0, 1)), Assign(Reg(0x04, 10, 6), Hex(0, 2)),
    Assign(FRBA, Hex(0x04, 2)), Assign(NR, NR_EXPR), Assign(Reg(0x04, 27, 5), Hex(0, 2))
  ]

  const FLMAP1_LINES: Program := [
    Assign(FMBA, Hex(0x06, 2)), Assign(Reg(0x08, 8, 3), Hex(2, 1)), Assign(Reg(0x08, 11, 5), Hex(0, 2)),
    Assign(FISBA, Hex(0x10, 2)), Assign(Reg(0x08, 24, 8), Hex(0x02, 2))
  ]

  const FLMAP2_LINES: Program := [
    Assign(FMSBA, Hex(0x20, 2)), Assign(Reg(0x0C, 8, 8), Hex(0x01, 2)), Assign(Reg(0x0C, 16, 16), Hex(0, 4))
  ]

  const FLCOMP_LINES: Program := [
    Assign(DENSITY1, Density(RomSizeArg)), Assign(DENSITY2, Density(RomSizeArg)), Assign(Reg(0x10, 6, 2), Hex(0, 1)),
    Assign(Reg(0x10, 8, 8), Hex(0, 2)), Assign(Reg(0x10, 16, 1), Hex(0, 1)),
    Assign(Reg(0x10, 17, 3), Hex(0, 1)), Assign(Reg(0x10, 20, 1), Hex(1, 1)),
    Assign(Reg(0x10, 21, 3), Hex(1, 1)), Assign(Reg(0x10, 24, 3), Hex(0, 1)),
    Assign(Reg(0x10, 27, 3), Hex(0, 1)), Assign(Reg(0x10, 30, 2), Hex(0, 1))
  ]

  const FLILL_FLPB_LINES: Program := [
    Assign(Reg(0x14, 0, 32), Hex(0, 8)), Assign(Reg(0x18, 0, 32), Hex(0, 8))
  ]

  const FLREG0_LINES: Program := [
    Assign(Base(FLREG0), Hex(0, 4)), Assign(Reg(FLREG0, 13, 3), Hex(0, 1)), Assign(Limit(FLREG0), Hex(0, 4)),
    Assign(Reg(FLREG0, 29, 3), Hex(0, 1))
  ]

  const FLREG1_LINES: Program := [
    Assign(Base(FLREG1), BIOS_BASE_EXPR), Assign(Reg(FLREG1, 13, 3), Hex(0, 1)),
    Assign(Limit(FLREG1), BIOS_LIMIT_EXPR), Assign(Reg(FLREG1, 29, 3), Hex(0, 1))
  ]

  const FLREG2_LINES: Program := [
    Assign(Base(FLREG2), Hex(0x1fff, 4)), Assign(Reg(FLREG2, 13, 3), Hex(0, 1)),
    Assign(Limit(FLREG2), Hex(0, 4)), Assign(Reg(FLREG2, 29, 3), Hex(0, 1))
  ]

  const FLREG3_LINES: Program := [
    Assign(Base(FLREG3), GBE_BASE_EXPR), Assign(Reg(FLREG3, 13, 3), Hex(0, 1)),
    Assign(Limit(FLREG3), GBE_LIMIT_EXPR), Assign(Reg(FLREG3, 29, 3), Hex(0, 1))
  ]

  const FLREG4_LINES: Program := [
    Assign(Base(FLREG4), Hex(0x1fff, 4)), Assign(Reg(FLREG4, 13, 3), Hex(0, 1)),
    Assign(Limit(FLREG4), Hex(0, 4)), Assign(Reg(FLREG4, 29, 3), Hex(0, 1))
  ]

  const FLMSTR1_LINES: Program := [
    Assign(Reg(FLMSTR1, 0, 16), Hex(0, 4)), Assign(ReadAccess(FLMSTR1, 0), Hex(1, 1)),
    Assign(ReadAccess(FLMSTR1, 1), Hex(1, 1)), Assign(ReadAccess(FLMSTR1, 2), Hex(1, 1)),
    Assign(ReadAccess(FLMSTR1, 3), Hex(1, 1)), Assign(ReadAccess(FLMSTR1, 4), Hex(1, 1)),
    Assign(Reg(FLMSTR1, 21, 3), Hex(0, 1)), Assign(WriteAccess(FLMSTR1, 0), Hex(1, 1)),
    Assign(WriteAccess(FLMSTR1, 1), Hex(1, 1)), Assign(WriteAccess(FLMSTR1, 2), Hex(1, 1)),
    Assign(WriteAccess(FLMSTR1, 3), Hex(1, 1)), Assign(WriteAccess(FLMSTR1, 4), Hex(1, 1)),
    Assign(Reg(FLMSTR1, 29, 3), Hex(0, 1))
  ]

  const FLMSTR2_LINES: Program := [
    Assign(Reg(FLMSTR2, 0, 16), Hex(0, 4)), Assign(ReadAccess(FLMSTR2, 0), Hex(0, 1)),
    Assign(ReadAccess(FLMSTR2, 1), Hex(0, 1)), Assign(ReadAccess(FLMSTR2, 2), Hex(0, 1)),
    Assign(ReadAccess(FLMSTR2, 3), Hex(0, 1)), Assign(ReadAccess(FLMSTR2, 4), Hex(0, 1)),
    Assign(Reg(FLMSTR2, 21, 3), Hex(0, 1)), Assign(WriteAccess(FLMSTR2, 0), Hex(0, 1)),
    Assign(WriteAccess(FLMSTR2, 1), Hex(0, 1)), Assign(WriteAccess(FLMSTR2, 2), Hex(0, 1)),
    Assign(WriteAccess(FLMSTR2, 3), Hex(0, 1)), Assign(WriteAccess(FLMSTR2, 4), Hex(0, 1)),
    Assign(Reg(FLMSTR2, 29, 3), Hex(0, 1))
  ]

  const FLMSTR3_LINES: Program := [
    Assign(Reg(FLMSTR3, 0, 16), Hex(0x0218, 4)), Assign(ReadAccess(FLMSTR3, 0), Hex(0, 1)),
    Assign(ReadAccess(FLMSTR3, 1), Hex(0, 1)), Assign(ReadAccess(FLMSTR3, 2), Hex(0, 1)),
    Assign(ReadAccess(FLMSTR3, 3), Hex(1, 1)), Assign(ReadAccess(FLMSTR3, 4), Hex(0, 1)),
    Assign(Reg(FLMSTR3, 21, 3), Hex(0, 1)), Assign(WriteAccess(FLMSTR3, 0), Hex(0, 1)),
    Assign(WriteAccess(FLMSTR3, 1), Hex(0, 1)), Assign(WriteAccess(FLMSTR3, 2), Hex(0, 1)),
    Assign(WriteAccess(FLMSTR3, 3), Hex(1, 1)), Assign(WriteAccess(FLMSTR3, 4), Hex(0, 1)),
    Assign(Reg(FLMSTR3, 29, 3), Hex(0, 1))
  ]

  const ICHSTRAP0_LINES: Program := [
    Assign(ICH_ME_DISABLE, Hex(1, 1)), Assign(Reg(0x100, 1, 6), Hex(0x04, 2)),
    Assign(Reg(0x100, 7, 1), Hex(1, 1)), Assign(Reg(0x100, 8, 7), Hex(0x64, 2)),
    Assign(Reg(0x100, 15, 1), Hex(0, 1)), Assign(Reg(0x100, 16, 1), Hex(0, 1)),
    Assign(Reg(0x100, 17, 2), Hex(0, 1)), Assign(INTEGRATED_GBE, STRAP_EXPR), Assign(LAN_PHY, STRAP_EXPR),
    Assign(Reg(0x100, 21, 3), Hex(0, 1)), Assign(Reg(0x100, 24, 1), Hex(0, 1)),
    Assign(Reg(0x100, 25, 7), Hex(0, 2))
  ]

  const ICHSTRAP1_LINES: Program := [
    Assign(Reg(0x104, 0, 1), Hex(1, 1)), Assign(Reg(0x104, 1, 1), Hex(1, 1)),
    Assign(Reg(0x104, 2, 1), Hex(1, 1)), Assign(Reg(0x104, 3, 1), Hex(1, 1)),
    Assign(Reg(0x104, 4, 4), Hex(0, 1)), Assign(Reg(0x104, 8, 1), Hex(1, 1)),
    Assign(Reg(0x104, 9, 7), Hex(0, 2)), Assign(Reg(0x104, 16, 16), Hex(0, 4))
  ]

  const MCHSTRAP0_LINES: Program := [
    Assign(MCH_ME_DISABLE, Hex(1, 1)), Assign(Reg(0x200, 1, 1), Hex(0, 1)), Assign(TPM_DISABLE, Hex(1, 1)),
    Assign(Reg(0x200, 3, 3), Hex(7, 1)), Assign(Reg(0x200, 6, 1), Hex(1, 1)),
    Assign(Reg(0x200, 7, 1), Hex(0, 1)), Assign(Reg(0x200, 8, 8), Hex(0xff, 2)),
    Assign(Reg(0x200, 16, 16), Hex(0xffff, 4))
  ]

  const VSCC_TABLE_LINES: Program := [
    Assign(Reg(0xEE0, 0, 32), Hex(0x001720c2, 8)), Assign(Reg(0xEE4, 0, 32), Hex(0x20052005, 8)),
    Assign(Reg(0xEE8, 0, 32), Hex(0x001730ef, 8)), Assign(Reg(0xEEC, 0, 32), Hex(0x20052005, 8)),
    Assign(Reg(0xEF0, 0, 32), Hex(0x0000481f, 8)), Assign(Reg(0xEF4, 0, 32), Hex(0x20152015, 8))
  ]

  const MAP2_LINES: Program := [
    Assign(VSCC_BASE, Hex(0xee, 2)), Assign(Reg(0xEFC, 8, 8), Hex(0x06, 2)),
    Assign(Reg(0xEFC, 16, 16), Hex(0, 4))
  ]

  const OEM_LINES: Program := [
    Assign(OemByte(0), Hex(0x4c, 2)), Assign(OemByte(1), Hex(0x49, 2)), Assign(OemByte(2), Hex(0x42, 2)),
    Assign(OemByte(3), Hex(0x45, 2)), Assign(OemByte(4), Hex(0x52, 2)), Assign(OemByte(5), Hex(0x41, 2)),
    Assign(OemByte(6), Hex(0x54, 2)), Assign(OemByte(7), Hex(0x45, 2))
  ]

  const HEAD_LINES: Program :=
    FLVALSIG_LINES + FLMAP0_LINES + FLMAP1_LINES + FLMAP2_LINES + FLCOMP_LINES + FLILL_FLPB_LINES
  const REGIONS_LINES: Program := FLREG0_LINES + FLREG1_LINES + FLREG2_LINES + FLREG3_LINES + FLREG4_LINES
  const MASTERS_LINES: Program := FLMSTR1_LINES + FLMSTR2_LINES + FLMSTR3_LINES
  const FRONT_LINES: Program :=
    HEAD_LINES + [Fill(COMPONENT_PADDING)] + REGIONS_LINES + [Fill(REGION_PADDING)]
    + MASTERS_LINES + [Fill(MASTER_PADDING)]
  const MKDESCRIPTOR: Program :=
    FRONT_LINES + (ICHSTRAP0_LINES + ICHSTRAP1_LINES) + [Fill(ICH_PADDING)] + MCHSTRAP0_LINES + [Fill(MCH_PADDING)]
    + VSCC_TABLE_LINES + [Fill(VSCC_PADDING)] + (MAP2_LINES + OEM_LINES) + [Fill(OEM_PADDING)]

  // ----- the shipped program has the form the emitter prints -----

  lemma HeadWritten()
    ensures WrittenFor(HEAD, HEAD_LINES)
  {
    HeadRegistersWritten();
    WrittenAppend(FLVALSIG_SLOTS, FLVALSIG_LINES, FLMAP0_SLOTS, FLMAP0_LINES);
    WrittenAppend(FLVALSIG_SLOTS + FLMAP0_SLOTS, FLVALSIG_LINES + FLMAP0_LINES, FLMAP1_SLOTS, FLMAP1_LINES);
    WrittenAppend(FLVALSIG_SLOTS + FLMAP0_SLOTS + FLMAP1_SLOTS, FLVALSIG_LINES + FLMAP0_LINES + FLMAP1_LINES,
                  FLMAP2_SLOTS, FLMAP2_LINES);
    WrittenAppend(FLVALSIG_SLOTS + FLMAP0_SLOTS + FLMAP1_SLOTS + FLMAP2_SLOTS,
                  FLVALSIG_LINES + FLMAP0_LINES + FLMAP1_LINES + FLMAP2_LINES, FLCOMP_SLOTS, FLCOMP_LINES);
    WrittenAppend(FLVALSIG_SLOTS + FLMAP0_SLOTS + FLMAP1_SLOTS + FLMAP2_SLOTS + FLCOMP_SLOTS,
                  FLVALSIG_LINES + FLMAP0_LINES + FLMAP1_LINES + FLMAP2_LINES + FLCOMP_LINES,
                  FLILL_FLPB_SLOTS, FLILL_FLPB_LINES);
  }

  lemma HeadRegistersWritten()
    ensures WrittenFor(FLVALSIG_SLOTS, FLVALSIG_LINES) && WrittenFor(FLMAP0_SLOTS, FLMAP0_LINES)
    ensures WrittenFor(FLMAP1_SLOTS, FLMAP1_LINES) && WrittenFor(FLMAP2_SLOTS, FLMAP2_LINES)
    ensures WrittenFor(FLCOMP_SLOTS, FLCOMP_LINES) && WrittenFor(FLILL_FLPB_SLOTS, FLILL_FLPB_LINES)
  {
    Pow2Values();
    Pow2Of32();
  }

  lemma RegionsWritten()
    ensures WrittenFor(REGIONS, REGIONS_LINES)
  {
    RegionRegistersWritten();
    WrittenAppend(RegionSlots(FLREG0), FLREG0_LINES, FLREG1_SLOTS, FLREG1_LINES);
    WrittenAppend(RegionSlots(FLREG0) + FLREG1_SLOTS, FLREG0_LINES + FLREG1_LINES, RegionSlots(FLREG2), FLREG2_LINES);
    WrittenAppend(RegionSlots(FLREG0) + FLREG1_SLOTS + RegionSlots(FLREG2), FLREG0_LINES + FLREG1_LINES + FLREG2_LINES,
                  FLREG3_SLOTS, FLREG3_LINES);
    WrittenAppend(RegionSlots(FLREG0) + FLREG1_SLOTS + RegionSlots(FLREG2) + FLREG3_SLOTS,
                  FLREG0_LINES + FLREG1_LINES + FLREG2_LINES + FLREG3_LINES, RegionSlots(FLREG4), FLREG4_LINES);
  }

  lemma RegionRegistersWritten()
    ensures WrittenFor(RegionSlots(FLREG0), FLREG0_LINES) && WrittenFor(FLREG1_SLOTS, FLREG1_LINES)
    ensures WrittenFor(RegionSlots(FLREG2), FLREG2_LINES) && WrittenFor(FLREG3_SLOTS, FLREG3_LINES)
    ensures WrittenFor(RegionSlots(FLREG4), FLREG4_LINES)
  {
    Pow2Values();
  }

  lemma MastersWritten()
    ensures WrittenFor(MASTERS, MASTERS_LINES)
  {
    MasterRegistersWritten();
    WrittenAppend(MasterSlots(FLMSTR1), FLMSTR1_LINES, MasterSlots(FLMSTR2), FLMSTR2_LINES);
    WrittenAppend(MasterSlots(FLMSTR1) + MasterSlots(FLMSTR2), FLMSTR1_LINES + FLMSTR2_LINES,
                  MasterSlots(FLMSTR3), FLMSTR3_LINES);
  }

  lemma MasterRegistersWritten()
    ensures WrittenFor(MasterSlots(FLMSTR1), FLMSTR1_LINES)
    ensures WrittenFor(MasterSlots(FLMSTR2), FLMSTR2_LINES)
    ensures WrittenFor(MasterSlots(FLMSTR3), FLMSTR3_LINES)
  {
    Pow2Values();
  }

  lemma StrapsWritten()
    ensures WrittenFor(ICHSTRAPS, ICHSTRAP0_LINES + ICHSTRAP1_LINES)
    ensures WrittenFor(MCHSTRAP0_SLOTS, MCHSTRAP0_LINES)
  {
    Pow2Values();
    assert WrittenFor(ICHSTRAP0_SLOTS, ICHSTRAP0_LINES);
    assert WrittenFor(ICHSTRAP1_SLOTS, ICHSTRAP1_LINES);
    WrittenAppend(ICHSTRAP0_SLOTS, ICHSTRAP0_LINES, ICHSTRAP1_SLOTS, ICHSTRAP1_LINES);
  }

  lemma TailWritten()
    ensures WrittenFor(VSCC_TABLE_SLOTS, VSCC_TABLE_LINES)
    ensures WrittenFor(TAIL, MAP2_LINES + OEM_LINES)
  {
    Pow2Values();
    Pow2Of32();
    assert WrittenFor(MAP2_SLOTS, MAP2_LINES);
    assert WrittenFor(OEM_SLOTS, OEM_LINES);
    WrittenAppend(MAP2_SLOTS, MAP2_LINES, OEM_SLOTS, OEM_LINES);
  }

  lemma FrontWritten()
    ensures WrittenFor(FRONT, FRONT_LINES)
  {
    HeadWritten();
    RegionsWritten();
    MastersWritten();
    WrittenGrow([], [], HEAD, HEAD_LINES, COMPONENT_PADDING);
    FromEmpty(HEAD);
    assert [] + HEAD_LINES == HEAD_LINES;
    WrittenGrow(HEAD + [Padding(COMPONENT_PADDING)], HEAD_LINES + [Fill(COMPONENT_PADDING)],
                REGIONS, REGIONS_LINES, REGION_PADDING);
    WrittenGrow(HEAD + [Padding(COMPONENT_PADDING)] + REGIONS + [Padding(REGION_PADDING)],
                HEAD_LINES + [Fill(COMPONENT_PADDING)] + REGIONS_LINES + [Fill(REGION_PADDING)],
                MASTERS, MASTERS_LINES, MASTER_PADDING);
  }

  lemma ShippedWritten()
    ensures WrittenFor(DESCRIPTOR_LAYOUT, MKDESCRIPTOR)
  {
    FrontWritten();
    StrapsWritten();
    TailWritten();
    WrittenGrow(FRONT, FRONT_LINES, ICHSTRAPS, ICHSTRAP0_LINES + ICHSTRAP1_LINES, ICH_PADDING);
    var ls := FRONT + ICHSTRAPS + [Padding(ICH_PADDING)];
    var p := FRONT_LINES + (ICHSTRAP0_LINES + ICHSTRAP1_LINES) + [Fill(ICH_PADDING)];
    WrittenGrow(ls, p, MCHSTRAP0_SLOTS, MCHSTRAP0_LINES, MCH_PADDING);
    ls, p := ls + MCHSTRAP0_SLOTS + [Padding(MCH_PADDING)], p + MCHSTRAP0_LINES + [Fill(MCH_PADDING)];
    WrittenGrow(ls, p, VSCC_TABLE_SLOTS, VSCC_TABLE_LINES, VSCC_PADDING);
    ls, p := ls + VSCC_TABLE_SLOTS + [Padding(VSCC_PADDING)], p + VSCC_TABLE_LINES + [Fill(VSCC_PADDING)];
    WrittenGrow(ls, p, TAIL, MAP2_LINES + OEM_LINES, OEM_PADDING);
  }

  // ----- generatedDescriptorStruct -----

  /** The shipped program fits the struct and assigns each member once. */
  lemma ShippedTiled()
    ensures Fits(MKDESCRIPTOR, 0x8000) && Tiled(MKDESCRIPTOR, 0, 0x8000)
  {
    ShippedWritten();
    DescriptorTiles();
    WrittenTiled(DESCRIPTOR_LAYOUT, MKDESCRIPTOR, 0, 0x8000);
    TiledFits(MKDESCRIPTOR, 0, 0x8000);
  }

  /** generatedDescriptorStruct(romSize, hasGbe), on uninitialised memory m. */
  function Generated(a: Args, m: Region): Region {
    ShippedTiled();
    Run(MKDESCRIPTOR, a, m)
  }

  /** mkdescriptor.c run in place on the memory of its uninitialised local variable. */
  method GeneratedDescriptorStruct(a: Args, mem: array<bool>)
    requires mem.Length == 0x8000
    modifies mem
    ensures mem[..] == Generated(a, old(mem[..]))
  {
    ShippedTiled();
    Execute(MKDESCRIPTOR, a, mem);
  }

  /** Printing the generated descriptor gives the shipped program back, for all arguments. */
  lemma ShippedReproducesItself(a: Args, m: Region)
    ensures DescriptorProgram(Generated(a, m)) == MKDESCRIPTOR
  {
    ShippedWritten();
    DescriptorTiles();
    SelfReproduction(DESCRIPTOR_LAYOUT, MKDESCRIPTOR, a, m);
  }

  /** Print the struct for one pair of arguments, run the print on another: the struct for the other. */
  lemma PrintedGeneratorGenerates(a: Args, m: Region, a': Args, m': Region)
    ensures Rebuilt(Generated(a, m), a', m') == Generated(a', m')
  {
    ShippedReproducesItself(a, m);
  }

  /** The members the emitter derives read what the arguments say. */
  lemma GeneratedMatches(a: Args, m: Region)
    ensures Matches(Generated(a, m), a)
  {
    PrintedGeneratorGenerates(a, m, a, m);
    RebuiltExactly(Generated(a, m), a, m);
  }

  // ----- the constants it returns -----

  /** A shipped constant is what the member reads, bit for bit. */
  lemma GeneratedReads(a: Args, m: Region, f: Field, v: nat, digits: nat)
    requires Assign(f, Hex(v, digits)) in MKDESCRIPTOR && v < Pow2(f.width)
    ensures f.In(m) && Get(Generated(a, m), f) == v
    ensures forall k :: f.off <= k < f.End() ==> Generated(a, m)[k] == BitOf(v, k - f.off)
  {
    ShippedTiled();
    RunAssigns(MKDESCRIPTOR, a, m, f, Hex(v, digits));
    ConstantIs(v, digits);
    SmallMod(v, Pow2(f.width));
    GetIs(Generated(a, m), f, v);
  }

  lemma RegionLines()
    ensures Assign(Base(FLREG0), Hex(0, 4)) in MKDESCRIPTOR && Assign(Limit(FLREG0), Hex(0, 4)) in MKDESCRIPTOR
    ensures Assign(Base(FLREG2), Hex(0x1FFF, 4)) in MKDESCRIPTOR && Assign(Limit(FLREG2), Hex(0, 4)) in MKDESCRIPTOR
    ensures Assign(Base(FLREG4), Hex(0x1FFF, 4)) in MKDESCRIPTOR && Assign(Limit(FLREG4), Hex(0, 4)) in MKDESCRIPTOR
  {
    assert FLREG0_LINES[0] in REGIONS_LINES && FLREG0_LINES[2] in REGIONS_LINES;
    assert FLREG2_LINES[0] in REGIONS_LINES && FLREG2_LINES[2] in REGIONS_LINES;
    assert FLREG4_LINES[0] in REGIONS_LINES && FLREG4_LINES[2] in REGIONS_LINES;
    InShipped();
  }

  lemma InShipped()
    ensures forall s :: s in HEAD_LINES || s in REGIONS_LINES || s in MASTERS_LINES ==> s in MKDESCRIPTOR
    ensures forall s :: s in ICHSTRAP0_LINES || s in MCHSTRAP0_LINES || s in MAP2_LINES || s in OEM_LINES
              ==> s in MKDESCRIPTOR
  {
    FrontShipped();
    StrapsAndTailShipped();
  }

  lemma FrontShipped()
    ensures forall s :: s in HEAD_LINES || s in REGIONS_LINES || s in MASTERS_LINES ==> s in MKDESCRIPTOR
  {
    InFront();
  }

  lemma StrapsAndTailShipped()
    ensures forall s :: s in ICHSTRAP0_LINES || s in MCHSTRAP0_LINES || s in MAP2_LINES || s in OEM_LINES
              ==> s in MKDESCRIPTOR
  {
  }

  lemma InFront()
    ensures forall s :: s in HEAD_LINES || s in REGIONS_LINES || s in MASTERS_LINES ==> s in FRONT_LINES
  {
  }

  lemma RestInShipped()
    ensures forall s :: s in ICHSTRAP1_LINES || s in VSCC_TABLE_LINES ==> s in MKDESCRIPTOR
  {
  }

  lemma AccessLines(i: nat)
    requires i < 5
    ensures Assign(ReadAccess(FLMSTR1, i), Hex(1, 1)) in MKDESCRIPTOR
    ensures Assign(WriteAccess(FLMSTR1, i), Hex(1, 1)) in MKDESCRIPTOR
    ensures Assign(ReadAccess(FLMSTR2, i), Hex(0, 1)) in MKDESCRIPTOR
    ensures Assign(WriteAccess(FLMSTR2, i), Hex(0, 1)) in MKDESCRIPTOR
  {
    assert FLMSTR1_LINES[1 + i] == Assign(ReadAccess(FLMSTR1, i), Hex(1, 1));
    assert FLMSTR1_LINES[7 + i] == Assign(WriteAccess(FLMSTR1, i), Hex(1, 1));
    assert FLMSTR2_LINES[1 + i] == Assign(ReadAccess(FLMSTR2, i), Hex(0, 1));
    assert FLMSTR2_LINES[7 + i] == Assign(WriteAccess(FLMSTR2, i), Hex(0, 1));
    assert forall s :: s in FLMSTR1_LINES || s in FLMSTR2_LINES ==> s in MASTERS_LINES;
    InShipped();
  }

  lemma StrapLines()
    ensures Assign(ICH_ME_DISABLE, Hex(1, 1)) in MKDESCRIPTOR
    ensures Assign(MCH_ME_DISABLE, Hex(1, 1)) in MKDESCRIPTOR
    ensures Assign(TPM_DISABLE, Hex(1, 1)) in MKDESCRIPTOR
  {
    assert ICHSTRAP0_LINES[0] == Assign(ICH_ME_DISABLE, Hex(1, 1));
    assert MCHSTRAP0_LINES[0] == Assign(MCH_ME_DISABLE, Hex(1, 1));
    assert MCHSTRAP0_LINES[2] == Assign(TPM_DISABLE, Hex(1, 1));
    InShipped();
  }

  lemma OemLines(i: nat)
    requires i < 8
    ensures Assign(OemByte(i), Hex(LIBERATE[i], 2)) in MKDESCRIPTOR
  {
    assert OEM_LINES[i] == Assign(OemByte(i), Hex(LIBERATE[i], 2));
    InShipped();
  }

  // ----- the generated descriptor is a fixed point of ich9deblob -----

  lemma GeneratedDefinesGbe(a: Args, m: Region)
    ensures DefinesGbe(Generated(a, m)) == (a.hasGbe != 0)
  {
    GeneratedMatches(a, m);
  }

  /** The bits of member f of g are those of v. */
  predicate Shows(g: Region, f: Field, v: nat) {
    f.In(g) && forall k :: f.off <= k < f.End() ==> g[k] == BitOf(v, k - f.off)
  }

  /** Every touched bit outside the derived members, taken member by member. */
  predicate ShowsConstants(g: Region) {
    && Shows(g, Base(FLREG2), 0x1FFF) && Shows(g, Limit(FLREG2), 0)
    && Shows(g, Base(FLREG4), 0x1FFF) && Shows(g, Limit(FLREG4), 0)
    && Shows(g, ICH_ME_DISABLE, 1) && Shows(g, MCH_ME_DISABLE, 1) && Shows(g, TPM_DISABLE, 1)
    && (forall i :: 0 <= i < 5 ==> Shows(g, ReadAccess(FLMSTR1, i), 1) && Shows(g, WriteAccess(FLMSTR1, i), 1))
    && (forall i :: 0 <= i < 5 ==> Shows(g, ReadAccess(FLMSTR2, i), 0) && Shows(g, WriteAccess(FLMSTR2, i), 0))
    && forall i :: 0 <= i < 8 ==> Shows(g, OemByte(i), LIBERATE[i])
  }

  lemma GeneratedShows(a: Args, m: Region, f: Field, v: nat, digits: nat)
    requires Assign(f, Hex(v, digits)) in MKDESCRIPTOR && v < Pow2(f.width)
    ensures Shows(Generated(a, m), f, v)
  {
    GeneratedReads(a, m, f, v, digits);
  }

  lemma GeneratedShowsConstants(a: Args, m: Region)
    ensures ShowsConstants(Generated(a, m))
  {
    RegionsShown(a, m);
    StrapsShown(a, m);
    forall i | 0 <= i < 5
      ensures Shows(Generated(a, m), ReadAccess(FLMSTR1, i), 1) && Shows(Generated(a, m), WriteAccess(FLMSTR1, i), 1)
      ensures Shows(Generated(a, m), ReadAccess(FLMSTR2, i), 0) && Shows(Generated(a, m), WriteAccess(FLMSTR2, i), 0)
    {
      AccessShown(a, m, i);
    }
    forall i | 0 <= i < 8
      ensures Shows(Generated(a, m), OemByte(i), LIBERATE[i])
    {
      OemShown(a, m, i);
    }
  }

  lemma RegionsShown(a: Args, m: Region)
    ensures var g := Generated(a, m);
            && Shows(g, Base(FLREG2), 0x1FFF) && Shows(g, Limit(FLREG2), 0)
            && Shows(g, Base(FLREG4), 0x1FFF) && Shows(g, Limit(FLREG4), 0)
  {
    RegionLines();
    assert 0x1FFF < Pow2(13) by { Pow2Values(); }
    GeneratedShows(a, m, Base(FLREG2), 0x1FFF, 4);
    GeneratedShows(a, m, Limit(FLREG2), 0, 4);
    GeneratedShows(a, m, Base(FLREG4), 0x1FFF, 4);
    GeneratedShows(a, m, Limit(FLREG4), 0, 4);
  }

  lemma StrapsShown(a: Args, m: Region)
    ensures var g := Generated(a, m);
            Shows(g, ICH_ME_DISABLE, 1) && Shows(g, MCH_ME_DISABLE, 1) && Shows(g, TPM_DISABLE, 1)
  {
    StrapLines();
    assert 1 < Pow2(1) by { Pow2Values(); }
    GeneratedShows(a, m, ICH_ME_DISABLE, 1, 1);
    GeneratedShows(a, m, MCH_ME_DISABLE, 1, 1);
    GeneratedShows(a, m, TPM_DISABLE, 1, 1);
  }

  lemma AccessShown(a: Args, m: Region, i: nat)
    requires i < 5
    ensures var g := Generated(a, m);
            && Shows(g, ReadAccess(FLMSTR1, i), 1) && Shows(g, WriteAccess(FLMSTR1, i), 1)
            && Shows(g, ReadAccess(FLMSTR2, i), 0) && Shows(g, WriteAccess(FLMSTR2, i), 0)
  {
    AccessLines(i);
    assert 1 < Pow2(1) by { Pow2Values(); }
    GeneratedShows(a, m, ReadAccess(FLMSTR1, i), 1, 1);
    GeneratedShows(a, m, WriteAccess(FLMSTR1, i), 1, 1);
    GeneratedShows(a, m, ReadAccess(FLMSTR2, i), 0, 1);
    GeneratedShows(a, m, WriteAccess(FLMSTR2, i), 0, 1);
  }

  lemma OemFits(i: nat, v: nat)
    requires i < 8 && v == LIBERATE[i]
    ensures v < Pow2(OemByte(i).width)
  {
    assert Pow2(8) == 0x100 by { Pow2Values(); }
  }

  lemma OemShown(a: Args, m: Region, i: nat)
    requires i < 8
    ensures Shows(Generated(a, m), OemByte(i), LIBERATE[i])
  {
    var v := LIBERATE[i];
    OemLines(i);
    OemFits(i, v);
    GeneratedShows(a, m, OemByte(i), v, 2);
  }

  lemma RegionBitsAtTarget(g: Region, romSize: nat, gbe: bool, k: nat)
    requires ShowsConstants(g) && (InRegister(FLREG2, k) || InRegister(FLREG4, k))
    ensures g[k] == Target(romSize, gbe, k)
  {
  }

  lemma AccessBitsAtTarget(g: Region, romSize: nat, gbe: bool, k: nat)
    requires ShowsConstants(g) && (AccessBit(FLMSTR1, k) || AccessBit(FLMSTR2, k))
    ensures g[k] == Target(romSize, gbe, k)
  {
    var reg := if AccessBit(FLMSTR1, k) then FLMSTR1 else FLMSTR2;
    var read := k < 8 * reg + 24;
    var i := if read then k - (8 * reg + 16) else k - (8 * reg + 24);
    var f := if read then ReadAccess(reg, i) else WriteAccess(reg, i);
    OneBit(true);
    assert Shows(g, f, if reg == FLMSTR1 then 1 else 0);
    assert f.off == k;
  }

  lemma StrapBitsAtTarget(g: Region, romSize: nat, gbe: bool, k: nat)
    requires ShowsConstants(g)
    requires ICH_ME_DISABLE.Covers(k) || MCH_ME_DISABLE.Covers(k) || TPM_DISABLE.Covers(k)
    ensures g[k] == Target(romSize, gbe, k)
  {
    OneBit(true);
  }

  lemma OemBitsAtTarget(g: Region, romSize: nat, gbe: bool, k: nat)
    requires ShowsConstants(g) && OEM_STRING.Covers(k)
    ensures g[k] == Target(romSize, gbe, k)
  {
    var i := (k - OEM_STRING.off) / 8;
    assert Shows(g, OemByte(i), LIBERATE[i]);
    assert OemByte(i).Covers(k) && k - OemByte(i).off == (k - OEM_STRING.off) % 8;
  }

  /** The bits of the members the emitter derives: they are right because the struct matches its arguments. */
  lemma DerivedBitsAtTarget(g: Region, a: Args, k: nat)
    requires Matches(g, a) && GbeAndBiosBit(k)
    ensures g[k] == Target(a.romSize, a.hasGbe != 0, k)
  {
    var gbe := a.hasGbe != 0;
    ImageSmallMembers(g, a.romSize, gbe);
    ImageRegion(g, a.romSize, gbe, FLREG1, if gbe then 3 else 1, LastPage(a.romSize));
    ImageRegion(g, a.romSize, gbe, FLREG3, if gbe then 1 else 0x1FFF, if gbe then 2 else 0);
    SameMembers(g, Image(g, a.romSize, gbe));
    assert Image(g, a.romSize, gbe)[k] == Target(a.romSize, gbe, k);
  }

  lemma SameMembers(g: Region, e: Region)
    requires Get(g, NR) == Get(e, NR) && Get(g, INTEGRATED_GBE) == Get(e, INTEGRATED_GBE)
    requires Get(g, LAN_PHY) == Get(e, LAN_PHY)
    requires Get(g, Base(FLREG1)) == Get(e, Base(FLREG1)) && Get(g, Limit(FLREG1)) == Get(e, Limit(FLREG1))
    requires Get(g, Base(FLREG3)) == Get(e, Base(FLREG3)) && Get(g, Limit(FLREG3)) == Get(e, Limit(FLREG3))
    ensures forall k :: 0 <= k < 0x8000 && GbeAndBiosBit(k) ==> g[k] == e[k]
  {
    GetSame(g, e, NR);
    GetSame(g, e, INTEGRATED_GBE);
    GetSame(g, e, LAN_PHY);
    GetSame(g, e, Base(FLREG1));
    GetSame(g, e, Limit(FLREG1));
    GetSame(g, e, Base(FLREG3));
    GetSame(g, e, Limit(FLREG3));
  }

  /**
    Two code paths agree: whatever its arguments, the descriptor ich9gen generates is one that
    ich9deblob, run on an image of that size, leaves exactly as it is.
    */
  lemma GeneratedIsFixedPoint(a: Args, m: Region)
    ensures Deblobbed(Generated(a, m), a.romSize) == Generated(a, m)
  {
    GeneratedMatches(a, m);
    GeneratedShowsConstants(a, m);
    MatchingIsFixed(Generated(a, m), a);
  }

  lemma MatchingIsFixed(g: Region, a: Args)
    requires Matches(g, a) && ShowsConstants(g)
    ensures Deblobbed(g, a.romSize) == g
  {
    assert DefinesGbe(g) == (a.hasGbe != 0);
    forall k | 0 <= k < 0x8000 && Touched(k)
      ensures g[k] == Target(a.romSize, a.hasGbe != 0, k)
    {
      if GbeAndBiosBit(k) {
        DerivedBitsAtTarget(g, a, k);
      } else if OEM_STRING.Covers(k) {
        OemBitsAtTarget(g, a.romSize, a.hasGbe != 0, k);
      } else if AccessBit(FLMSTR1, k) || AccessBit(FLMSTR2, k) {
        AccessBitsAtTarget(g, a.romSize, a.hasGbe != 0, k);
      } else if InRegister(FLREG2, k) || InRegister(FLREG4, k) {
        RegionBitsAtTarget(g, a.romSize, a.hasGbe != 0, k);
      } else {
        StrapBitsAtTarget(g, a.romSize, a.hasGbe != 0, k);
      }
    }
    FixedPoint(g, a.romSize);
  }

  /** The generated regions partition an image as well as FLREG0 = [0, 0] allows: whole pages up to 32 MiB. */
  lemma GeneratedPartitions(a: Args, m: Region)
    requires a.romSize < U32
    ensures Partitions(Generated(a, m), a.romSize) <==>
              || a.romSize < PAGE
              || (a.romSize <= MAX_ROM && a.romSize % PAGE == 0)
              || (a.hasGbe != 0 && a.romSize < 3 * PAGE)
  {
    RegionLines();
    GeneratedReads(a, m, Base(FLREG0), 0, 4);
    GeneratedReads(a, m, Limit(FLREG0), 0, 4);
    GeneratedIsFixedPoint(a, m);
    GeneratedDefinesGbe(a, m);
    FixedPartitions(Generated(a, m), a.romSize);
  }

  // ----- the section pointers -----

  lemma PointerLines()
    ensures Assign(FCBA, Hex(0x01, 2)) in MKDESCRIPTOR && Assign(FRBA, Hex(0x04, 2)) in MKDESCRIPTOR
    ensures Assign(FMBA, Hex(0x06, 2)) in MKDESCRIPTOR && Assign(FISBA, Hex(0x10, 2)) in MKDESCRIPTOR
    ensures Assign(FMSBA, Hex(0x20, 2)) in MKDESCRIPTOR && Assign(VSCC_BASE, Hex(0xEE, 2)) in MKDESCRIPTOR
  {
    assert FLMAP0_LINES[0] in HEAD_LINES && FLMAP0_LINES[3] in HEAD_LINES;
    assert FLMAP1_LINES[0] in HEAD_LINES && FLMAP1_LINES[3] in HEAD_LINES && FLMAP2_LINES[0] in HEAD_LINES;
    assert MAP2_LINES[0] == Assign(VSCC_BASE, Hex(0xEE, 2));
    InShipped();
  }

  /** Each generated pointer, in units of 16 bytes, is the address where the layout has that section. */
  lemma PointersReachSections(a: Args, m: Region)
    ensures 8 * 16 * Get(Generated(a, m), FCBA) == DENSITY1.off
    ensures 8 * 16 * Get(Generated(a, m), FRBA) == Base(FLREG0).off
    ensures 8 * 16 * Get(Generated(a, m), FMBA) == MasterSlots(FLMSTR1)[0].f.off
    ensures 8 * 16 * Get(Generated(a, m), FISBA) == ICHSTRAP0_SLOTS[0].f.off
    ensures 8 * 16 * Get(Generated(a, m), FMSBA) == MCHSTRAP0_SLOTS[0].f.off
    ensures 8 * 16 * Get(Generated(a, m), VSCC_BASE) == VSCC_TABLE_SLOTS[0].f.off
  {
    PointerLines();
    assert Pow2(8) == 0x100 by { Pow2Values(); }
    GeneratedReads(a, m, FCBA, 0x01, 2);
    GeneratedReads(a, m, FRBA, 0x04, 2);
    GeneratedReads(a, m, FMBA, 0x06, 2);
    GeneratedReads(a, m, FISBA, 0x10, 2);
    GeneratedReads(a, m, FMSBA, 0x20, 2);
    GeneratedReads(a, m, VSCC_BASE, 0xEE, 2);
  }
}
