/**
  The region registers as a map of the ROM: which regions own which byte.  ich9deblob means to leave a
  descriptor, perhaps a GbE region, and a BIOS region that together fill the image.
  */
module FlashRegions {
  import opened Words
  import opened Memory
  import opened DescriptorLayout
  import opened Descriptor
  import opened DescriptorTheorems

  const PAGE: nat := 0x1000
  const MAX_ROM: nat := 0x200_0000

  /** A region owns the pages BASE to LIMIT; it is empty when BASE is above LIMIT. */
  predicate Owns(d: Region, flreg: nat, address: nat)
    requires flreg < 0x1000 - 4
  {
    Get(d, Base(flreg)) <= address / PAGE <= Get(d, Limit(flreg))
  }

  predicate Active(d: Region, flreg: nat)
    requires flreg < 0x1000 - 4
  {
    Get(d, Base(flreg)) <= Get(d, Limit(flreg))
  }

  /** In how many of the five regions a byte lies. */
  function Owners(d: Region, address: nat): nat {
    Bit(Owns(d, FLREG0, address)) + Bit(Owns(d, FLREG1, address)) + Bit(Owns(d, FLREG2, address))
    + Bit(Owns(d, FLREG3, address)) + Bit(Owns(d, FLREG4, address))
  }

  function ActiveRegions(d: Region): nat {
    Bit(Active(d, FLREG0)) + Bit(Active(d, FLREG1)) + Bit(Active(d, FLREG2))
    + Bit(Active(d, FLREG3)) + Bit(Active(d, FLREG4))
  }

  /** Every byte of the ROM lies in exactly one region. */
  ghost predicate Partitions(d: Region, romSize: nat) {
    forall a: nat :: a < romSize ==> Owners(d, a) == 1
  }

  /** LIMIT of the BIOS region: the last whole page; below one page it wraps around to 0x1FFF. */
  lemma LastPageIs(romSize: nat)
    requires romSize < U32
    ensures PAGE <= romSize ==> LastPage(romSize) == romSize / PAGE - 1
    ensures LastPage(romSize) % 0x2000 == (romSize / PAGE + 0x1FFF) % 0x2000
  {
    assert Pow2(12) == PAGE by { Pow2Values(); }
    if PAGE <= romSize {
      SmallMod(romSize / PAGE - 1, U32);
    } else {
      assert romSize / PAGE == 0;
    }
  }

  /** The region registers of a descriptor, as numbers. */
  datatype Registers = Registers(first: nat, last: nat, gbe: bool, biosLast: nat)

  /** What the registers read after ich9deblob: FLREG0 as found, BIOS up to biosLast, ME and platform empty. */
  predicate Reads(e: Region, r: Registers) {
    && RegionReadsAs(e, FLREG0, r.first, r.last)
    && RegionReadsAs(e, FLREG1, if r.gbe then 3 else 1, r.biosLast)
    && RegionReadsAs(e, FLREG2, 0x1FFF, 0)
    && RegionReadsAs(e, FLREG3, if r.gbe then 1 else 0x1FFF, if r.gbe then 2 else 0)
    && RegionReadsAs(e, FLREG4, 0x1FFF, 0)
  }

  predicate RegionReadsAs(e: Region, flreg: nat, base: nat, limit: nat)
    requires flreg < 0x1000 - 4
  {
    Get(e, Base(flreg)) == base && Get(e, Limit(flreg)) == limit
  }

  function RegistersOf(d: Region, romSize: nat): Registers {
    Registers(Get(d, Base(FLREG0)), Get(d, Limit(FLREG0)), DefinesGbe(d), LastPage(romSize) % 0x2000)
  }

  lemma ImageReadsAs(d: Region, romSize: nat, gbe: bool)
    ensures Reads(Image(d, romSize, gbe),
                  Registers(Get(d, Base(FLREG0)), Get(d, Limit(FLREG0)), gbe, LastPage(romSize) % 0x2000))
  {
    ImageKeepsFirst(d, romSize, gbe);
    ImageReadsRegion(d, romSize, gbe, FLREG1, if gbe then 3 else 1, LastPage(romSize));
    ImageReadsRegion(d, romSize, gbe, FLREG2, 0x1FFF, 0);
    ImageReadsRegion(d, romSize, gbe, FLREG3, if gbe then 1 else 0x1FFF, if gbe then 2 else 0);
    ImageReadsRegion(d, romSize, gbe, FLREG4, 0x1FFF, 0);
  }

  lemma ImageKeepsFirst(d: Region, romSize: nat, gbe: bool)
    ensures RegionReadsAs(Image(d, romSize, gbe), FLREG0, Get(d, Base(FLREG0)), Get(d, Limit(FLREG0)))
  {
    ImageKeeps(d, romSize, gbe, Base(FLREG0));
    ImageKeeps(d, romSize, gbe, Limit(FLREG0));
  }

  lemma ImageReadsRegion(d: Region, romSize: nat, gbe: bool, flreg: nat, base: nat, limit: nat)
    requires RegionBecomes(romSize, gbe, flreg, base, limit)
    ensures RegionReadsAs(Image(d, romSize, gbe), flreg, base, limit % 0x2000)
  {
    ImageRegion(d, romSize, gbe, flreg, base, limit);
  }

  lemma DeblobbedReads(d: Region, romSize: nat)
    ensures Reads(Deblobbed(d, romSize), RegistersOf(d, romSize))
  {
    DeblobbedIsImage(d, romSize);
    ImageReadsAs(d, romSize, DefinesGbe(d));
  }

  lemma RegisterBound(d: Region, f: Field)
    requires f.In(d) && f.width == 13
    ensures Get(d, f) < 0x2000
  {
    GetBits(d, f);
    Pow2Values();
  }

  /** Owners of a page, from the register numbers alone. */
  function PageOwners(r: Registers, page: nat): nat {
    Bit(r.first <= page <= r.last) + Bit((if r.gbe then 3 else 1) <= page <= r.biosLast) + Bit(r.gbe && 1 <= page <= 2)
  }

  lemma OwnersByPage(e: Region, r: Registers, a: nat)
    requires Reads(e, r)
    ensures Owners(e, a) == PageOwners(r, a / PAGE)
  {
  }

  /**
    The condition on FLREG0 and the size.  It comes down to the last case, FLREG0 = [0, 0] and whole pages
    within the reach of a 13-bit LIMIT; images that end within the first pages get by with less.
    */
  predicate WellPlaced(first: nat, last: nat, gbe: bool, romSize: nat) {
    if romSize == 0 then true
    else if romSize <= PAGE then first == 0
    else if !gbe && romSize < 2 * PAGE then first == 0 && last >= 1
    else first == 0 && last == 0 && romSize <= MAX_ROM && (romSize % PAGE == 0 || (gbe && romSize < 3 * PAGE))
  }

  /**
    For any factory descriptor and any ROM size: the written descriptor gives every byte of the ROM to
    exactly one region if and only if FLREG0 and the size are well placed.
    */
  lemma PartitionExactly(d: Region, romSize: nat)
    requires romSize < U32
    ensures Partitions(Deblobbed(d, romSize), romSize)
       <==> WellPlaced(Get(d, Base(FLREG0)), Get(d, Limit(FLREG0)), DefinesGbe(d), romSize)
  {
    DeblobbedReads(d, romSize);
    LastPageIs(romSize);
    RegisterBound(d, Limit(FLREG0));
    PartitionByRegisters(Deblobbed(d, romSize), RegistersOf(d, romSize), romSize);
  }

  lemma PartitionByRegisters(e: Region, r: Registers, romSize: nat)
    requires Reads(e, r) && r.biosLast == (romSize / PAGE + 0x1FFF) % 0x2000 && r.last < 0x2000
    ensures Partitions(e, romSize) <==> WellPlaced(r.first, r.last, r.gbe, romSize)
  {
    if WellPlaced(r.first, r.last, r.gbe, romSize) {
      forall a: nat | a < romSize
        ensures Owners(e, a) == 1
      {
        OneOwner(r, romSize, a);
        OwnersByPage(e, r, a);
      }
    } else {
      var a := StrayByte(r, romSize);
      OwnersByPage(e, r, a);
      assert Owners(e, a) != 1;
    }
  }

  lemma OneOwner(r: Registers, romSize: nat, a: nat)
    requires WellPlaced(r.first, r.last, r.gbe, romSize) && a < romSize
    requires r.biosLast == (romSize / PAGE + 0x1FFF) % 0x2000
    ensures PageOwners(r, a / PAGE) == 1
  {
    PageBelow(a, romSize);
  }

  lemma PageBelow(a: nat, romSize: nat)
    requires a < romSize
    ensures romSize % PAGE == 0 ==> a / PAGE <= romSize / PAGE - 1
    ensures PAGE <= romSize <= MAX_ROM ==> (romSize / PAGE + 0x1FFF) % 0x2000 == romSize / PAGE - 1
    ensures romSize <= PAGE ==> a / PAGE == 0
    ensures romSize < 2 * PAGE ==> a / PAGE <= 1
    ensures romSize < 3 * PAGE ==> a / PAGE <= 2
  {
  }

  /** Otherwise some byte of the ROM has no region or two. */
  lemma StrayByte(r: Registers, romSize: nat) returns (a: nat)
    requires !WellPlaced(r.first, r.last, r.gbe, romSize)
    requires r.biosLast == (romSize / PAGE + 0x1FFF) % 0x2000 && r.last < 0x2000
    ensures a < romSize && PageOwners(r, a / PAGE) != 1
  {
    if romSize > MAX_ROM {
      a := MAX_ROM;
    } else if r.first != 0 {
      a := 0;
    } else {
      PageBelow(0, romSize);
      a := if !r.gbe && romSize < 2 * PAGE then PAGE else if r.last != 0 then PAGE else romSize - 1;
    }
  }

  lemma AtFirstPage(gbe: bool, romSize: nat)
    ensures WellPlaced(0, 0, gbe, romSize) <==>
              romSize < PAGE || (romSize <= MAX_ROM && romSize % PAGE == 0) || (gbe && romSize < 3 * PAGE)
  {
  }

  /** A descriptor that ich9deblob leaves alone, with FLREG0 = [0, 0]. */
  lemma FixedPartitions(g: Region, romSize: nat)
    requires romSize < U32 && Deblobbed(g, romSize) == g
    requires Get(g, Base(FLREG0)) == 0 && Get(g, Limit(FLREG0)) == 0
    ensures Partitions(g, romSize) <==>
              romSize < PAGE || (romSize <= MAX_ROM && romSize % PAGE == 0) || (DefinesGbe(g) && romSize < 3 * PAGE)
  {
    PartitionExactly(g, romSize);
    AtFirstPage(DefinesGbe(g), romSize);
  }

  /** NR, which counts from zero, is right. */
  predicate NumbersRegions(e: Region) { Get(e, NR) + 1 == ActiveRegions(e) }

  /** The first page of the BIOS region. */
  function BiosStart(gbe: bool): nat { if gbe then 3 else 1 }

  /**
    For any factory descriptor and any ROM size: NR counts the regions that are really there if and only
    if FLREG0 and the BIOS region are not empty.
    */
  lemma NumberOfRegions(d: Region, romSize: nat)
    ensures var r := RegistersOf(d, romSize);
            NumbersRegions(Deblobbed(d, romSize)) <==> r.first <= r.last && BiosStart(r.gbe) <= r.biosLast
  {
    DeblobbedReads(d, romSize);
    DeblobbedNr(d, romSize);
    ActiveByRegisters(Deblobbed(d, romSize), RegistersOf(d, romSize));
  }

  /** The BIOS region is empty for images that end before it; LIMIT wraps around at 32 MiB. */
  lemma BiosEmpty(d: Region, romSize: nat)
    requires romSize < U32
    ensures var r := RegistersOf(d, romSize);
            BiosStart(r.gbe) <= r.biosLast <==> !(1 <= romSize / PAGE % 0x2000 <= BiosStart(r.gbe))
  {
    LastPageIs(romSize);
    LimitBelow(romSize / PAGE);
  }

  lemma LimitBelow(pages: nat)
    ensures (pages + 0x1FFF) % 0x2000 == if pages % 0x2000 == 0 then 0x1FFF else pages % 0x2000 - 1
  {
  }

  lemma DeblobbedNr(d: Region, romSize: nat)
    ensures Get(Deblobbed(d, romSize), NR) == if DefinesGbe(d) then 2 else 1
  {
    DeblobbedIsImage(d, romSize);
    ImageSmallMembers(d, romSize, DefinesGbe(d));
  }

  lemma ActiveByRegisters(e: Region, r: Registers)
    requires Reads(e, r) && Get(e, NR) == if r.gbe then 2 else 1
    ensures NumbersRegions(e) <==> r.first <= r.last && BiosStart(r.gbe) <= r.biosLast
  {
  }
}
