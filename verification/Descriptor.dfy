/**
  The descriptor transformations of descriptor.c and the sequence ich9deblob applies.

  Each C function takes the struct by value, assigns members and returns it; here it is a method with
  the same assignments, proved to produce what a specification function says register by register.
  The specifications compose to Deblobbed, and Deblobbed is proved equal to Image, which says of every
  single bit of the 4 KiB whether it is kept or what it becomes.
  */
module Descriptor {
  import opened Words
  import opened Memory
  import opened DescriptorLayout

  // ----- specifications -----

  /** The ten access bits of a master register. */
  predicate AccessBit(flmstr: nat, k: nat) {
    8 * flmstr + 16 <= k < 8 * flmstr + 21 || 8 * flmstr + 24 <= k < 8 * flmstr + 29
  }

  function WithAccess(d: Region, flmstr: nat, granted: bool): Region {
    seq(0x8000, k requires 0 <= k < 0x8000 => if AccessBit(flmstr, k) then granted else d[k])
  }

  function WithRegion(d: Region, flreg: nat, base: nat, limit: nat): Region
    requires flreg < 0x1000 - 4
  {
    Put(Put(d, Base(flreg), base), Limit(flreg), limit)
  }

  function WithGbeStraps(d: Region, gbe: bool): Region {
    Put(Put(d, INTEGRATED_GBE, Bit(gbe)), LAN_PHY, Bit(gbe))
  }

  const LIBERATE: seq<nat> := [0x4C, 0x49, 0x42, 0x45, 0x52, 0x41, 0x54, 0x45]

  function WithOemString(d: Region): Region {
    seq(0x8000, k requires 0 <= k < 0x8000 =>
      if OEM_STRING.Covers(k) then BitOf(LIBERATE[(k - OEM_STRING.off) / 8], (k - OEM_STRING.off) % 8) else d[k])
  }

  function WithMeDisabled(d: Region): Region {
    Put(Put(d, ICH_ME_DISABLE, 1), MCH_ME_DISABLE, 1)
  }

  /** Last page of the BIOS region, before it is cut to 13 bits: unsigned, so it wraps below 4 KiB. */
  function LastPage(romSize: nat): nat { Sub32(Shr(romSize, FLREGIONBITSHIFT), 1) }

  /** The test ich9deblob repeats: does this descriptor define a GbE region? */
  predicate DefinesGbe(d: Region) {
    if (Get(d, Base(FLREG3)) == 0x1FFF || Get(d, Base(FLREG3)) == 0xFFF) && Get(d, Limit(FLREG3)) == 0 then false
    else if Get(d, INTEGRATED_GBE) == 0 || Get(d, LAN_PHY) == 0 then false
    else true
  }

  /** Number of regions (zero-based), GbE and BIOS placement, straps. */
  function WithGbeAndBios(d: Region, romSize: nat, gbe: bool): Region {
    var d1 := Put(d, NR, if gbe then 2 else 1);
    var d2 := if gbe then WithRegion(d1, FLREG3, 1, 2) else WithRegion(d1, FLREG3, 0x1FFF, 0);
    WithGbeStraps(WithRegion(d2, FLREG1, if gbe then 3 else 1, LastPage(romSize)), gbe)
  }

  /** No ME region, no platform region, ME and TPM disabled. */
  function WithoutMe(d: Region): Region {
    Put(WithMeDisabled(WithRegion(WithRegion(d, FLREG2, 0x1FFF, 0), FLREG4, 0x1FFF, 0)), TPM_DISABLE, 1)
  }

  function FromFactory(d: Region, romSize: nat): Region {
    WithoutMe(WithGbeAndBios(d, romSize, DefinesGbe(d)))
  }

  /** Access rights and OEM string. */
  function Unlocked(d: Region): Region {
    WithOemString(WithAccess(WithAccess(d, FLMSTR2, false), FLMSTR1, true))
  }

  /** Everything ich9deblob does to the descriptor of a ROM of romSize bytes. */
  function Deblobbed(d: Region, romSize: nat): Region {
    Unlocked(FromFactory(d, romSize))
  }

  // ----- the C functions -----

  method HostRegionsUnlocked(descriptor: Region) returns (d: Region)
    ensures d == WithAccess(descriptor, FLMSTR1, true)
  {
    d := descriptor;
    d := Put(d, ReadAccess(FLMSTR1, 0), 1);
    d := Put(d, ReadAccess(FLMSTR1, 1), 1);
    d := Put(d, ReadAccess(FLMSTR1, 2), 1);
    d := Put(d, ReadAccess(FLMSTR1, 3), 1);
    d := Put(d, ReadAccess(FLMSTR1, 4), 1);
    d := Put(d, WriteAccess(FLMSTR1, 0), 1);
    d := Put(d, WriteAccess(FLMSTR1, 1), 1);
    d := Put(d, WriteAccess(FLMSTR1, 2), 1);
    d := Put(d, WriteAccess(FLMSTR1, 3), 1);
    d := Put(d, WriteAccess(FLMSTR1, 4), 1);
  }

  method MeRegionsForbidden(descriptor: Region) returns (d: Region)
    ensures d == WithAccess(descriptor, FLMSTR2, false)
  {
    d := descriptor;
    d := Put(d, ReadAccess(FLMSTR2, 0), 0);
    d := Put(d, ReadAccess(FLMSTR2, 1), 0);
    d := Put(d, ReadAccess(FLMSTR2, 2), 0);
    d := Put(d, ReadAccess(FLMSTR2, 3), 0);
    d := Put(d, ReadAccess(FLMSTR2, 4), 0);
    d := Put(d, WriteAccess(FLMSTR2, 0), 0);
    d := Put(d, WriteAccess(FLMSTR2, 1), 0);
    d := Put(d, WriteAccess(FLMSTR2, 2), 0);
    d := Put(d, WriteAccess(FLMSTR2, 3), 0);
    d := Put(d, WriteAccess(FLMSTR2, 4), 0);
  }

  method OemString(descriptor: Region) returns (d: Region)
    ensures d == WithOemString(descriptor)
  {
    d := descriptor;
    d := Put(d, OemByte(0), 0x4C);
    d := Put(d, OemByte(1), 0x49);
    d := Put(d, OemByte(2), 0x42);
    d := Put(d, OemByte(3), 0x45);
    d := Put(d, OemByte(4), 0x52);
    d := Put(d, OemByte(5), 0x41);
    d := Put(d, OemByte(6), 0x54);
    d := Put(d, OemByte(7), 0x45);
    OemBytesAreTheString(descriptor, d);
  }

  lemma OemBytesAreTheString(d0: Region, d: Region)
    requires forall i, j :: 0 <= i < 8 && 0 <= j < 8 ==> d[OemByte(i).off + j] == BitOf(LIBERATE[i], j)
    requires forall k :: 0 <= k < 0x8000 && !OEM_STRING.Covers(k) ==> d[k] == d0[k]
    ensures d == WithOemString(d0)
  {
    forall k | 0 <= k < 0x8000
      ensures d[k] == WithOemString(d0)[k]
    {
      if OEM_STRING.Covers(k) {
        var i, j := (k - OEM_STRING.off) / 8, (k - OEM_STRING.off) % 8;
        assert k == OemByte(i).off + j;
      }
    }
  }

  method MeRegionRemoved(descriptor: Region) returns (d: Region)
    ensures d == WithRegion(descriptor, FLREG2, 0x1FFF, 0)
  {
    d := descriptor;
    d := Put(d, Base(FLREG2), 0x1FFF);
    d := Put(d, Limit(FLREG2), 0);
  }

  method PlatformRegionRemoved(descriptor: Region) returns (d: Region)
    ensures d == WithRegion(descriptor, FLREG4, 0x1FFF, 0)
  {
    d := descriptor;
    d := Put(d, Base(FLREG4), 0x1FFF);
    d := Put(d, Limit(FLREG4), 0);
  }

  method DisableMe(descriptor: Region) returns (d: Region)
    ensures d == WithMeDisabled(descriptor)
  {
    d := descriptor;
    d := Put(d, ICH_ME_DISABLE, 1);
    d := Put(d, MCH_ME_DISABLE, 1);
  }

  method DisableTpm(descriptor: Region) returns (d: Region)
    ensures d == Put(descriptor, TPM_DISABLE, 1)
  {
    d := Put(descriptor, TPM_DISABLE, 1);
  }

  lemma PageNumbers()
    ensures Shr(DESCRIPTORREGIONSIZE, FLREGIONBITSHIFT) == 1
    ensures Shr(GBEREGIONSIZE_8K, FLREGIONBITSHIFT) == 2
    ensures Shr(DESCRIPTORREGIONSIZE + GBEREGIONSIZE_8K, FLREGIONBITSHIFT) == 3
  {
    Pow2Values();
  }

  method MoveGbeToStart(descriptor: Region) returns (d: Region)
    ensures d == WithRegion(descriptor, FLREG3, 1, 2)
  {
    PageNumbers();
    d := descriptor;
    d := Put(d, Base(FLREG3), Shr(DESCRIPTORREGIONSIZE, FLREGIONBITSHIFT));
    d := Put(d, Limit(FLREG3), Shr(GBEREGIONSIZE_8K, FLREGIONBITSHIFT));
  }

  method GbeRegionRemoved(descriptor: Region) returns (d: Region)
    ensures d == WithRegion(descriptor, FLREG3, 0x1FFF, 0)
  {
    d := descriptor;
    d := Put(d, Base(FLREG3), 0x1FFF);
    d := Put(d, Limit(FLREG3), 0);
  }

  method BiosRegionFillImageAfterGbe(descriptor: Region, romSize: nat) returns (d: Region)
    ensures d == WithRegion(descriptor, FLREG1, 3, LastPage(romSize))
  {
    PageNumbers();
    d := descriptor;
    d := Put(d, Base(FLREG1), Shr(DESCRIPTORREGIONSIZE + GBEREGIONSIZE_8K, FLREGIONBITSHIFT));
    d := Put(d, Limit(FLREG1), Sub32(Shr(romSize, FLREGIONBITSHIFT), 1));
  }

  method BiosRegionFillImageAfterDescriptor(descriptor: Region, romSize: nat) returns (d: Region)
    ensures d == WithRegion(descriptor, FLREG1, 1, LastPage(romSize))
  {
    PageNumbers();
    d := descriptor;
    d := Put(d, Base(FLREG1), Shr(DESCRIPTORREGIONSIZE, FLREGIONBITSHIFT));
    d := Put(d, Limit(FLREG1), Sub32(Shr(romSize, FLREGIONBITSHIFT), 1));
  }

  /** NR, FLREG1, FLREG3 and the two GbE straps reach their targets for the answer of the test; no other bit moves. */
  method LibrebootSetGbeBiosRegions(descriptor: Region, romSize: nat) returns (d: Region)
    ensures forall k :: 0 <= k < 0x8000 ==>
              d[k] == if GbeAndBiosBit(k) then Target(romSize, DefinesGbe(descriptor), k) else descriptor[k]
    ensures d == WithGbeAndBios(descriptor, romSize, DefinesGbe(descriptor))
  {
    d := descriptor;
    if DefinesGbe(d) {
      d := Put(d, NR, 2);
      d := MoveGbeToStart(d);
      d := BiosRegionFillImageAfterGbe(d, romSize);
      d := Put(d, INTEGRATED_GBE, 1);
      d := Put(d, LAN_PHY, 1);
    } else {
      d := Put(d, NR, 1);
      d := GbeRegionRemoved(d);
      d := BiosRegionFillImageAfterDescriptor(d, romSize);
      d := Put(d, INTEGRATED_GBE, 0);
      d := Put(d, LAN_PHY, 0);
    }
    assert d == WithGbeAndBios(descriptor, romSize, DefinesGbe(descriptor));
    GbeAndBiosImage(descriptor, romSize, DefinesGbe(descriptor));
  }

  /** All of these and FLREG2, FLREG4 and the ME and TPM straps; no other bit moves. */
  method LibrebootStructFromFactory(descriptor: Region, romSize: nat) returns (d: Region)
    ensures forall k :: 0 <= k < 0x8000 ==>
              d[k] == if GbeAndBiosBit(k) || MeBit(k) then Target(romSize, DefinesGbe(descriptor), k) else descriptor[k]
    ensures d == FromFactory(descriptor, romSize)
  {
    d := LibrebootSetGbeBiosRegions(descriptor, romSize);
    d := MeRegionRemoved(d);
    d := PlatformRegionRemoved(d);
    d := DisableMe(d);
    d := DisableTpm(d);
    assert d == FromFactory(descriptor, romSize);
    FromFactoryImage(descriptor, romSize, DefinesGbe(descriptor));
  }

  // ----- the whole transformation, bit by bit -----

  /** The bits ich9deblob may change: all others, reserved ones included, are kept. */
  predicate Touched(k: nat) {
    || NR.Covers(k)
    || InRegister(FLREG1, k) || InRegister(FLREG2, k) || InRegister(FLREG3, k) || InRegister(FLREG4, k)
    || AccessBit(FLMSTR1, k) || AccessBit(FLMSTR2, k)
    || ICH_ME_DISABLE.Covers(k) || INTEGRATED_GBE.Covers(k) || LAN_PHY.Covers(k)
    || MCH_ME_DISABLE.Covers(k) || TPM_DISABLE.Covers(k)
    || OEM_STRING.Covers(k)
  }

  /** BASE or LIMIT of a region register; the six reserved bits are not included. */
  predicate InRegister(flreg: nat, k: nat) { Base(flreg).Covers(k) || Limit(flreg).Covers(k) }

  function Region13(flreg: nat, base: nat, limit: nat, k: nat): bool
    requires InRegister(flreg, k)
  {
    if Base(flreg).Covers(k) then BitOf(base, k - Base(flreg).off) else BitOf(limit, k - Limit(flreg).off)
  }

  /** What a touched bit becomes; it depends on the ROM size and on GbE only. */
  function Target(romSize: nat, gbe: bool, k: nat): bool
    requires Touched(k)
  {
    if NR.Covers(k) then BitOf(if gbe then 2 else 1, k - NR.off)
    else if InRegister(FLREG1, k) then Region13(FLREG1, if gbe then 3 else 1, LastPage(romSize), k)
    else if InRegister(FLREG2, k) then Region13(FLREG2, 0x1FFF, 0, k)
    else if InRegister(FLREG3, k) then (if gbe then Region13(FLREG3, 1, 2, k) else Region13(FLREG3, 0x1FFF, 0, k))
    else if InRegister(FLREG4, k) then Region13(FLREG4, 0x1FFF, 0, k)
    else if AccessBit(FLMSTR1, k) then true
    else if AccessBit(FLMSTR2, k) then false
    else if INTEGRATED_GBE.Covers(k) || LAN_PHY.Covers(k) then gbe
    else if OEM_STRING.Covers(k) then BitOf(LIBERATE[(k - OEM_STRING.off) / 8], (k - OEM_STRING.off) % 8)
    else true
  }

  function Image(d: Region, romSize: nat, gbe: bool): Region {
    seq(0x8000, k requires 0 <= k < 0x8000 => if Touched(k) then Target(romSize, gbe, k) else d[k])
  }

  predicate GbeAndBiosBit(k: nat) {
    NR.Covers(k) || InRegister(FLREG1, k) || InRegister(FLREG3, k) || INTEGRATED_GBE.Covers(k) || LAN_PHY.Covers(k)
  }

  predicate MeBit(k: nat) {
    || InRegister(FLREG2, k) || InRegister(FLREG4, k)
    || ICH_ME_DISABLE.Covers(k) || MCH_ME_DISABLE.Covers(k) || TPM_DISABLE.Covers(k)
  }

  predicate UnlockBit(k: nat) {
    AccessBit(FLMSTR1, k) || AccessBit(FLMSTR2, k) || OEM_STRING.Covers(k)
  }

  lemma OneBit(b: bool)
    ensures BitOf(Bit(b), 0) == b && BitOf(1, 0) && !BitOf(0, 0)
  {
  }

  lemma GbeAndBiosBits(d: Region, romSize: nat, gbe: bool, k: nat)
    requires k < 0x8000
    ensures WithGbeAndBios(d, romSize, gbe)[k] == if GbeAndBiosBit(k) then Target(romSize, gbe, k) else d[k]
  {
    OneBit(gbe);
  }

  lemma WithoutMeBits(d: Region, romSize: nat, gbe: bool, k: nat)
    requires k < 0x8000
    ensures WithoutMe(d)[k] == if MeBit(k) then Target(romSize, gbe, k) else d[k]
  {
    OneBit(gbe);
  }

  lemma GbeAndBiosImage(d: Region, romSize: nat, gbe: bool)
    ensures forall k :: 0 <= k < 0x8000 ==>
              WithGbeAndBios(d, romSize, gbe)[k] == if GbeAndBiosBit(k) then Target(romSize, gbe, k) else d[k]
  {
    forall k | 0 <= k < 0x8000
      ensures WithGbeAndBios(d, romSize, gbe)[k] == if GbeAndBiosBit(k) then Target(romSize, gbe, k) else d[k]
    {
      GbeAndBiosBits(d, romSize, gbe, k);
    }
  }

  lemma FromFactoryImage(d: Region, romSize: nat, gbe: bool)
    ensures forall k :: 0 <= k < 0x8000 ==>
              WithoutMe(WithGbeAndBios(d, romSize, gbe))[k]
              == if GbeAndBiosBit(k) || MeBit(k) then Target(romSize, gbe, k) else d[k]
  {
    var d1 := WithGbeAndBios(d, romSize, gbe);
    forall k | 0 <= k < 0x8000
      ensures WithoutMe(d1)[k] == if GbeAndBiosBit(k) || MeBit(k) then Target(romSize, gbe, k) else d[k]
    {
      GbeAndBiosBits(d, romSize, gbe, k);
      WithoutMeBits(d1, romSize, gbe, k);
    }
  }

  lemma UnlockedBits(d: Region, romSize: nat, gbe: bool, k: nat)
    requires k < 0x8000
    ensures Unlocked(d)[k] == if UnlockBit(k) then Target(romSize, gbe, k) else d[k]
  {
  }

  /** The transformation is exactly Image: bit-exact frame and bit-exact result in one statement. */
  lemma DeblobbedIsImage(d: Region, romSize: nat)
    ensures Deblobbed(d, romSize) == Image(d, romSize, DefinesGbe(d))
  {
    ComposedBits(d, romSize, DefinesGbe(d));
  }

  lemma ComposedBits(d: Region, romSize: nat, gbe: bool)
    ensures Unlocked(WithoutMe(WithGbeAndBios(d, romSize, gbe))) == Image(d, romSize, gbe)
  {
    var d1 := WithGbeAndBios(d, romSize, gbe);
    var d2 := WithoutMe(d1);
    forall k | 0 <= k < 0x8000
      ensures Unlocked(d2)[k] == Image(d, romSize, gbe)[k]
    {
      GbeAndBiosBits(d, romSize, gbe, k);
      WithoutMeBits(d1, romSize, gbe, k);
      UnlockedBits(d2, romSize, gbe, k);
      assert Touched(k) <==> GbeAndBiosBit(k) || MeBit(k) || UnlockBit(k);
    }
  }
}
