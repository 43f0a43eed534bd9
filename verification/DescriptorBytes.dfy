/**
  What ich9deblob makes of each of the first 4096 bytes, in numbers: from the byte found there, the answer
  of the GbE test and the number of the last page.  This is the transformation once more, from the
  result's side, without the members, masks and steps by which it is computed.
  */
module DescriptorBytes {
  import opened Words
  import opened Memory
  import opened DescriptorLayout
  import opened Descriptor
  import opened DescriptorTheorems
  import opened DescriptorRegeneration
  import opened FlashRegions
  import opened Ich9Deblob
  import opened RomBytes

  /** Byte i of the written descriptor. */
  function NewByte(was: nat, i: nat, gbe: bool, lastPage: nat): nat {
    if i == 0x07 then was / 8 * 8 + (if gbe then 2 else 1)                    // NR
    else if i == 0x44 then (if gbe then 3 else 1)                             // BIOS: behind the descriptor and GbE
    else if i == 0x45 then was / 32 * 32
    else if i == 0x46 then lastPage % 256                                     //   to the end of the ROM
    else if i == 0x47 then was / 32 * 32 + lastPage / 256
    else if i == 0x48 || i == 0x50 then 0xFF                                  // ME and platform: 0x1FFF
    else if i == 0x49 || i == 0x51 then was / 32 * 32 + 31
    else if i == 0x4A || i == 0x52 then 0                                     //   to 0
    else if i == 0x4B || i == 0x53 then was / 32 * 32
    else if i == 0x4C then (if gbe then 1 else 0xFF)                          // GbE: pages 1 to 2, or none
    else if i == 0x4D then was / 32 * 32 + (if gbe then 0 else 31)
    else if i == 0x4E then (if gbe then 2 else 0)
    else if i == 0x4F then was / 32 * 32
    else if i == 0x62 || i == 0x63 then was / 32 * 32 + 31                    // host: read and write all
    else if i == 0x66 || i == 0x67 then was / 32 * 32                         // ME: read and write none
    else if i == 0x100 then was / 2 * 2 + 1                                   // ME disabled
    else if i == 0x102 then was / 32 * 32 + (if gbe then 24 else 0) + was % 8 // GbE straps
    else if i == 0x200 then was / 8 * 8 + 4 + was / 2 % 2 * 2 + 1             // TPM and ME disabled
    else if 0xF00 <= i < 0xF08 then "LIBERATE"[i - 0xF00] as int              // OEM string
    else was
  }

  /** The last page of a ROM, as a 13-bit number; it wraps around below 4 KiB and above 32 MiB. */
  function LastPageOf(size: nat): nat { (size % 0x1_0000_0000 / 0x1000 + 0x1FFF) % 0x2000 }

  // ----- bytes put together from members -----

  /** A byte whose lowest w bits are a member and whose other bits are kept. */
  lemma LowPart(d: Region, e: Region, i: nat, w: nat, v: nat)
    requires i < 0x1000 && w <= 8 && Get(e, Field(8 * i, w)) == v
    requires Get(e, Field(8 * i + w, 8 - w)) == Get(d, Field(8 * i + w, 8 - w))
    ensures ByteAt(e, i) == ByteAt(d, i) / Pow2(w) * Pow2(w) + v
  {
    var high := Get(d, Field(8 * i + w, 8 - w));
    GetJoined(e, 8 * i, w, 8 - w);
    GetJoined(d, 8 * i, w, 8 - w);
    GetBits(d, Field(8 * i, w));
    SameHigh(ByteAt(e, i), ByteAt(d, i), Pow2(w), v, Get(d, Field(8 * i, w)), high);
  }

  lemma SameHigh(x: nat, y: nat, p: nat, v: nat, low: nat, high: nat)
    requires x == v + p * high && y == low + p * high && low < p
    ensures x == y / p * p + v
  {
    Parts(y, p, low, high);
  }

  /** A 13-bit member and three kept bits above it. */
  lemma PageBytes(d: Region, e: Region, i: nat, v: nat)
    requires i + 1 < 0x1000 && Get(e, Field(8 * i, 13)) == v
    requires Get(e, Field(8 * i + 13, 3)) == Get(d, Field(8 * i + 13, 3))
    ensures ByteAt(e, i) == v % 256 && ByteAt(e, i + 1) == ByteAt(d, i + 1) / 32 * 32 + v / 256
  {
    assert Pow2(8) == 256 && Pow2(5) == 32 by { Pow2Values(); }
    GetJoined(e, 8 * i, 8, 5);
    LowPart(d, e, i + 1, 5, Get(e, Field(8 * i + 8, 5)));
    Parts(v, 256, ByteAt(e, i), Get(e, Field(8 * i + 8, 5)));
  }

  lemma KeptByte(d: Region, e: Region, i: nat)
    requires i < 0x1000 && forall k :: 8 * i <= k < 8 * i + 8 ==> e[k] == d[k]
    ensures ByteAt(e, i) == ByteAt(d, i)
  {
    GetSame(d, e, Field(8 * i, 8));
  }

  // ----- the registers -----

  lemma RegionRegister(d: Region, romSize: nat, gbe: bool, flreg: nat, base: nat, limit: nat)
    requires RegionBecomes(romSize, gbe, flreg, base, limit)
    ensures RegisterBytes(d, Image(d, romSize, gbe), flreg, base, limit % 0x2000)
  {
    var e := Image(d, romSize, gbe);
    ImageRegion(d, romSize, gbe, flreg, base, limit);
    RegionReserved(d, romSize, gbe, flreg);
    RegionRegisterIs(d, e, flreg, base, limit % 0x2000);
  }

  /** The four bytes of a region register, reserved bits kept. */
  predicate RegisterBytes(d: Region, e: Region, flreg: nat, base: nat, limit: nat)
    requires flreg < 0x1000 - 4
  {
    && ByteAt(e, flreg) == base % 256 && ByteAt(e, flreg + 1) == ByteAt(d, flreg + 1) / 32 * 32 + base / 256
    && ByteAt(e, flreg + 2) == limit % 256 && ByteAt(e, flreg + 3) == ByteAt(d, flreg + 3) / 32 * 32 + limit / 256
  }

  lemma RegionReserved(d: Region, romSize: nat, gbe: bool, flreg: nat)
    requires flreg == FLREG1 || flreg == FLREG2 || flreg == FLREG3 || flreg == FLREG4
    ensures Get(Image(d, romSize, gbe), Reg(flreg, 13, 3)) == Get(d, Reg(flreg, 13, 3))
    ensures Get(Image(d, romSize, gbe), Reg(flreg, 29, 3)) == Get(d, Reg(flreg, 29, 3))
  {
    ImageKeeps(d, romSize, gbe, Reg(flreg, 13, 3));
    ImageKeeps(d, romSize, gbe, Reg(flreg, 29, 3));
  }

  lemma RegionRegisterIs(d: Region, e: Region, flreg: nat, base: nat, limit: nat)
    requires flreg < 0x1000 - 4 && Get(e, Base(flreg)) == base && Get(e, Limit(flreg)) == limit
    requires Get(e, Reg(flreg, 13, 3)) == Get(d, Reg(flreg, 13, 3))
    requires Get(e, Reg(flreg, 29, 3)) == Get(d, Reg(flreg, 29, 3))
    ensures RegisterBytes(d, e, flreg, base, limit)
  {
    PageBytes(d, e, flreg, base);
    PageBytes(d, e, flreg + 2, limit);
  }

  /** Access bits of one direction: all granted or all taken. */
  lemma AccessByte(d: Region, romSize: nat, gbe: bool, i: nat, v: nat)
    requires ((i == 0x62 || i == 0x63) && v == 31) || ((i == 0x66 || i == 0x67) && v == 0)
    ensures ByteAt(Image(d, romSize, gbe), i) == ByteAt(d, i) / 32 * 32 + v
  {
    assert Pow2(5) == 32 by { Pow2Values(); }
    AccessBits(d, romSize, gbe, i, v);
    FiveBits(Image(d, romSize, gbe), i, v);
    ImageKeeps(d, romSize, gbe, Field(8 * i + 5, 3));
    LowPart(d, Image(d, romSize, gbe), i, 5, v);
  }

  lemma AccessBits(d: Region, romSize: nat, gbe: bool, i: nat, v: nat)
    requires ((i == 0x62 || i == 0x63) && v == 31) || ((i == 0x66 || i == 0x67) && v == 0)
    ensures forall k :: 8 * i <= k < 8 * i + 5 ==> Image(d, romSize, gbe)[k] == (v == 31)
  {
  }

  lemma FiveBits(e: Region, i: nat, v: nat)
    requires i < 0x1000 && (v == 31 || v == 0)
    requires forall k :: 8 * i <= k < 8 * i + 5 ==> e[k] == (v == 31)
    ensures Get(e, Field(8 * i, 5)) == v
  {
    var f := Field(8 * i, 5);
    assert Pow2(5) == 32 by { Pow2Values(); }
    forall k | f.off <= k < f.End()
      ensures e[k] == BitOf(v, k - f.off)
    {
      Ones();
      HighBitsClear(0, 0, k - f.off);
    }
    ReadsFit(e, f, v);
  }

  lemma NrByte(d: Region, romSize: nat, gbe: bool)
    ensures ByteAt(Image(d, romSize, gbe), 7) == ByteAt(d, 7) / 8 * 8 + if gbe then 2 else 1
  {
    var e := Image(d, romSize, gbe);
    assert Pow2(3) == 8 by { Pow2Values(); }
    ImageSmallMembers(d, romSize, gbe);
    ImageKeeps(d, romSize, gbe, Field(59, 5));
    LowPart(d, e, 7, 3, Get(e, NR));
  }

  lemma SetBit(d: Region, romSize: nat, gbe: bool, f: Field)
    requires f == ICH_ME_DISABLE || f == MCH_ME_DISABLE || f == TPM_DISABLE
    ensures Get(Image(d, romSize, gbe), f) == 1
  {
    assert 1 < Pow2(1) by { Pow2Values(); }
    OneBit(true);
    ReadsFit(Image(d, romSize, gbe), f, 1);
  }

  lemma IchByte(d: Region, romSize: nat, gbe: bool)
    ensures ByteAt(Image(d, romSize, gbe), 0x100) == ByteAt(d, 0x100) / 2 * 2 + 1
  {
    var e := Image(d, romSize, gbe);
    assert Pow2(1) == 2 by { Pow2Values(); }
    SetBit(d, romSize, gbe, ICH_ME_DISABLE);
    ImageKeeps(d, romSize, gbe, Field(0x801, 7));
    LowPart(d, e, 0x100, 1, 1);
  }

  lemma MchByte(d: Region, romSize: nat, gbe: bool)
    ensures ByteAt(Image(d, romSize, gbe), 0x200) == ByteAt(d, 0x200) / 8 * 8 + 4 + ByteAt(d, 0x200) / 2 % 2 * 2 + 1
  {
    SetBit(d, romSize, gbe, MCH_ME_DISABLE);
    SetBit(d, romSize, gbe, TPM_DISABLE);
    ImageKeeps(d, romSize, gbe, Field(0x1001, 1));
    ImageKeeps(d, romSize, gbe, Field(0x1003, 5));
    MchByteIs(d, Image(d, romSize, gbe));
  }

  lemma MchByteIs(d: Region, e: Region)
    requires Get(e, Field(0x1000, 1)) == 1 && Get(e, Field(0x1002, 1)) == 1
    requires Get(e, Field(0x1001, 1)) == Get(d, Field(0x1001, 1))
    requires Get(e, Field(0x1003, 5)) == Get(d, Field(0x1003, 5))
    ensures ByteAt(e, 0x200) == ByteAt(d, 0x200) / 8 * 8 + 4 + ByteAt(d, 0x200) / 2 % 2 * 2 + 1
  {
    assert Pow2(1) == 2 && Pow2(2) == 4 && Pow2(3) == 8 by { Pow2Values(); }
    BytePart(d, 0x200, 1, 1);
    GetJoined(e, 0x1000, 1, 2);
    GetJoined(e, 0x1001, 1, 1);
    LowPart(d, e, 0x200, 3, Get(e, Field(0x1000, 3)));
  }

  lemma StrapByte(d: Region, romSize: nat, gbe: bool)
    ensures ByteAt(Image(d, romSize, gbe), 0x102)
         == ByteAt(d, 0x102) / 32 * 32 + (if gbe then 24 else 0) + ByteAt(d, 0x102) % 8
  {
    ImageSmallMembers(d, romSize, gbe);
    ImageKeeps(d, romSize, gbe, Field(0x810, 3));
    ImageKeeps(d, romSize, gbe, Field(0x815, 3));
    StrapByteIs(d, Image(d, romSize, gbe), Bit(gbe));
  }

  lemma StrapByteIs(d: Region, e: Region, strap: nat)
    requires Get(e, Field(0x813, 1)) == strap && Get(e, Field(0x814, 1)) == strap
    requires Get(e, Field(0x810, 3)) == Get(d, Field(0x810, 3)) && Get(e, Field(0x815, 3)) == Get(d, Field(0x815, 3))
    ensures ByteAt(e, 0x102) == ByteAt(d, 0x102) / 32 * 32 + 24 * strap + ByteAt(d, 0x102) % 8
  {
    assert Pow2(0) == 1 && Pow2(1) == 2 && Pow2(3) == 8 && Pow2(5) == 32 by { Pow2Values(); }
    BytePart(d, 0x102, 0, 3);
    GetJoined(e, 0x810, 3, 2);
    GetJoined(e, 0x813, 1, 1);
    LowPart(d, e, 0x102, 5, Get(e, Field(0x810, 5)));
  }

  lemma OemByteIs(d: Region, romSize: nat, gbe: bool, i: nat)
    requires 0xF00 <= i < 0xF08
    ensures ByteAt(Image(d, romSize, gbe), i) == "LIBERATE"[i - 0xF00] as int
  {
    var e, f := Image(d, romSize, gbe), Field(8 * i, 8);
    forall k | f.off <= k < f.End()
      ensures e[k] == BitOf(LIBERATE[i - 0xF00], k - f.off)
    {
    }
    assert Pow2(8) == 256 by { Pow2Values(); }
    ReadsFit(e, f, LIBERATE[i - 0xF00]);
  }

  /** The bytes with a touched bit. */
  predicate Changed(i: nat) {
    || i == 0x07 || 0x44 <= i < 0x54 || i == 0x62 || i == 0x63 || i == 0x66 || i == 0x67
    || i == 0x100 || i == 0x102 || i == 0x200 || 0xF00 <= i < 0xF08
  }

  lemma OtherByte(d: Region, romSize: nat, gbe: bool, i: nat)
    requires i < 0x1000 && !Changed(i)
    ensures ByteAt(Image(d, romSize, gbe), i) == ByteAt(d, i)
  {
    KeptByte(d, Image(d, romSize, gbe), i);
  }

  lemma RegionByte(d: Region, romSize: nat, gbe: bool, i: nat)
    requires 0x44 <= i < 0x54
    ensures ByteAt(Image(d, romSize, gbe), i) == NewByte(ByteAt(d, i), i, gbe, LastPage(romSize) % 0x2000)
  {
    var e, p := Image(d, romSize, gbe), LastPage(romSize) % 0x2000;
    if i < 0x48 {
      RegionRegister(d, romSize, gbe, FLREG1, if gbe then 3 else 1, LastPage(romSize));
      BiosByte(d, e, gbe, p, i);
    } else if i < 0x4C {
      RegionRegister(d, romSize, gbe, FLREG2, 0x1FFF, 0);
      EmptyByte(d, e, gbe, p, FLREG2, i);
    } else if i < 0x50 {
      RegionRegister(d, romSize, gbe, FLREG3, if gbe then 1 else 0x1FFF, if gbe then 2 else 0);
      GbeByte(d, e, gbe, p, i);
    } else {
      RegionRegister(d, romSize, gbe, FLREG4, 0x1FFF, 0);
      EmptyByte(d, e, gbe, p, FLREG4, i);
    }
  }

  lemma BiosByte(d: Region, e: Region, gbe: bool, p: nat, i: nat)
    requires 0x44 <= i < 0x48 && RegisterBytes(d, e, FLREG1, if gbe then 3 else 1, p)
    ensures ByteAt(e, i) == NewByte(ByteAt(d, i), i, gbe, p)
  {
  }

  lemma GbeByte(d: Region, e: Region, gbe: bool, p: nat, i: nat)
    requires 0x4C <= i < 0x50 && RegisterBytes(d, e, FLREG3, if gbe then 1 else 0x1FFF, if gbe then 2 else 0)
    ensures ByteAt(e, i) == NewByte(ByteAt(d, i), i, gbe, p)
  {
    assert i == 0x4C || i == 0x4D || i == 0x4E || i == 0x4F;
  }

  lemma EmptyByte(d: Region, e: Region, gbe: bool, p: nat, flreg: nat, i: nat)
    requires (flreg == FLREG2 || flreg == FLREG4) && flreg <= i < flreg + 4 && RegisterBytes(d, e, flreg, 0x1FFF, 0)
    ensures ByteAt(e, i) == NewByte(ByteAt(d, i), i, gbe, p)
  {
  }

  lemma ImageByte(d: Region, romSize: nat, gbe: bool, i: nat)
    requires i < 0x1000
    ensures ByteAt(Image(d, romSize, gbe), i) == NewByte(ByteAt(d, i), i, gbe, LastPage(romSize) % 0x2000)
  {
    if !Changed(i) {
      OtherByte(d, romSize, gbe, i);
    } else if 0x44 <= i < 0x54 {
      RegionByte(d, romSize, gbe, i);
    } else if i < 0xF00 {
      SmallByte(d, romSize, gbe, i, LastPage(romSize) % 0x2000);
    } else {
      OemByteIs(d, romSize, gbe, i);
    }
  }

  lemma SmallByte(d: Region, romSize: nat, gbe: bool, i: nat, p: nat)
    requires Changed(i) && !(0x44 <= i < 0x54) && i < 0xF00
    ensures ByteAt(Image(d, romSize, gbe), i) == NewByte(ByteAt(d, i), i, gbe, p)
  {
    if i == 0x07 {
      NrByte(d, romSize, gbe);
    } else if i < 0x100 {
      AccessByte(d, romSize, gbe, i, if i < 0x64 then 31 else 0);
    } else if i == 0x100 {
      IchByte(d, romSize, gbe);
    } else if i == 0x102 {
      StrapByte(d, romSize, gbe);
    } else {
      MchByte(d, romSize, gbe);
    }
  }

  // ----- the image -----

  /** Every byte of the descriptor in the image, from the byte of the ROM at the same address. */
  lemma ImageBytes(rom: seq<byte>)
    ensures DeblobRom(rom).Done? ==>
              && 0x1000 <= |rom| && 0x1000 <= |DeblobRom(rom).output.image|
              && forall i :: 0 <= i < 0x1000 ==>
                   DeblobRom(rom).output.image[i] == NewByte(rom[i], i, HasGbe(rom), LastPageOf(|rom|))
  {
    if DeblobRom(rom).Done? {
      var image := DeblobRom(rom).output.image;
      ImageDescriptor(rom);
      forall i | 0 <= i < 0x1000
        ensures image[i] == NewByte(rom[i], i, HasGbe(rom), LastPageOf(|rom|))
      {
        assert image[i] == image[..0x1000][i];
        WrittenByte(rom, i);
      }
    }
  }

  lemma WrittenByte(rom: seq<byte>, i: nat)
    requires 0x1000 <= |rom| && i < 0x1000
    ensures Bytes(Deblobbed(Overlay(rom[..0x1000]), RomSize(rom)))[i]
         == NewByte(rom[i], i, HasGbe(rom), LastPageOf(|rom|))
  {
    var d := Overlay(rom[..0x1000]);
    assert ByteAt(d, i) == rom[i] by { FoundByte(rom, i); }
    assert DefinesGbe(d) == HasGbe(rom) by { TestOnBytes(rom); }
    assert LastPage(RomSize(rom)) % 0x2000 == LastPageOf(|rom|) by { LastPageIs(RomSize(rom)); }
    DeblobbedByte(d, RomSize(rom), i);
  }

  lemma DeblobbedByte(d: Region, romSize: nat, i: nat)
    requires i < 0x1000
    ensures Bytes(Deblobbed(d, romSize))[i]
         == NewByte(ByteAt(d, i), i, DefinesGbe(d), LastPage(romSize) % 0x2000)
  {
    DeblobbedIsImage(d, romSize);
    ImageByte(d, romSize, DefinesGbe(d), i);
  }

  // ----- demefactory -----

  /** demefactory changes these six bytes, in the same way, and no other. */
  lemma DemedByte(d: Region, i: nat)
    requires i < 0x1000
    ensures ByteAt(Demed(d), i)
         == if i == 0x62 || i == 0x63 || i == 0x66 || i == 0x67 || i == 0x100 || i == 0x200
            then NewByte(ByteAt(d, i), i, false, 0) else ByteAt(d, i)
  {
    if i == 0x62 || i == 0x63 || i == 0x66 || i == 0x67 || i == 0x100 || i == 0x200 {
      DemedTouches(d, i);
      KeptByte(Image(d, 0, false), Demed(d), i);
      SmallByte(d, 0, false, i, 0);
    } else {
      DemedKeepsByte(d, i);
    }
  }

  lemma DemedKeepsByte(d: Region, i: nat)
    requires i < 0x1000 && i != 0x62 && i != 0x63 && i != 0x66 && i != 0x67 && i != 0x100 && i != 0x200
    ensures ByteAt(Demed(d), i) == ByteAt(d, i)
  {
    KeptByte(d, Demed(d), i);
  }

  lemma DemedTouches(d: Region, i: nat)
    requires i == 0x62 || i == 0x63 || i == 0x66 || i == 0x67 || i == 0x100 || i == 0x200
    ensures forall k :: 8 * i <= k < 8 * i + 8 ==> Demed(d)[k] == Image(d, 0, false)[k]
  {
    OneBit(true);
  }
}
