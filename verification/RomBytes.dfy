/**
  ich9deblob on the bytes of files: which outcome a ROM has, what every byte of the image is, and which
  byte of the ROM it comes from.  The statements name addresses, bytes and numbers only.
  */
module RomBytes {
  import opened Words
  import opened Memory
  import opened DescriptorLayout
  import opened Descriptor
  import opened Gbe
  import opened Ich9Deblob

  // ----- the descriptor found -----

  /** A 13-bit number in two bytes, and a 16-bit one. */
  function Thirteen(low: nat, high: nat): nat { low + 256 * (high % 32) }
  function Sixteen(low: nat, high: nat): nat { low + 256 * high }

  /** BASE and LIMIT of the GbE region. */
  function GbeBase(rom: seq<byte>): nat
    requires 0x1000 <= |rom|
  {
    Thirteen(rom[0x4C], rom[0x4D])
  }

  function GbeLimit(rom: seq<byte>): nat
    requires 0x1000 <= |rom|
  {
    Thirteen(rom[0x4E], rom[0x4F])
  }

  /** Both GbE straps set, and FLREG3 none of the two forms of an absent region. */
  predicate HasGbe(rom: seq<byte>)
    requires 0x1000 <= |rom|
  {
    && rom[0x102] / 8 % 2 == 1 && rom[0x102] / 16 % 2 == 1
    && !((GbeBase(rom) == 0x1FFF || GbeBase(rom) == 0xFFF) && GbeLimit(rom) == 0)
  }

  /** A 13-bit number in two bytes. */
  lemma PageNumber(m: Bits, i: nat)
    requires 8 * i + 16 <= |m|
    ensures Get(m, Field(8 * i, 13)) == Thirteen(ByteAt(m, i), ByteAt(m, i + 1))
  {
    assert Pow2(8) == 256 && Pow2(5) == 32 && Pow2(0) == 1 by { Pow2Values(); }
    GetJoined(m, 8 * i, 8, 5);
    BytePart(m, i + 1, 0, 5);
  }

  lemma FoundByte(rom: seq<byte>, i: nat)
    requires 0x1000 <= |rom| && i < 0x1000
    ensures ByteAt(Overlay(rom[..0x1000]), i) == rom[i]
  {
    ByteAtBits(rom[..0x1000], i);
  }

  lemma FoundRegion(rom: seq<byte>)
    requires 0x1000 <= |rom|
    ensures var d := Overlay(rom[..0x1000]);
            Get(d, Base(FLREG3)) == GbeBase(rom) && Get(d, Limit(FLREG3)) == GbeLimit(rom)
  {
    var d := Overlay(rom[..0x1000]);
    PageNumber(d, 0x4C);
    PageNumber(d, 0x4E);
    FoundByte(rom, 0x4C);
    FoundByte(rom, 0x4D);
    FoundByte(rom, 0x4E);
    FoundByte(rom, 0x4F);
  }

  lemma FoundStraps(rom: seq<byte>)
    requires 0x1000 <= |rom|
    ensures var d := Overlay(rom[..0x1000]);
            Get(d, INTEGRATED_GBE) == rom[0x102] / 8 % 2 && Get(d, LAN_PHY) == rom[0x102] / 16 % 2
  {
    var d := Overlay(rom[..0x1000]);
    assert Pow2(1) == 2 && Pow2(3) == 8 && Pow2(4) == 16 by { Pow2Values(); }
    BytePart(d, 0x102, 3, 1);
    BytePart(d, 0x102, 4, 1);
    FoundByte(rom, 0x102);
  }

  lemma TestOnBytes(rom: seq<byte>)
    requires 0x1000 <= |rom|
    ensures DefinesGbe(Overlay(rom[..0x1000])) == HasGbe(rom)
    ensures GbeStart(Overlay(rom[..0x1000])) == 0x1000 * GbeBase(rom)
  {
    FoundRegion(rom);
    FoundStraps(rom);
    assert Pow2(12) == 0x1000 by { Pow2Values(); }
  }

  // ----- the outcome -----

  /**
    The three outcomes of a run.  It fails for want of a descriptor below 4 KiB, and for want of the GbE
    region exactly if there is one and it does not lie in the ROM; otherwise it writes 12 KiB and two
    programs if there is a GbE region, and 4 KiB and one program if not.
    */
  lemma Outcome(rom: seq<byte>)
    ensures DeblobRom(rom) == Failed(ShortDescriptor) <==> |rom| < 0x1000
    ensures DeblobRom(rom) == Failed(ShortGbe) <==>
              && 0x1000 <= |rom|
              && HasGbe(rom) && |rom| < 0x1000 * GbeBase(rom) + 0x2000
    ensures DeblobRom(rom).Done? ==>
              && 0x1000 <= |rom|
              && |DeblobRom(rom).output.image| == (if HasGbe(rom) then 0x3000 else 0x1000)
              && DeblobRom(rom).output.recordProgram.Some? == HasGbe(rom)
  {
    if 0x1000 <= |rom| {
      TestOnBytes(rom);
    }
  }

  // ----- the GbE region of the image -----

  /** The sum of n little-endian words from an address. */
  function WordTotal(bytes: seq<byte>, at: nat, n: nat): nat
    requires at + 2 * n <= |bytes|
  {
    if n == 0 then 0
    else WordTotal(bytes, at, n - 1) + Sixteen(bytes[at + 2 * (n - 1)], bytes[at + 2 * (n - 1) + 1])
  }

  lemma {:induction false} TotalIsSum(bytes: seq<byte>, at: nat, m: Record, n: nat)
    requires at + 0x1000 <= |bytes| && n <= 0x40
    requires forall i :: 0 <= i < 0x1000 ==> bytes[at + i] == ByteAt(m, i)
    ensures WordTotal(bytes, at, n) == WordSum(m, 0, n)
  {
    if n > 0 {
      TotalIsSum(bytes, at, m, n - 1);
      WordBytes(m, n - 1);
    }
  }

  lemma WordBytes(m: Record, i: nat)
    requires i < 0x800
    ensures Get(m, Word(i)) == Sixteen(ByteAt(m, 2 * i), ByteAt(m, 2 * i + 1))
  {
    assert Pow2(8) == 256 by { Pow2Values(); }
    GetJoined(m, 16 * i, 8, 8);
  }

  /** Settings, padding and checksum of a repaired record, on bytes. */
  lemma RepairedBytes(g: Record)
    ensures forall i :: 0 <= i < 0x7E ==> ByteAt(Repaired(g), i) == ByteAt(g, i)
    ensures forall i :: 0x80 <= i < 0x1000 ==> ByteAt(Repaired(g), i) == 0xFF
    ensures WordSum(Repaired(g), 0, 0x40) % 0x1_0000 == 0xBABA
  {
    var r := Repaired(g);
    RepairedIs(g);
    forall i | 0 <= i < 0x7E
      ensures ByteAt(r, i) == ByteAt(g, i)
    {
      GetSame(r, g, Field(8 * i, 8));
    }
    forall i | 0x80 <= i < 0x1000
      ensures ByteAt(r, i) == 0xFF
    {
      FullByte(r, i);
    }
  }

  lemma FullByte(m: Bits, i: nat)
    requires 8 * i + 8 <= |m| && forall k :: 8 * i <= k < 8 * i + 8 ==> m[k]
    ensures ByteAt(m, i) == 0xFF
  {
    Ones();
    GetFromBits(m, Field(8 * i, 8), 0xFF);
    assert Pow2(8) == 256 by { Pow2Values(); }
  }

  lemma Ones()
    ensures forall i :: 0 <= i < 8 ==> BitOf(0xFF, i)
    ensures forall i :: 0 <= i < 5 ==> BitOf(31, i)
  {
    assert BitOf(0xFF, 0) && BitOf(0xFF, 1) && BitOf(0xFF, 2) && BitOf(0xFF, 3);
    assert BitOf(0xFF, 4) && BitOf(0xFF, 5) && BitOf(0xFF, 6) && BitOf(0xFF, 7);
    assert BitOf(31, 0) && BitOf(31, 1) && BitOf(31, 2) && BitOf(31, 3) && BitOf(31, 4);
  }

  /** The two halves of the image behind its descriptor are the same bytes, those of one record. */
  lemma HalvesAre(e: Region, r: Record, i: nat)
    requires i < 0x1000
    ensures var image := DescriptorGbeFile(e, Record8K(r, r));
            image[0x1000 + i] == image[0x2000 + i] == ByteAt(r, i)
  {
  }

  lemma BackupByte(rom: seq<byte>, start: nat, i: nat)
    requires start + 0x2000 <= |rom| && i < 0x1000
    ensures ByteAt(GbeRegion(Read(rom, start, 0x2000)).backup, i) == rom[start + 0x1000 + i]
  {
    var bytes := Read(rom, start, 0x2000);
    ByteAtBits(bytes[0x1000..], i);
  }

  /**
    The image behind the descriptor: two equal records, each with bytes 0 to 0x7D of the second record
    that the ROM has at start, the checksum that makes the words sum to 0xBABA, and 0xFF to the end.
    */
  predicate RecordsFrom(image: seq<byte>, rom: seq<byte>, start: nat) {
    && |image| == 0x3000 && start + 0x2000 <= |rom|
    && image[0x1000..0x107E] == rom[start + 0x1000..start + 0x107E]
    && WordTotal(image, 0x1000, 0x40) % 0x1_0000 == 0xBABA
    && (forall k :: 0x1080 <= k < 0x2000 ==> image[k] == 0xFF)
    && image[0x2000..] == image[0x1000..0x2000]
  }

  /** Where a GbE region is written, it is made from the ROM at BASE << 12. */
  lemma GbeBytes(rom: seq<byte>)
    ensures DeblobRom(rom).Done? && |DeblobRom(rom).output.image| == 0x3000 ==>
              && 0x1000 <= |rom|
              && RecordsFrom(DeblobRom(rom).output.image, rom, 0x1000 * GbeBase(rom))
  {
    Outcome(rom);
    if DeblobRom(rom).Done? && HasGbe(rom) {
      RecordsOf(rom, 0x1000 * GbeBase(rom));
    }
  }

  lemma RecordsOf(rom: seq<byte>, start: nat)
    requires 0x1000 <= |rom| && HasGbe(rom) && start == 0x1000 * GbeBase(rom) && start + 0x2000 <= |rom|
    ensures DeblobRom(rom).Done? && RecordsFrom(DeblobRom(rom).output.image, rom, start)
  {
    TestOnBytes(rom);
    var g := GbeRegion(Read(rom, start, 0x2000)).backup;
    var e := Deblobbed(Overlay(rom[..0x1000]), RomSize(rom));
    assert DeblobRom(rom).output.image == DescriptorGbeFile(e, Record8K(Repaired(g), Repaired(g)));
    RecordsInFile(e, g, rom, start);
  }

  lemma RecordsInFile(e: Region, g: Record, rom: seq<byte>, start: nat)
    requires start + 0x2000 <= |rom| && g == GbeRegion(Read(rom, start, 0x2000)).backup
    ensures RecordsFrom(DescriptorGbeFile(e, Record8K(Repaired(g), Repaired(g))), rom, start)
  {
    var r := Repaired(g);
    var image := DescriptorGbeFile(e, Record8K(r, r));
    RepairedBytes(g);
    SettingsInFile(e, g, rom, start);
    forall k | 0x1080 <= k < 0x2000
      ensures image[k] == 0xFF
    {
      HalvesAre(e, r, k - 0x1000);
    }
    forall i | 0 <= i < 0x1000
      ensures image[0x1000 + i] == ByteAt(r, i)
    {
      HalvesAre(e, r, i);
    }
    TotalIsSum(image, 0x1000, r, 0x40);
    SameHalves(e, r);
  }

  lemma SettingsInFile(e: Region, g: Record, rom: seq<byte>, start: nat)
    requires start + 0x2000 <= |rom| && g == GbeRegion(Read(rom, start, 0x2000)).backup
    ensures DescriptorGbeFile(e, Record8K(Repaired(g), Repaired(g)))[0x1000..0x107E]
         == rom[start + 0x1000..start + 0x107E]
  {
    var image := DescriptorGbeFile(e, Record8K(Repaired(g), Repaired(g)));
    RepairedBytes(g);
    var written, found := image[0x1000..0x107E], rom[start + 0x1000..start + 0x107E];
    forall i | 0 <= i < 0x7E
      ensures written[i] == found[i]
    {
      BackupByte(rom, start, i);
      HalvesAre(e, Repaired(g), i);
    }
  }

  lemma SameHalves(e: Region, r: Record)
    ensures var image := DescriptorGbeFile(e, Record8K(r, r)); image[0x2000..] == image[0x1000..0x2000]
  {
    var image := DescriptorGbeFile(e, Record8K(r, r));
    var main, backup := image[0x1000..0x2000], image[0x2000..];
    forall i | 0 <= i < 0x1000
      ensures main[i] == backup[i]
    {
      HalvesAre(e, r, i);
    }
  }
}
