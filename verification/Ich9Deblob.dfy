/**
  ich9deblob as a whole: from the bytes of factory.rom to the bytes of deblobbed_descriptor.bin (or
  deblobbed_4kdescriptor.bin) and the two C programs.
  */
module Ich9Deblob {
  import opened Words
  import opened Memory
  import opened HexText
  import opened EmittedC
  import opened DescriptorLayout
  import opened Descriptor
  import opened DescriptorTheorems
  import opened FlashRegions
  import opened DescriptorRegeneration
  import opened Gbe
  import opened GbeLayout

  datatype Error = ShortDescriptor | ShortGbe

  /** The written image, mkdescriptor.c, and mkgbe.c when there is a GbE region. */
  datatype Output = Output(image: seq<byte>, descriptorProgram: Program, recordProgram: Option<Program>)

  datatype Result = Failed(error: Error) | Done(output: Output)

  // ----- files -----

  /** fseek and fread: at most n bytes from an offset, fewer at the end of the file. */
  function Read(rom: seq<byte>, at: nat, n: nat): (r: seq<byte>)
    ensures |r| <= n
    ensures |r| == n <==> at + n <= |rom| || n == 0
  {
    if |rom| <= at then [] else if |rom| < at + n then rom[at..] else rom[at..at + n]
  }

  /** The size reported by ftell, kept in an unsigned int. */
  function RomSize(rom: seq<byte>): nat { |rom| % U32 }

  /** The struct overlaid on 4 KiB of bytes, and the bytes of a struct. */
  function Overlay(bytes: seq<byte>): Region
    requires |bytes| == 0x1000
  {
    BitsOf(bytes)
  }

  function Bytes(d: Region): (b: seq<byte>)
    ensures |b| == 0x1000
  {
    BytesOf(d)
  }

  lemma OverlayBytes(d: Region, bytes: seq<byte>)
    ensures Overlay(Bytes(d)) == d
    ensures |bytes| == 0x1000 ==> Bytes(Overlay(bytes)) == bytes
  {
    BitsOfBytes(d);
    BytesOfBits(bytes);
  }

  function DescriptorFile(d: Region): seq<byte> { Bytes(d) }

  function DescriptorGbeFile(d: Region, g: Record8K): (b: seq<byte>)
    ensures |b| == 0x3000
  {
    Bytes(d) + Bytes(g.main) + Bytes(g.backup)
  }

  // ----- the run -----

  function GbeStart(d: Region): nat { Get(d, Base(FLREG3)) * Pow2(FLREGIONBITSHIFT) }

  function GbeRegion(bytes: seq<byte>): Record8K
    requires |bytes| == GBEREGIONSIZE_8K
  {
    Record8K(Overlay(bytes[..0x1000]), Overlay(bytes[0x1000..]))
  }

  /** The outcome of a run that ends with descriptor e and GbE region g. */
  function OutcomeWithGbe(e: Region, g: Record8K): Result {
    Done(Output(DescriptorGbeFile(e, g), DescriptorProgram(e), Some(RecordProgram(g.backup))))
  }

  /** What a run returns for a ROM. */
  function DeblobRom(rom: seq<byte>): Result {
    if |rom| < DESCRIPTORREGIONSIZE then Failed(ShortDescriptor) else
      var d := Overlay(rom[..0x1000]);
      var e := Deblobbed(d, RomSize(rom));
      if !DefinesGbe(d) then
        Done(Output(DescriptorFile(e), DescriptorProgram(e), None))
      else if |rom| < GbeStart(d) + GBEREGIONSIZE_8K then
        Failed(ShortGbe)
      else
        OutcomeWithGbe(e, Deblobbed8K(GbeRegion(Read(rom, GbeStart(d), GBEREGIONSIZE_8K))))
  }

  /** main, statement by statement; every test of the GbE region is made anew, as there. */
  method Deblob(rom: seq<byte>) returns (r: Result)
    ensures r == DeblobRom(rom)
  {
    var buffer := Read(rom, 0, DESCRIPTORREGIONSIZE);
    if |buffer| != DESCRIPTORREGIONSIZE {
      return Failed(ShortDescriptor);
    }
    assert buffer == rom[..0x1000];
    var descriptor: Region := Overlay(buffer);
    var gbe: Record8K;
    if DefinesGbe(descriptor) {
      var gbeRegionStart := Get(descriptor, Base(FLREG3)) * Pow2(FLREGIONBITSHIFT);
      buffer := Read(rom, gbeRegionStart, GBEREGIONSIZE_8K);
      if |buffer| != GBEREGIONSIZE_8K {
        return Failed(ShortGbe);
      }
      gbe := GbeRegion(buffer);
    } else {
      gbe := *;
    }
    ghost var factory, factoryGbe := descriptor, gbe;
    var romSize := RomSize(rom);
    DeblobbedDefinesGbe(factory, romSize);

    descriptor := LibrebootStructFromFactory(descriptor, romSize);
    descriptor := MeRegionsForbidden(descriptor);
    descriptor := HostRegionsUnlocked(descriptor);
    descriptor := OemString(descriptor);
    assert descriptor == Deblobbed(factory, romSize);

    if DefinesGbe(descriptor) {
      gbe := DeblobbedGbeStructFromFactory(gbe);
    }
    var image;
    if DefinesGbe(descriptor) {
      image := DescriptorGbeFile(descriptor, gbe);
    } else {
      image := DescriptorFile(descriptor);
    }
    var descriptorProgram := WriteDescriptorProgram(descriptor);
    if DefinesGbe(descriptor) {
      var recordProgram := WriteRecordProgram(gbe.backup);
      r := Done(Output(image, descriptorProgram, Some(recordProgram)));
    } else {
      r := Done(Output(image, descriptorProgram, None));
    }
  }

  // ----- installing the image and running again -----

  /** dd conv=notrunc: the image replaces the start of the ROM. */
  function Installed(image: seq<byte>, rom: seq<byte>): seq<byte> {
    image + (if |image| <= |rom| then rom[|image|..] else [])
  }

  lemma InstalledDescriptor(d: Region, rest: seq<byte>)
    ensures |Bytes(d) + rest| >= 0x1000 && Overlay((Bytes(d) + rest)[..0x1000]) == d
  {
    assert (Bytes(d) + rest)[..0x1000] == Bytes(d);
    OverlayBytes(d, []);
  }

  lemma InstalledGbe(d: Region, g: Record8K, rest: seq<byte>)
    ensures var rom := DescriptorGbeFile(d, g) + rest;
            |Read(rom, 0x1000, 0x2000)| == 0x2000 && GbeRegion(Read(rom, 0x1000, 0x2000)) == g
  {
    var rom := DescriptorGbeFile(d, g) + rest;
    var bytes := Read(rom, 0x1000, 0x2000);
    assert bytes[..0x1000] == Bytes(g.main);
    assert bytes[0x1000..] == Bytes(g.backup);
    OverlayBytes(g.main, []);
    OverlayBytes(g.backup, []);
  }

  lemma DeblobbedGbeStart(d: Region, romSize: nat)
    requires DefinesGbe(d)
    ensures GbeStart(Deblobbed(d, romSize)) == 0x1000
  {
    DeblobbedReads(d, romSize);
    Pow2Values();
  }

  /** A descriptor remembers the ROM size it was made for, unless both sizes have the same last page. */
  lemma DifferentSizes(d: Region, romSize: nat, romSize': nat)
    requires LastPage(romSize) % 0x2000 != LastPage(romSize') % 0x2000
    ensures Bytes(Deblobbed(d, romSize)) != Bytes(Deblobbed(d, romSize'))
  {
    DeblobbedReads(d, romSize);
    DeblobbedReads(d, romSize');
    assert Get(Deblobbed(d, romSize), Limit(FLREG1)) != Get(Deblobbed(d, romSize'), Limit(FLREG1));
    OverlayBytes(Deblobbed(d, romSize), []);
    OverlayBytes(Deblobbed(d, romSize'), []);
  }

  /**
    End to end: whenever a run succeeds, so does a run on the ROM with the image installed, and it gives
    the same image and the same two programs if and only if the image fitted into the ROM.
    */
  lemma DeblobIdempotent(rom: seq<byte>)
    ensures var r := DeblobRom(rom);
            r.Done? ==>
              && DeblobRom(Installed(r.output.image, rom)).Done?
              && (DeblobRom(Installed(r.output.image, rom)) == r <==> |r.output.image| <= |rom|)
  {
    if DeblobRom(rom).Done? {
      if DefinesGbe(Overlay(rom[..0x1000])) {
        AgainWithGbe(rom);
      } else {
        AgainWithoutGbe(rom);
      }
    }
  }

  /** An 8 KiB dump of zeros, but with both GbE straps set: the GbE region is read from address 0. */
  function ShortRom(): (rom: seq<byte>)
    ensures |rom| == 0x2000
  {
    seq(0x2000, i => if i == 0x102 then 0x18 else 0)
  }

  /** The image can outgrow the ROM; here it does, and the second run differs from the first. */
  lemma ImageOutgrowsRom()
    ensures Outgrown(ShortRom())
  {
    ShortRomGbe(Overlay(ShortRom()[..0x1000]));
    SmallRomOutgrown(ShortRom());
  }

  /** The run succeeds, its image is longer than the ROM, and running again gives something else. */
  predicate Outgrown(rom: seq<byte>) {
    var r := DeblobRom(rom);
    && r.Done? && |r.output.image| > |rom|
    && DeblobRom(Installed(r.output.image, rom)).Done?
    && DeblobRom(Installed(r.output.image, rom)) != r
  }

  /** This happens to every dump of 8 to 12 KiB that defines a GbE region at address 0. */
  lemma SmallRomOutgrown(rom: seq<byte>)
    requires 0x2000 <= |rom| < 0x3000 && DefinesGbe(Overlay(rom[..0x1000])) && GbeStart(Overlay(rom[..0x1000])) == 0
    ensures Outgrown(rom)
  {
    DeblobIdempotent(rom);
  }

  lemma ShortRomGbe(d: Region)
    requires d == Overlay(ShortRom()[..0x1000])
    ensures DefinesGbe(d) && GbeStart(d) == 0
  {
    ZeroMember(d, Base(FLREG3));
    ZeroMember(d, Limit(FLREG3));
    ShortRomStrap(d, 3);
    ShortRomStrap(d, 4);
    assert INTEGRATED_GBE == Field(8 * 0x102 + 3, 1) && LAN_PHY == Field(8 * 0x102 + 4, 1);
  }

  lemma ZeroMember(d: Region, f: Field)
    requires d == Overlay(ShortRom()[..0x1000]) && f.End() <= 8 * 0x102
    ensures Get(d, f) == 0
  {
    forall i | 0 <= i < f.width
      ensures d[f.off + i] == BitOf(0, i)
    {
      var k := f.off + i;
      BitOfByte(ShortRom()[..0x1000], k / 8, k % 8);
      HighBitsClear(0, 0, i);
      HighBitsClear(0, 0, k % 8);
    }
    GetFromBits(d, f, 0);
  }

  lemma ShortRomStrap(d: Region, j: nat)
    requires d == Overlay(ShortRom()[..0x1000]) && (j == 3 || j == 4)
    ensures Get(d, Field(8 * 0x102 + j, 1)) == 1
  {
    BitOfByte(ShortRom()[..0x1000], 0x102, j);
    assert BitOf(0x18, 3) && BitOf(0x18, 4);
    GetBits(d, Field(8 * 0x102 + j, 1));
    assert BitOf(1, 0) && !BitOf(0, 0) && Pow2(1) == 2;
    assert BitOf(Get(d, Field(8 * 0x102 + j, 1)), 0) == d[8 * 0x102 + j + 0];
  }

  lemma AgainWithoutGbe(rom: seq<byte>)
    requires DeblobRom(rom).Done? && !DefinesGbe(Overlay(rom[..0x1000]))
    ensures |DeblobRom(rom).output.image| <= |rom|
    ensures DeblobRom(Installed(DeblobRom(rom).output.image, rom)) == DeblobRom(rom)
  {
    var d := Overlay(rom[..0x1000]);
    var e := Deblobbed(d, RomSize(rom));
    InstalledDescriptor(e, rom[0x1000..]);
    DeblobbedDefinesGbe(d, RomSize(rom));
    DeblobAgain(d, RomSize(rom), RomSize(rom));
    assert |Installed(Bytes(e), rom)| == |rom|;
  }

  lemma AgainWithGbe(rom: seq<byte>)
    requires DeblobRom(rom).Done? && DefinesGbe(Overlay(rom[..0x1000]))
    ensures var r := DeblobRom(rom);
            && DeblobRom(Installed(r.output.image, rom)).Done?
            && (DeblobRom(Installed(r.output.image, rom)) == r <==> |r.output.image| <= |rom|)
  {
    var d := Overlay(rom[..0x1000]);
    var g := GbeRegion(Read(rom, GbeStart(d), GBEREGIONSIZE_8K));
    var image := DescriptorGbeFile(Deblobbed(d, RomSize(rom)), Deblobbed8K(g));
    if |image| <= |rom| {
      AgainSameSize(d, RomSize(rom), g, rom[|image|..]);
    } else {
      SmallRomPages(rom);
      AgainOtherSize(d, RomSize(rom), g);
      assert image + [] == image;
    }
  }

  /** The run on a ROM that starts with the image for d and g and has the size of the first ROM. */
  lemma AgainSameSize(d: Region, romSize: nat, g: Record8K, rest: seq<byte>)
    requires DefinesGbe(d) && RomSize(DescriptorGbeFile(Deblobbed(d, romSize), Deblobbed8K(g)) + rest) == romSize
    ensures DeblobRom(DescriptorGbeFile(Deblobbed(d, romSize), Deblobbed8K(g)) + rest)
         == OutcomeWithGbe(Deblobbed(d, romSize), Deblobbed8K(g))
  {
    InstalledRuns(d, romSize, Deblobbed8K(g), rest);
    Deblobbed8KAgain(g);
    DeblobAgain(d, romSize, romSize);
  }

  /** The image alone, when the first ROM was shorter: the BIOS limit comes out different. */
  lemma AgainOtherSize(d: Region, romSize: nat, g: Record8K)
    requires DefinesGbe(d) && LastPage(romSize) % 0x2000 != LastPage(0x3000) % 0x2000
    ensures var image := DescriptorGbeFile(Deblobbed(d, romSize), Deblobbed8K(g));
            DeblobRom(image + []).Done? && DeblobRom(image + []).output.image != image
  {
    var image := DescriptorGbeFile(Deblobbed(d, romSize), Deblobbed8K(g));
    assert RomSize(image + []) == 0x3000;
    InstalledRuns(d, romSize, Deblobbed8K(g), []);
    OtherDescriptor(d, romSize, Deblobbed8K(g), Deblobbed8K(Deblobbed8K(g)));
  }

  lemma OtherDescriptor(d: Region, romSize: nat, g: Record8K, h: Record8K)
    requires LastPage(romSize) % 0x2000 != LastPage(0x3000) % 0x2000
    ensures DescriptorGbeFile(Deblobbed(Deblobbed(d, romSize), 0x3000), h)
         != DescriptorGbeFile(Deblobbed(d, romSize), g)
  {
    DeblobAgain(d, romSize, 0x3000);
    DifferentSizes(d, romSize, 0x3000);
    FilesDiffer(Deblobbed(d, 0x3000), Deblobbed(d, romSize), h, g);
  }

  lemma FilesDiffer(d: Region, e: Region, g: Record8K, h: Record8K)
    requires Bytes(d) != Bytes(e)
    ensures DescriptorGbeFile(d, g) != DescriptorGbeFile(e, h)
  {
    assert DescriptorGbeFile(d, g)[..0x1000] == Bytes(d);
    assert DescriptorGbeFile(e, h)[..0x1000] == Bytes(e);
  }

  /** A ROM that starts with an image for d and g runs to the image for d, its own size, and g repaired. */
  lemma InstalledRuns(d: Region, romSize: nat, g: Record8K, rest: seq<byte>)
    requires DefinesGbe(d)
    ensures var e, rom := Deblobbed(d, romSize), DescriptorGbeFile(Deblobbed(d, romSize), g) + rest;
            DeblobRom(rom) == OutcomeWithGbe(Deblobbed(e, RomSize(rom)), Deblobbed8K(g))
  {
    var e := Deblobbed(d, romSize);
    var rom := DescriptorGbeFile(e, g) + rest;
    InstalledDescriptor(e, Bytes(g.main) + Bytes(g.backup) + rest);
    assert rom == Bytes(e) + (Bytes(g.main) + Bytes(g.backup) + rest);
    DeblobbedDefinesGbe(d, romSize);
    DeblobbedGbeStart(d, romSize);
    InstalledGbe(e, g, rest);
  }

  lemma SmallRomPages(rom: seq<byte>)
    requires 0x2000 <= |rom| < 0x3000
    ensures LastPage(RomSize(rom)) % 0x2000 != LastPage(0x3000) % 0x2000
  {
    LastPageIs(|rom|);
    LastPageIs(0x3000);
  }

  // ----- what the image contains -----

  /** The descriptor in the image, bit for bit: the touched bits have their targets, all others are the ROM's. */
  lemma ImageBits(rom: seq<byte>)
    ensures var r := DeblobRom(rom);
            r.Done? ==>
              && 0x1000 <= |r.output.image| && 0x1000 <= |rom|
              && var d := Overlay(rom[..0x1000]);
                 Overlay(r.output.image[..0x1000]) == Image(d, RomSize(rom), DefinesGbe(d))
  {
    if DeblobRom(rom).Done? {
      var d := Overlay(rom[..0x1000]);
      ImageDescriptor(rom);
      DeblobbedIsImage(d, RomSize(rom));
      OverlayBytes(Deblobbed(d, RomSize(rom)), []);
    }
  }

  lemma ImageDescriptor(rom: seq<byte>)
    requires DeblobRom(rom).Done?
    ensures |DeblobRom(rom).output.image| >= 0x1000
    ensures DeblobRom(rom).output.image[..0x1000] == Bytes(Deblobbed(Overlay(rom[..0x1000]), RomSize(rom)))
  {
  }

  // ----- the programs rebuild the image -----

  /** Both printed functions called, and their structs written one after the other. */
  function Reprinted(o: Output, a: Args, m: Region, n: Record): seq<byte>
    requires Runnable(o)
  {
    var d: Region := Run(o.descriptorProgram, a, m);
    match o.recordProgram
    case None => DescriptorFile(d)
    case Some(p) => DescriptorGbeFile(d, RegionFrom(p, n))
  }

  /**
    Compile the two programs of a successful run and call them with the ROM's own arguments, on any
    memory: the files they make up are the image again, if and only if the densities in the factory
    descriptor were those of the ROM size; otherwise only the density byte, at address 0x10, differs.
    */
  lemma ProgramsRebuildImage(rom: seq<byte>, a: Args, m: Region, n: Record)
    requires 0x1000 <= |rom| && ArgsFor(Overlay(rom[..0x1000]), RomSize(rom), a)
    ensures DeblobRom(rom).Done? ==>
              var o, d := DeblobRom(rom).output, Overlay(rom[..0x1000]);
              && Runnable(o) && SameButDensity(Reprinted(o, a, m, n), o.image)
              && (Reprinted(o, a, m, n) == o.image <==>
                    && Get(d, DENSITY1) == ComponentDensity(RomSize(rom))
                    && Get(d, DENSITY2) == ComponentDensity(RomSize(rom)))
  {
    var d := Overlay(rom[..0x1000]);
    var e := Deblobbed(d, RomSize(rom));
    var density := ComponentDensity(RomSize(rom));
    ProgramRebuilds(d, RomSize(rom), a, m);
    ProgramRebuildsExactly(d, RomSize(rom), a, m);
    if DeblobRom(rom).Done? {
      if DefinesGbe(d) {
        ReprintedWithGbe(e, density, GbeRegion(Read(rom, GbeStart(d), GBEREGIONSIZE_8K)), a, m, n);
      } else {
        DensityByte(e, density);
      }
    }
  }

  predicate Runnable(o: Output) {
    Fits(o.descriptorProgram, 0x8000) && (o.recordProgram.Some? ==> Fits(o.recordProgram.value, 0x8000))
  }

  /** Byte 0x10 holds the two densities. */
  predicate SameButDensity(x: seq<byte>, y: seq<byte>) {
    |x| == |y| && forall i :: 0 <= i < |x| && i != 0x10 ==> x[i] == y[i]
  }

  lemma ReprintedWithGbe(e: Region, density: nat, factory: Record8K, a: Args, m: Region, n: Record)
    requires Rebuilt(e, a, m) == WithDensities(e, density)
    ensures var o := OutcomeWithGbe(e, Deblobbed8K(factory)).output;
            && Runnable(o) && SameButDensity(Reprinted(o, a, m, n), o.image)
            && (Reprinted(o, a, m, n) == o.image <==> WithDensities(e, density) == e)
  {
    var g := Deblobbed8K(factory);
    RegionRebuilt(g, n);
    DensityByte(e, density);
    SameTail(WithDensities(e, density), e, g);
  }

  lemma SameTail(d: Region, e: Region, g: Record8K)
    requires forall i :: 0 <= i < 0x1000 && i != 0x10 ==> Bytes(d)[i] == Bytes(e)[i]
    ensures forall i :: 0 <= i < 0x3000 && i != 0x10 ==> DescriptorGbeFile(d, g)[i] == DescriptorGbeFile(e, g)[i]
    ensures DescriptorGbeFile(d, g) == DescriptorGbeFile(e, g) <==> Bytes(d) == Bytes(e)
  {
    assert DescriptorGbeFile(d, g)[..0x1000] == Bytes(d);
    assert DescriptorGbeFile(e, g)[..0x1000] == Bytes(e);
  }

  lemma DensityByte(e: Region, density: nat)
    ensures var f := WithDensities(e, density);
            && (forall i :: 0 <= i < 0x1000 && i != 0x10 ==> Bytes(f)[i] == Bytes(e)[i])
            && (Bytes(f) == Bytes(e) <==> f == e)
  {
    var f := WithDensities(e, density);
    forall i | 0 <= i < 0x1000 && i != 0x10
      ensures Bytes(f)[i] == Bytes(e)[i]
    {
      GetSame(e, f, Field(8 * i, 8));
    }
    OverlayBytes(e, []);
    OverlayBytes(f, []);
  }
}
