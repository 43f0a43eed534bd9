/**
  ich9gen as a whole: from the command line to the bytes of its four files, two of 12 KiB with a GbE
  region and two of 4 KiB without, for ROMs of 4 and 8 MiB.
  */
module Ich9GenFiles {
  import opened Words
  import opened HexText
  import opened EmittedC
  import opened DescriptorLayout
  import opened MkDescriptor
  import opened Gbe
  import opened Ich9Deblob
  import opened RomBytes
  import opened Ich9Gen

  datatype Files = Files(fdgbe4m: seq<byte>, fdgbe8m: seq<byte>, fdnogbe4m: seq<byte>, fdnogbe8m: seq<byte>)

  /** The uninitialised locals of the four calls of the descriptor generator, and of the record generator. */
  datatype Locals = Locals(gbe4m: Region, gbe8m: Region, noGbe4m: Region, noGbe8m: Region, record: Record)

  function FilesFor(args: seq<string>, l: Locals): Option<Files> {
    match GbeFor(args, l.record)
    case NoFile(_) => None
    case Region8K(g, _) =>
      Some(Files(DescriptorGbeFile(Generated(Args(ROMSIZE_4MB, 1), l.gbe4m), g),
                 DescriptorGbeFile(Generated(Args(ROMSIZE_8MB, 1), l.gbe8m), g),
                 DescriptorFile(Generated(Args(ROMSIZE_4MB, 0), l.noGbe4m)),
                 DescriptorFile(Generated(Args(ROMSIZE_8MB, 0), l.noGbe8m))))
  }

  method GenerateFiles(args: seq<string>, l: Locals) returns (r: Option<Files>)
    ensures r == FilesFor(args, l)
  {
    var descriptor4M := Generated(Args(ROMSIZE_4MB, 1), l.gbe4m);
    var descriptor8M := Generated(Args(ROMSIZE_8MB, 1), l.gbe8m);
    var descriptorNoGbe4M := Generated(Args(ROMSIZE_4MB, 0), l.noGbe4m);
    var descriptorNoGbe8M := Generated(Args(ROMSIZE_8MB, 0), l.noGbe8m);
    var gbe := GenerateGbe(args, l.record);
    if gbe.NoFile? {
      return None;
    }
    var files := Files(DescriptorGbeFile(descriptor4M, gbe.gbe), DescriptorGbeFile(descriptor8M, gbe.gbe),
                       DescriptorFile(descriptorNoGbe4M), DescriptorFile(descriptorNoGbe8M));
    r := Some(files);
  }

  /** Files are written unless an address is asked for that does not fit, and their sizes are 12 and 4 KiB. */
  lemma WrittenExactly(args: seq<string>, l: Locals)
    ensures FilesFor(args, l).None? <==>
              && |args| == 3 && args[1] == "--macaddress"
              && !(|args[2]| == 17 && forall p :: 0 <= p < 17 ==> Fitting(args[2], p))
    ensures FilesFor(args, l).Some? ==>
              var f := FilesFor(args, l).value;
              |f.fdgbe4m| == |f.fdgbe8m| == 0x3000 && |f.fdnogbe4m| == |f.fdnogbe8m| == 0x1000
  {
    RefusedExactly(args, l.record);
  }

  /** What ich9deblob makes of a ROM that starts with a file: the same file. */
  predicate Kept(file: seq<byte>, rest: seq<byte>) {
    DeblobRom(file + rest).Done? && DeblobRom(file + rest).output.image == file
  }

  /** Whatever the command line, each file is right for a ROM of its size: ich9deblob leaves it as it is. */
  lemma FilesKept(args: seq<string>, l: Locals, rest: seq<byte>)
    requires FilesFor(args, l).Some?
    ensures var f := FilesFor(args, l).value;
            && (|rest| == 0x40_0000 - 0x3000 ==> Kept(f.fdgbe4m, rest))
            && (|rest| == 0x80_0000 - 0x3000 ==> Kept(f.fdgbe8m, rest))
            && (|rest| == 0x40_0000 - 0x1000 ==> Kept(f.fdnogbe4m, rest))
            && (|rest| == 0x80_0000 - 0x1000 ==> Kept(f.fdnogbe8m, rest))
  {
    if |rest| == 0x40_0000 - 0x3000 {
      GbeFileKept(ROMSIZE_4MB, l.gbe4m, args, l.record, rest);
    } else if |rest| == 0x80_0000 - 0x3000 {
      GbeFileKept(ROMSIZE_8MB, l.gbe8m, args, l.record, rest);
    } else if |rest| == 0x40_0000 - 0x1000 {
      PlainFileKept(ROMSIZE_4MB, l.noGbe4m, rest);
    } else if |rest| == 0x80_0000 - 0x1000 {
      PlainFileKept(ROMSIZE_8MB, l.noGbe8m, rest);
    }
  }

  lemma GbeFileKept(romSize: nat, m: Region, args: seq<string>, n: Record, rest: seq<byte>)
    requires GbeFor(args, n).Region8K? && |rest| + 0x3000 == romSize < 0x1_0000_0000
    ensures Kept(DescriptorGbeFile(Generated(Args(romSize, 1), m), GbeFor(args, n).gbe), rest)
  {
    SmallMod(romSize, 0x1_0000_0000);
    DeblobKeepsGeneratedImage(Args(romSize, 1), m, args, n, rest);
  }

  lemma PlainFileKept(romSize: nat, m: Region, rest: seq<byte>)
    requires |rest| + 0x1000 == romSize < 0x1_0000_0000
    ensures Kept(DescriptorFile(Generated(Args(romSize, 0), m)), rest)
  {
    SmallMod(romSize, 0x1_0000_0000);
    DeblobKeepsGeneratedDescriptor(Args(romSize, 0), m, rest);
  }

  /** The requested address, digit by digit, at the start of both records of both files. */
  lemma FilesHaveAddress(args: seq<string>, l: Locals, i: nat)
    requires |args| == 3 && args[1] == "--macaddress" && i < 6
    requires |args[2]| == 17 && forall p :: 0 <= p < 17 ==> Fitting(args[2], p)
    ensures FilesFor(args, l).Some?
    ensures var f, b := FilesFor(args, l).value, 16 * HexValue(args[2][3 * i]) + HexValue(args[2][3 * i + 1]);
            f.fdgbe4m[0x1000 + i] == f.fdgbe4m[0x2000 + i] == f.fdgbe8m[0x1000 + i] == f.fdgbe8m[0x2000 + i] == b
  {
    AddressWritten(args, l.record);
    var g := GbeFor(args, l.record).gbe;
    HalvesAre(Generated(Args(ROMSIZE_4MB, 1), l.gbe4m), g.main, i);
    HalvesAre(Generated(Args(ROMSIZE_8MB, 1), l.gbe8m), g.main, i);
  }
}
