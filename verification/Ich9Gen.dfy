/**
  ich9gen: descriptor and GbE region from the shipped programs alone, with an optional MAC address from
  the command line.
  */
module Ich9Gen {
  import opened Words
  import opened Memory
  import opened HexText
  import opened EmittedC
  import opened DescriptorLayout
  import opened MkDescriptor
  import opened Gbe
  import opened GbeLayout
  import opened GbeChecksum
  import opened Ich9Deblob

  // ----- the MAC address argument -----

  datatype MacError = WrongLength | NonColon | NonHex

  datatype MacResult = Rejected(error: MacError) | Accepted(main: Record)

  /** Digit j of byte i. */
  function DigitAt(arg: string, i: nat, j: nat): Option<nat>
    requires |arg| == 17 && i < 6 && j < 2
  {
    DigitValue(arg[3 * i + j])
  }

  predicate Colons(arg: string)
    requires |arg| == 17
  {
    arg[2] == ':' && arg[5] == ':' && arg[8] == ':' && arg[11] == ':'
  }

  predicate HexPairs(arg: string)
    requires |arg| == 17
  {
    forall i :: 0 <= i < 6 ==> DigitAt(arg, i, 0).Some? && DigitAt(arg, i, 1).Some?
  }

  /** The first n bytes of the address in arg. */
  function MacBytes(arg: string, n: nat): (mac: seq<byte>)
    requires |arg| == 17 && n <= 6
    requires forall k :: 0 <= k < n ==> DigitAt(arg, k, 0).Some? && DigitAt(arg, k, 1).Some?
    ensures |mac| == n
  {
    seq(n, k requires 0 <= k < n => 16 * DigitAt(arg, k, 0).value + DigitAt(arg, k, 1).value)
  }

  /** The first bytes of the record replaced by those of mac. */
  function WithMac(g: Record, mac: seq<byte>): Record
    requires |mac| <= 6
  {
    if mac == [] then g
    else Put(WithMac(g, mac[..|mac| - 1]), MacByte(|mac| - 1), mac[|mac| - 1])
  }

  /** What the argument does to the main record. */
  function ParsedMac(main: Record, arg: string): MacResult {
    if |arg| != 17 then Rejected(WrongLength)
    else if !Colons(arg) then Rejected(NonColon)
    else if !HexPairs(arg) then Rejected(NonHex)
    else Accepted(WithMac(main, MacBytes(arg, 6)))
  }

  lemma PutTwice(g: Record, f: Field, v: nat, w: nat)
    requires f.In(g)
    ensures Put(Put(g, f, v), f, w) == Put(g, f, w)
  {
  }

  /** The nibble loop: zero the byte, then OR in each digit at its place. */
  method ParseByte(main0: Record, arg: string, i: nat) returns (ok: bool, main: Record)
    requires |arg| == 17 && i < 6
    ensures ok <==> DigitAt(arg, i, 0).Some? && DigitAt(arg, i, 1).Some?
    ensures ok ==> main == Put(main0, MacByte(i), 16 * DigitAt(arg, i, 0).value + DigitAt(arg, i, 1).value)
  {
    main := Put(main0, MacByte(i), 0);
    ghost var value: nat := 0;
    var j := 0;
    while j < 2
      invariant j <= 2 && value < 256
      invariant main == Put(main0, MacByte(i), value)
      invariant j >= 1 ==> DigitAt(arg, i, 0).Some? && value / 16 == DigitAt(arg, i, 0).value
      invariant j == 0 ==> value == 0
      invariant j == 1 ==> value % 16 == 0
      invariant j == 2 ==> DigitAt(arg, i, 1).Some? && value % 16 == DigitAt(arg, i, 1).value
    {
      var c := arg[3 * i + j];
      var nibble;
      if 'a' <= c <= 'f' {
        nibble := c as int - 87;
      } else if 'A' <= c <= 'F' {
        nibble := c as int - 55;
      } else if '0' <= c <= '9' {
        nibble := c as int - 48;
      } else {
        return false, main;
      }
      OrNibble(main0, i, value, nibble, j);
      main := Put(main, MacByte(i), Or(Get(main, MacByte(i)), nibble * (if j == 0 then 16 else 1)));
      value := value + nibble * (if j == 0 then 16 else 1);
      j := j + 1;
    }
    ok := true;
  }

  lemma OrNibble(main0: Record, i: nat, value: nat, nibble: nat, j: nat)
    requires i < 6 && j < 2 && nibble < 16 && value < 256
    requires if j == 0 then value == 0 else value % 16 == 0
    ensures var m := Put(main0, MacByte(i), value);
            var v := nibble * (if j == 0 then 16 else 1);
            Put(m, MacByte(i), Or(Get(m, MacByte(i)), v)) == Put(main0, MacByte(i), value + v)
  {
    var v := nibble * (if j == 0 then 16 else 1);
    GetPut(main0, MacByte(i), value);
    assert value % Pow2(8) == value by { Pow2Values(); SmallMod(value, 256); }
    NibbleFits(value, nibble, j);
    PutTwice(main0, MacByte(i), value, value + v);
  }

  lemma NibbleFits(value: nat, nibble: nat, j: nat)
    requires j < 2 && nibble < 16
    requires if j == 0 then value == 0 else value % 16 == 0
    ensures Or(value, nibble * (if j == 0 then 16 else 1)) == value + nibble * (if j == 0 then 16 else 1)
  {
    if j == 0 {
      OrZero(nibble * 16);
    } else {
      assert Pow2(4) == 16 by { Pow2Values(); }
      OrDisjoint(value / 16, nibble, 4);
    }
  }

  /** The separator loop looks at positions 2, 5, 8 and 11 only. */
  method CheckSeparators(arg: string) returns (ok: bool)
    requires |arg| == 17
    ensures ok <==> Colons(arg)
  {
    var i := 2;
    while i < 14
      invariant i % 3 == 2 && 2 <= i <= 14
      invariant forall p :: 2 <= p < i && p % 3 == 2 ==> arg[p] == ':'
    {
      if arg[i] != ':' {
        assert i == 2 || i == 5 || i == 8 || i == 11;
        return false;
      }
      i := i + 3;
    }
    ok := true;
  }

  lemma OneByteMore(main0: Record, arg: string, i: nat)
    requires |arg| == 17 && i < 6
    requires forall k :: 0 <= k <= i ==> DigitAt(arg, k, 0).Some? && DigitAt(arg, k, 1).Some?
    ensures WithMac(main0, MacBytes(arg, i + 1))
         == Put(WithMac(main0, MacBytes(arg, i)), MacByte(i), 16 * DigitAt(arg, i, 0).value + DigitAt(arg, i, 1).value)
  {
    var mac := MacBytes(arg, i + 1);
    assert mac[..i] == MacBytes(arg, i);
    assert mac != [] && |mac| - 1 == i;
    assert WithMac(main0, mac) == Put(WithMac(main0, mac[..i]), MacByte(i), mac[i]);
  }

  /** The byte loop. */
  method ParseBytes(main0: Record, arg: string) returns (ok: bool, main: Record)
    requires |arg| == 17
    ensures ok <==> HexPairs(arg)
    ensures ok ==> main == WithMac(main0, MacBytes(arg, 6))
  {
    main := main0;
    var i := 0;
    while i < 6
      invariant i <= 6
      invariant forall k :: 0 <= k < i ==> DigitAt(arg, k, 0).Some? && DigitAt(arg, k, 1).Some?
      invariant main == WithMac(main0, MacBytes(arg, i))
    {
      ok, main := ParseByte(main, arg, i);
      if !ok {
        return;
      }
      OneByteMore(main0, arg, i);
      i := i + 1;
    }
    ok := true;
  }

  /** The argument check of main: length, separators, then six bytes written into the main record. */
  method SetMacAddress(main0: Record, arg: string) returns (r: MacResult)
    ensures r == ParsedMac(main0, arg)
  {
    if |arg| != 17 {
      return Rejected(WrongLength);
    }
    var colons := CheckSeparators(arg);
    if !colons {
      return Rejected(NonColon);
    }
    var hex, main := ParseBytes(main0, arg);
    if !hex {
      return Rejected(NonHex);
    }
    r := Accepted(main);
  }

  predicate IsHex(c: char) { '0' <= c <= '9' || 'a' <= c <= 'f' || 'A' <= c <= 'F' }

  function HexValue(c: char): nat {
    if '0' <= c <= '9' then c as nat - 48
    else if 'A' <= c <= 'F' then c as nat - 55
    else if 'a' <= c <= 'f' then c as nat - 87
    else 0
  }

  lemma HexIsDigit(c: char)
    ensures IsHex(c) <==> DigitValue(c).Some?
    ensures IsHex(c) ==> DigitValue(c) == Some(HexValue(c))
  {
  }

  /** What the argument must have at each position. */
  predicate Fitting(arg: string, p: nat)
    requires p < |arg|
  {
    if p == 2 || p == 5 || p == 8 || p == 11 then arg[p] == ':' else p == 14 || IsHex(arg[p])
  }

  /**
    The accepted strings, position by position: 17 characters, a colon at 2, 5, 8 and 11, a hex digit
    everywhere else except at 14, where the separator loop stops short and anything goes.
    */
  lemma AcceptedExactly(main: Record, arg: string)
    ensures ParsedMac(main, arg).Accepted? <==> |arg| == 17 && forall p :: 0 <= p < 17 ==> Fitting(arg, p)
  {
    if |arg| == 17 {
      HexPairsAre(arg);
      if forall p :: 0 <= p < 17 ==> Fitting(arg, p) {
        assert Fitting(arg, 2) && Fitting(arg, 5) && Fitting(arg, 8) && Fitting(arg, 11);
        forall p | 0 <= p < 17 && p % 3 != 2
          ensures IsHex(arg[p])
        {
          assert Fitting(arg, p);
        }
      }
    }
  }

  /** The digits are at the twelve positions that are no separators. */
  lemma HexPairsAre(arg: string)
    requires |arg| == 17
    ensures HexPairs(arg) <==> forall p :: 0 <= p < 17 && p % 3 != 2 ==> IsHex(arg[p])
  {
    forall i | 0 <= i < 6
      ensures DigitAt(arg, i, 0).Some? <==> IsHex(arg[3 * i])
      ensures DigitAt(arg, i, 1).Some? <==> IsHex(arg[3 * i + 1])
    {
      HexIsDigit(arg[3 * i]);
      HexIsDigit(arg[3 * i + 1]);
    }
    if HexPairs(arg) {
      forall p | 0 <= p < 17 && p % 3 != 2
        ensures IsHex(arg[p])
      {
        assert DigitAt(arg, p / 3, 0).Some? && DigitAt(arg, p / 3, 1).Some?;
      }
    }
  }

  // ----- printing and parsing -----

  function PrintDigit(d: nat, upper: bool): char
    requires d < 16
  {
    if upper && d >= 10 then 'A' + (d - 10) as char else Digit(d)
  }

  /** AA:BB:CC:DD:EE:FF; the case of each of the twelve digits is given by upper. */
  function PrintMac(mac: seq<byte>, upper: seq<bool>): (s: string)
    requires |mac| == 6 && |upper| == 12
    ensures |s| == 17
  {
    seq(17, p requires 0 <= p < 17 =>
      if p % 3 == 2 then ':'
      else PrintDigit(if p % 3 == 0 then mac[p / 3] / 16 else mac[p / 3] % 16, upper[p / 3 * 2 + p % 3]))
  }

  lemma DigitOfPrinted(d: nat, upper: bool)
    requires d < 16
    ensures DigitValue(PrintDigit(d, upper)) == Some(d)
  {
  }

  /** Every MAC address survives printing, in any mix of cases, and parsing; so does it with any character at 14. */
  lemma MacRoundTrip(main: Record, mac: seq<byte>, upper: seq<bool>, c: char)
    requires |mac| == 6 && |upper| == 12
    ensures ParsedMac(main, PrintMac(mac, upper)) == Accepted(WithMac(main, mac))
    ensures ParsedMac(main, PrintMac(mac, upper)[14 := c]) == Accepted(WithMac(main, mac))
  {
    PrintedParses(main, mac, PrintMac(mac, upper), upper);
    PrintedParses(main, mac, PrintMac(mac, upper)[14 := c], upper);
  }

  lemma PrintedParses(main: Record, mac: seq<byte>, arg: string, upper: seq<bool>)
    requires |mac| == 6 && |upper| == 12 && |arg| == 17
    requires forall p :: 0 <= p < 17 && p != 14 ==> arg[p] == PrintMac(mac, upper)[p]
    ensures ParsedMac(main, arg) == Accepted(WithMac(main, mac))
  {
    forall i | 0 <= i < 6
      ensures DigitAt(arg, i, 0) == Some(mac[i] / 16) && DigitAt(arg, i, 1) == Some(mac[i] % 16)
    {
      PairParses(mac, arg, upper, i);
    }
    SeparatorsParse(mac, arg, upper);
    PairsAreMac(mac, arg);
  }

  lemma SeparatorsParse(mac: seq<byte>, arg: string, upper: seq<bool>)
    requires |mac| == 6 && |upper| == 12 && |arg| == 17
    requires forall p :: 0 <= p < 17 && p != 14 ==> arg[p] == PrintMac(mac, upper)[p]
    ensures Colons(arg)
  {
  }

  lemma PairsAreMac(mac: seq<byte>, arg: string)
    requires |mac| == 6 && |arg| == 17
    requires forall i :: 0 <= i < 6 ==>
               DigitAt(arg, i, 0) == Some(mac[i] / 16) && DigitAt(arg, i, 1) == Some(mac[i] % 16)
    ensures HexPairs(arg) && MacBytes(arg, 6) == mac
  {
    forall i | 0 <= i < 6
      ensures MacBytes(arg, 6)[i] == mac[i]
    {
    }
  }

  lemma PairParses(mac: seq<byte>, arg: string, upper: seq<bool>, i: nat)
    requires |mac| == 6 && |upper| == 12 && |arg| == 17 && i < 6
    requires forall p :: 0 <= p < 17 && p != 14 ==> arg[p] == PrintMac(mac, upper)[p]
    ensures DigitAt(arg, i, 0) == Some(mac[i] / 16) && DigitAt(arg, i, 1) == Some(mac[i] % 16)
  {
    PositionOf(i);
    DigitOfPrinted(mac[i] / 16, upper[2 * i]);
    DigitOfPrinted(mac[i] % 16, upper[2 * i + 1]);
  }

  lemma PositionOf(i: nat)
    ensures 3 * i / 3 == i && (3 * i + 1) / 3 == i && 3 * i % 3 == 0 && (3 * i + 1) % 3 == 1
  {
  }

  // ----- the GbE region ich9gen writes -----

  /** The region written into the files, and mkgbe.c if it is printed anew. */
  datatype GbeResult = NoFile(error: MacError) | Region8K(gbe: Record8K, program: Option<Program>)

  /** Checksum repaired in main, main copied to the backup. */
  function Completed(main: Record): Record8K { Record8K(WithChecksum(main), WithChecksum(main)) }

  /** The region for a command line (args[0] is the program name). */
  function GbeFor(args: seq<string>, m: Record): GbeResult { GbeFrom(args, GeneratedRecord(m)) }

  /** The same from any record g in place of the shipped one. */
  function GbeFrom(args: seq<string>, g: Record): GbeResult {
    if |args| == 3 && args[1] == "--macaddress" then
      match ParsedMac(g, args[2])
      case Rejected(e) => NoFile(e)
      case Accepted(main) => Region8K(Completed(main), Some(RecordProgram(Completed(main).backup)))
    else Region8K(Record8K(g, g), None)
  }

  method GenerateGbe(args: seq<string>, m: Record) returns (r: GbeResult)
    ensures r == GbeFor(args, m)
  {
    var g := GeneratedRecord(m);
    var gbe := Record8K(g, g);
    var program: Option<Program> := None;
    if |args| == 3 {
      if args[1] == "--macaddress" {
        var mac := SetMacAddress(gbe.main, args[2]);
        if mac.Rejected? {
          return NoFile(mac.error);
        }
        gbe := gbe.(main := mac.main);
        var checksum := GetChecksumFrom4kStruct(gbe.main, GBECHECKSUMTOTAL);
        gbe := gbe.(main := Put(gbe.main, CHECKSUM, checksum));
        gbe := gbe.(backup := gbe.main);
        var printed := WriteRecordProgram(gbe.backup);
        program := Some(printed);
      }
    }
    r := Region8K(gbe, program);
  }

  /** Writing a MAC address changes its bytes and nothing else. */
  lemma {:induction false} WithMacReads(g: Record, mac: seq<byte>)
    requires |mac| <= 6
    ensures forall i :: 0 <= i < |mac| ==> Get(WithMac(g, mac), MacByte(i)) == mac[i]
    ensures forall k :: 8 * |mac| <= k < 0x8000 ==> WithMac(g, mac)[k] == g[k]
    decreases |mac|
  {
    if mac != [] {
      var n := |mac| - 1;
      var h := WithMac(g, mac[..n]);
      WithMacReads(g, mac[..n]);
      GetPut(h, MacByte(n), mac[n]);
      assert mac[n] % Pow2(8) == mac[n] by { Pow2Values(); SmallMod(mac[n], 256); }
      forall i | 0 <= i < n
        ensures Get(WithMac(g, mac), MacByte(i)) == mac[i]
      {
        GetPutApart(h, MacByte(n), mac[n], MacByte(i));
        assert mac[..n][i] == mac[i];
      }
    }
  }

  /** The bits from word 3 up to the checksum. */
  predicate SameAfterMac(g: Record, h: Record) {
    forall k :: 48 <= k < CHECKSUM.off ==> g[k] == h[k]
  }

  /**
    Whatever the command line, if ich9gen writes files then the two records of the region agree, are
    valid, have blank padding and keep the shipped settings after the MAC address; so the region is one
    that ich9deblob would not change.
    */
  lemma GeneratedGbeIsStable(args: seq<string>, m: Record)
    requires GbeFor(args, m).Region8K?
    ensures var g := GbeFor(args, m).gbe;
            && g.main == g.backup && ValidChecksum(g.main) && BlankPadding(g.main)
            && SameAfterMac(g.main, GeneratedRecord(m))
            && Deblobbed8K(g) == g
  {
    var g := GeneratedRecord(m);
    ShippedRecordValid(m);
    if |args| == 3 && args[1] == "--macaddress" {
      CompletedIsStable(g, MacBytes(args[2], 6));
    } else {
      Deblobbed8KIs(Record8K(g, g), Record8K(g, g));
    }
  }

  lemma CompletedIsStable(g: Record, mac: seq<byte>)
    requires BlankPadding(g) && |mac| == 6
    ensures var r := Completed(WithMac(g, mac));
            && ValidChecksum(r.main) && BlankPadding(r.main) && SameAfterMac(r.main, g) && Deblobbed8K(r) == r
  {
    var main := WithMac(g, mac);
    var r := Completed(main);
    WithMacReads(g, mac);
    ChecksumUnique(main, ChecksumFor(main, 0, GBECHECKSUMTOTAL));
    Deblobbed8KIs(r, r);
  }

  /** The mkgbe.c in force after the run: the one printed for an address, or else the shipped one. */
  function MkGbe(r: GbeResult): Program
    requires r.Region8K?
  {
    InForce(r, MKGBE)
  }

  function InForce(r: GbeResult, shipped: Program): Program
    requires r.Region8K?
  {
    if r.program.Some? then r.program.value else shipped
  }

  lemma InForceIs(args: seq<string>, g: Record, shipped: Program)
    requires GbeFrom(args, g).Region8K? && RecordProgram(g) == shipped
    ensures InForce(GbeFrom(args, g), shipped) == RecordProgram(GbeFrom(args, g).gbe.backup)
  {
  }

  lemma MkGbeIs(args: seq<string>, m: Record)
    requires GbeFor(args, m).Region8K?
    ensures MkGbe(GbeFor(args, m)) == RecordProgram(GbeFor(args, m).gbe.backup)
  {
    ShippedGbeReproducesItself(m);
    InForceIs(args, GeneratedRecord(m), MKGBE);
  }

  lemma RebuildsRegion(p: Program, g: Record8K, n: Record)
    requires p == RecordProgram(g.backup) && g.main == g.backup
    ensures Fits(p, 0x8000) && RegionFrom(p, n) == g
  {
    RegionRebuilt(g, n);
  }

  /** Compiled and called again, it rebuilds the region that the files have. */
  lemma ProgramRebuildsRegion(args: seq<string>, m: Record, n: Record)
    requires GbeFor(args, m).Region8K?
    ensures var p := MkGbe(GbeFor(args, m));
            Fits(p, 0x8000) && RegionFrom(p, n) == GbeFor(args, m).gbe
  {
    var r := GbeFor(args, m);
    GeneratedGbeIsStable(args, m);
    MkGbeIs(args, m);
    RebuildsRegion(MkGbe(r), r.gbe, n);
  }

  /**
    Nothing is written exactly when an address is asked for and does not fit, and the error tells why: the
    length first, then the separators, then the digits.  Without an address the shipped record is written.
    */
  lemma RefusedExactly(args: seq<string>, m: Record)
    ensures GbeFor(args, m).NoFile? <==>
              && |args| == 3 && args[1] == "--macaddress"
              && !(|args[2]| == 17 && forall p :: 0 <= p < 17 ==> Fitting(args[2], p))
    ensures GbeFor(args, m) == NoFile(WrongLength) <==>
              |args| == 3 && args[1] == "--macaddress" && |args[2]| != 17
    ensures GbeFor(args, m) == NoFile(NonColon) <==>
              && |args| == 3 && args[1] == "--macaddress" && |args[2]| == 17
              && (args[2][2] != ':' || args[2][5] != ':' || args[2][8] != ':' || args[2][11] != ':')
    ensures GbeFor(args, m) == NoFile(NonHex) <==>
              && |args| == 3 && args[1] == "--macaddress" && |args[2]| == 17
              && args[2][2] == args[2][5] == args[2][8] == args[2][11] == ':'
              && exists p :: 0 <= p < 17 && p % 3 != 2 && !IsHex(args[2][p])
    ensures !(|args| == 3 && args[1] == "--macaddress") ==>
              GbeFor(args, m) == Region8K(Record8K(GeneratedRecord(m), GeneratedRecord(m)), None)
  {
    RefusedFrom(args, GeneratedRecord(m));
  }

  lemma RefusedFrom(args: seq<string>, g: Record)
    ensures GbeFrom(args, g).NoFile? <==>
              && |args| == 3 && args[1] == "--macaddress"
              && !(|args[2]| == 17 && forall p :: 0 <= p < 17 ==> Fitting(args[2], p))
    ensures GbeFrom(args, g) == NoFile(WrongLength) <==>
              |args| == 3 && args[1] == "--macaddress" && |args[2]| != 17
    ensures GbeFrom(args, g) == NoFile(NonColon) <==>
              && |args| == 3 && args[1] == "--macaddress" && |args[2]| == 17
              && (args[2][2] != ':' || args[2][5] != ':' || args[2][8] != ':' || args[2][11] != ':')
    ensures GbeFrom(args, g) == NoFile(NonHex) <==>
              && |args| == 3 && args[1] == "--macaddress" && |args[2]| == 17
              && args[2][2] == args[2][5] == args[2][8] == args[2][11] == ':'
              && exists p :: 0 <= p < 17 && p % 3 != 2 && !IsHex(args[2][p])
  {
    if |args| == 3 && args[1] == "--macaddress" {
      AcceptedExactly(g, args[2]);
      if |args[2]| == 17 {
        HexPairsAre(args[2]);
      }
    }
  }

  /** An accepted address is written in numbers: two digits a byte, the higher one first, in both records. */
  lemma AddressWritten(args: seq<string>, m: Record)
    requires |args| == 3 && args[1] == "--macaddress"
    requires |args[2]| == 17 && forall p :: 0 <= p < 17 ==> Fitting(args[2], p)
    ensures var r := GbeFor(args, m);
            && r.Region8K? && r.program.Some? && r.gbe.main == r.gbe.backup
            && forall i :: 0 <= i < 6 ==>
                 ByteAt(r.gbe.main, i) == 16 * HexValue(args[2][3 * i]) + HexValue(args[2][3 * i + 1])
  {
    AddressFromArgs(args, GeneratedRecord(m));
  }

  lemma AddressFromArgs(args: seq<string>, g: Record)
    requires |args| == 3 && args[1] == "--macaddress"
    requires |args[2]| == 17 && forall p :: 0 <= p < 17 ==> Fitting(args[2], p)
    ensures var r := GbeFrom(args, g);
            && r.Region8K? && r.program.Some? && r.gbe.main == r.gbe.backup
            && forall i :: 0 <= i < 6 ==>
                 ByteAt(r.gbe.main, i) == 16 * HexValue(args[2][3 * i]) + HexValue(args[2][3 * i + 1])
  {
    AddressFrom(args[2], g);
  }

  lemma AddressFrom(arg: string, g: Record)
    requires |arg| == 17 && forall p :: 0 <= p < 17 ==> Fitting(arg, p)
    ensures ParsedMac(g, arg).Accepted?
    ensures forall i :: 0 <= i < 6 ==>
              ByteAt(WithChecksum(ParsedMac(g, arg).main), i) == 16 * HexValue(arg[3 * i]) + HexValue(arg[3 * i + 1])
  {
    AcceptedExactly(g, arg);
    var mac := MacBytes(arg, 6);
    var main := WithMac(g, mac);
    WithMacReads(g, mac);
    forall i | 0 <= i < 6
      ensures ByteAt(WithChecksum(main), i) == 16 * HexValue(arg[3 * i]) + HexValue(arg[3 * i + 1])
    {
      assert Fitting(arg, 3 * i) && Fitting(arg, 3 * i + 1);
      HexIsDigit(arg[3 * i]);
      HexIsDigit(arg[3 * i + 1]);
      GetPutApart(main, CHECKSUM, ChecksumFor(main, 0, GBECHECKSUMTOTAL), MacByte(i));
    }
  }

  /** An accepted address is the one found in both records. */
  lemma GeneratedGbeHasMac(mac: seq<byte>, upper: seq<bool>, m: Record)
    requires |mac| == 6 && |upper| == 12
    ensures var r := GbeFor(["ich9gen", "--macaddress", PrintMac(mac, upper)], m);
            r.Region8K? && r.gbe.main == r.gbe.backup && forall i :: 0 <= i < 6 ==> ByteAt(r.gbe.main, i) == mac[i]
  {
    var g := GeneratedRecord(m);
    var main := WithMac(g, mac);
    MacRoundTrip(g, mac, upper, 'x');
    WithMacReads(g, mac);
    forall i | 0 <= i < 6
      ensures ByteAt(WithChecksum(main), i) == mac[i]
    {
      GetPutApart(main, CHECKSUM, ChecksumFor(main, 0, GBECHECKSUMTOTAL), MacByte(i));
    }
  }

  // ----- the two tools agree -----

  /**
    A ROM that starts with the 12 KiB ich9gen writes for a ROM of that size, with any accepted MAC
    address, comes out of ich9deblob with the same 12 KiB, with mkdescriptor.c as it was shipped, and with
    the mkgbe.c that ich9gen printed; without an address that is the shipped one.
    */
  lemma DeblobKeepsGeneratedImage(a: Args, m: Region, args: seq<string>, n: Record, rest: seq<byte>)
    requires a.hasGbe != 0 && GbeFor(args, n).Region8K?
    requires RomSize(DescriptorGbeFile(Generated(a, m), GbeFor(args, n).gbe) + rest) == a.romSize
    ensures var r := GbeFor(args, n);
            var image := DescriptorGbeFile(Generated(a, m), r.gbe);
            DeblobRom(image + rest) == Done(Output(image, MKDESCRIPTOR, Some(MkGbe(r))))
  {
    var d, g := Generated(a, m), GbeFor(args, n).gbe;
    GeneratedIsFixedPoint(a, m);
    GeneratedDefinesGbe(a, m);
    GeneratedGbeIsStable(args, n);
    MkGbeIs(args, n);
    InstalledRuns(d, a.romSize, g, rest);
    ShippedReproducesItself(a, m);
  }

  /** The same for the 4 KiB without GbE. */
  lemma DeblobKeepsGeneratedDescriptor(a: Args, m: Region, rest: seq<byte>)
    requires a.hasGbe == 0 && RomSize(DescriptorFile(Generated(a, m)) + rest) == a.romSize
    ensures var image := DescriptorFile(Generated(a, m));
            DeblobRom(image + rest) == Done(Output(image, MKDESCRIPTOR, None))
  {
    GeneratedIsFixedPoint(a, m);
    GeneratedDefinesGbe(a, m);
    InstalledDescriptor(Generated(a, m), rest);
    ShippedReproducesItself(a, m);
  }
}
