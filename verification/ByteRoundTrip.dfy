/**
  The structs as files: laying a struct over the bytes of a file and writing the struct back.
  No member order, width or padding loses or invents a bit.
  */
module ByteRoundTrip {
  import opened Words
  import opened Memory
  import opened StructLayout
  import opened DescriptorLayout
  import opened GbeLayout

  /** The file written from the members that the layout finds in a file; m is the memory they are put in. */
  function Rewritten(ls: Layout, bytes: seq<byte>, m: Bits): seq<byte>
    requires |m| == |BitsOf(bytes)| && |m| % 8 == 0 && Inside(ls, |m|)
  {
    BytesOf(Pack(ls, Unpack(ls, BitsOf(bytes)), m))
  }

  /** From a file to member values and back: the same bytes, whatever was in m. */
  lemma BytesReturn(ls: Layout, bytes: seq<byte>, m: Bits)
    requires |m| == |BitsOf(bytes)| && |m| % 8 == 0 && Tiles(ls, 0, |m|) && Inside(ls, |m|)
    ensures Rewritten(ls, bytes, m) == bytes
  {
    PackOfUnpack(ls, BitsOf(bytes), m);
    BytesOfBits(bytes);
  }

  /** From member values to a file and back: the same values. */
  lemma ValuesReturn(ls: Layout, vs: seq<nat>, m: Bits)
    requires |m| % 8 == 0 && Tiles(ls, 0, |m|) && Inside(ls, |m|) && |vs| == |ls|
    requires forall i :: 0 <= i < |ls| ==> vs[i] < Pow2(ls[i].f.width)
    ensures BitsOf(BytesOf(Pack(ls, vs, m))) == Pack(ls, vs, m)
    ensures Unpack(ls, BitsOf(BytesOf(Pack(ls, vs, m)))) == vs
  {
    UnpackOfPack(ls, vs, m);
    BitsOfBytes(Pack(ls, vs, m));
  }

  /** The two layouts of the program. */
  predicate ShippedLayout(ls: Layout) { ls == DESCRIPTOR_LAYOUT || ls == GBE_LAYOUT }

  lemma ShippedLayoutTiles(ls: Layout)
    requires ShippedLayout(ls)
    ensures Tiles(ls, 0, 0x8000) && Inside(ls, 0x8000)
  {
    DescriptorTiles();
    GbeTiles();
  }

  /** Every 4 KiB descriptor and every 4 KiB GbE block survives the way through its struct. */
  lemma FileReturns(ls: Layout, bytes: seq<byte>, m: Bits)
    requires ShippedLayout(ls) && |m| == |BitsOf(bytes)| == 0x8000
    ensures Inside(ls, |m|) && Rewritten(ls, bytes, m) == bytes
  {
    ShippedLayoutTiles(ls);
    BytesReturn(ls, bytes, m);
  }

  // ----- the bit-field order the program checks for at start-up -----

  /** The four bytes of FLMAP0, from its six members in declaration order. */
  lemma FlMap0Bytes(d: Region)
    ensures ByteAt(d, 4) == Get(d, FCBA)
    ensures ByteAt(d, 5) == Get(d, Reg(0x04, 8, 2)) + 4 * Get(d, Reg(0x04, 10, 6))
    ensures ByteAt(d, 6) == Get(d, FRBA)
    ensures ByteAt(d, 7) == Get(d, NR) + 8 * Get(d, Reg(0x04, 27, 5))
  {
    assert Pow2(2) == 4 && Pow2(3) == 8;
    GetJoined(d, 40, 2, 6);
    GetJoined(d, 56, 3, 5);
  }

  /** The vector of the start-up check. */
  lemma FlMap0Vector(d: Region)
    requires Get(d, FCBA) == 0xA2 && Get(d, Reg(0x04, 8, 2)) == 2 && Get(d, Reg(0x04, 10, 6)) == 0x38
    requires Get(d, FRBA) == 0xD2 && Get(d, NR) == 5 && Get(d, Reg(0x04, 27, 5)) == 0x1C
    ensures [ByteAt(d, 4), ByteAt(d, 5), ByteAt(d, 6), ByteAt(d, 7)] == [0xA2, 0xE2, 0xD2, 0xE5]
  {
    FlMap0Bytes(d);
  }
}
