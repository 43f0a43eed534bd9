/**
  The members of the 4 KiB GbE record in order, word by word, and the program shipped as mkgbe.c.
  W(w, lo, n) is the bit-field of n bits from bit lo of word w.
  */
module GbeLayout {
  import opened Words
  import opened Memory
  import opened EmittedC
  import opened StructLayout
  import opened Gbe

  function W(word: nat, lo: nat, width: nat): Field { Field(16 * word + lo, width) }

  // ----- members -----

  const WORDS_00_09: Layout := [
    Scalar(MacByte(0), 2), Scalar(MacByte(1), 2), Scalar(MacByte(2), 2), Scalar(MacByte(3), 2),
    Scalar(MacByte(4), 2), Scalar(MacByte(5), 2), Scalar(W(0x03, 0, 8), 2), Scalar(W(0x03, 8, 3), 1),
    Scalar(W(0x03, 11, 1), 1), Scalar(W(0x03, 12, 4), 1), Scalar(Word(0x04), 4), Scalar(Word(0x05), 4),
    Scalar(Word(0x06), 4), Scalar(Word(0x07), 4), Scalar(Word(0x08), 4), Scalar(Word(0x09), 4)
  ]

  const WORDS_0A_0F: Layout := [
    Scalar(W(0x0A, 0, 1), 1), Scalar(W(0x0A, 1, 1), 1), Scalar(W(0x0A, 2, 1), 1), Scalar(W(0x0A, 3, 3), 1),
    Scalar(W(0x0A, 6, 1), 1), Scalar(W(0x0A, 7, 1), 1), Scalar(W(0x0A, 8, 4), 1), Scalar(W(0x0A, 12, 4), 1),
    Scalar(Word(0x0B), 4), Scalar(Word(0x0C), 4), Scalar(Word(0x0D), 4), Scalar(Word(0x0E), 4),
    Scalar(Word(0x0F), 4)
  ]

  const WORDS_10_12: Layout := [
    Scalar(W(0x10, 0, 5), 2), Scalar(W(0x10, 5, 3), 1), Scalar(W(0x10, 8, 8), 2), Scalar(Word(0x11), 4),
    Scalar(Word(0x12), 4)
  ]

  const WORDS_13_16: Layout := [
    Scalar(W(0x13, 0, 3), 1), Scalar(W(0x13, 3, 1), 1), Scalar(W(0x13, 4, 1), 1), Scalar(W(0x13, 5, 3), 1),
    Scalar(W(0x13, 8, 1), 1), Scalar(W(0x13, 9, 1), 1), Scalar(W(0x13, 10, 1), 1), Scalar(W(0x13, 11, 3), 1),
    Scalar(W(0x13, 14, 2), 1), Scalar(W(0x14, 0, 12), 3), Scalar(W(0x14, 12, 1), 1), Scalar(W(0x14, 13, 1), 1),
    Scalar(W(0x14, 14, 1), 1), Scalar(W(0x14, 15, 1), 1), Scalar(W(0x15, 0, 8), 2), Scalar(W(0x15, 8, 8), 2),
    Scalar(Word(0x16), 4)
  ]

  const WORDS_17_18: Layout := [
    Scalar(W(0x17, 0, 4), 1), Scalar(W(0x17, 4, 1), 1), Scalar(W(0x17, 5, 1), 1), Scalar(W(0x17, 6, 1), 1),
    Scalar(W(0x17, 7, 1), 1), Scalar(W(0x17, 8, 1), 1), Scalar(W(0x17, 9, 1), 1), Scalar(W(0x17, 10, 1), 1),
    Scalar(W(0x17, 11, 1), 1), Scalar(W(0x17, 12, 2), 1), Scalar(W(0x17, 14, 1), 1), Scalar(W(0x17, 15, 1), 1),
    Scalar(W(0x18, 0, 4), 1), Scalar(W(0x18, 4, 1), 1), Scalar(W(0x18, 5, 1), 1), Scalar(W(0x18, 6, 1), 1),
    Scalar(W(0x18, 7, 1), 1), Scalar(W(0x18, 8, 4), 1), Scalar(W(0x18, 12, 1), 1), Scalar(W(0x18, 13, 1), 1),
    Scalar(W(0x18, 14, 1), 1), Scalar(W(0x18, 15, 1), 1)
  ]

  const WORDS_19_23: Layout := [
    Scalar(Word(0x19), 4), Scalar(Word(0x1A), 4), Scalar(Word(0x1B), 4), Scalar(Word(0x1C), 4),
    Scalar(Word(0x1D), 4), Scalar(Word(0x1E), 4), Scalar(Word(0x1F), 4), Scalar(Word(0x20), 4),
    Scalar(Word(0x21), 4), Scalar(Word(0x22), 4), Scalar(Word(0x23), 4)
  ]

  const WORDS_24_2F: Layout := [
    Scalar(Word(0x24), 4), Scalar(Word(0x25), 4), Scalar(Word(0x26), 4), Scalar(Word(0x27), 4),
    Scalar(Word(0x28), 4), Scalar(Word(0x29), 4), Scalar(Word(0x2A), 4), Scalar(Word(0x2B), 4),
    Scalar(Word(0x2C), 4), Scalar(Word(0x2D), 4), Scalar(Word(0x2E), 4), Scalar(Word(0x2F), 4)
  ]

  const WORDS_30_31: Layout := [
    Scalar(W(0x30, 0, 2), 1), Scalar(W(0x30, 2, 1), 1), Scalar(W(0x30, 3, 2), 1), Scalar(W(0x30, 5, 1), 1),
    Scalar(W(0x30, 6, 2), 1), Scalar(W(0x30, 8, 1), 1), Scalar(W(0x30, 9, 1), 1), Scalar(W(0x30, 10, 2), 1),
    Scalar(W(0x30, 12, 1), 1), Scalar(W(0x30, 13, 1), 1), Scalar(W(0x30, 14, 1), 1), Scalar(W(0x30, 15, 1), 1),
    Scalar(W(0x31, 0, 1), 1), Scalar(W(0x31, 1, 1), 1), Scalar(W(0x31, 2, 1), 1), Scalar(W(0x31, 3, 1), 1),
    Scalar(W(0x31, 4, 1), 1), Scalar(W(0x31, 5, 1), 1), Scalar(W(0x31, 6, 2), 1), Scalar(W(0x31, 8, 3), 1),
    Scalar(W(0x31, 11, 3), 1), Scalar(W(0x31, 14, 2), 1)
  ]

  const WORDS_32_33: Layout := [
    Scalar(W(0x32, 0, 8), 2), Scalar(W(0x32, 8, 4), 1), Scalar(W(0x32, 12, 4), 1), Scalar(W(0x33, 0, 1), 1),
    Scalar(W(0x33, 1, 1), 1), Scalar(W(0x33, 2, 1), 1), Scalar(W(0x33, 3, 1), 1), Scalar(W(0x33, 4, 4), 1),
    Scalar(W(0x33, 8, 6), 2), Scalar(W(0x33, 14, 2), 1)
  ]

  const WORDS_34_3F: Layout := [
    Scalar(Word(0x34), 4), Scalar(Word(0x35), 4), Scalar(Word(0x36), 4), Scalar(Word(0x37), 4),
    Scalar(Word(0x38), 4), Scalar(Word(0x39), 4), Scalar(Word(0x3A), 4), Scalar(Word(0x3B), 4),
    Scalar(Word(0x3C), 4), Scalar(Word(0x3D), 4), Scalar(Word(0x3E), 4), Scalar(CHECKSUM, 4)
  ]

  const FIRST_HALF: Layout := WORDS_00_09 + WORDS_0A_0F + WORDS_10_12 + WORDS_13_16 + WORDS_17_18
  const SECOND_HALF: Layout := WORDS_19_23 + WORDS_24_2F + WORDS_30_31 + WORDS_32_33 + WORDS_34_3F
  const GBE_LAYOUT: Layout := FIRST_HALF + SECOND_HALF + [Padding(PADDING)]

  lemma Words00To09Tile()
    ensures Tiles(WORDS_00_09, 0x0, 0xA0)
  {
    TilesByStep(WORDS_00_09, 0x0, 0xA0);
  }

  lemma Words0ATo0FTile()
    ensures Tiles(WORDS_0A_0F, 0xA0, 0x100)
  {
    TilesByStep(WORDS_0A_0F, 0xA0, 0x100);
  }

  lemma Words10To12Tile()
    ensures Tiles(WORDS_10_12, 0x100, 0x130)
  {
    TilesByStep(WORDS_10_12, 0x100, 0x130);
  }

  lemma Words13To16Tile()
    ensures Tiles(WORDS_13_16, 0x130, 0x170)
  {
    TilesByStep(WORDS_13_16, 0x130, 0x170);
  }

  lemma Words17To18Tile()
    ensures Tiles(WORDS_17_18, 0x170, 0x190)
  {
    TilesByStep(WORDS_17_18, 0x170, 0x190);
  }

  lemma Words19To23Tile()
    ensures Tiles(WORDS_19_23, 0x190, 0x240)
  {
    TilesByStep(WORDS_19_23, 0x190, 0x240);
  }

  lemma Words24To2FTile()
    ensures Tiles(WORDS_24_2F, 0x240, 0x300)
  {
    TilesByStep(WORDS_24_2F, 0x240, 0x300);
  }

  lemma Words30To31Tile()
    ensures Tiles(WORDS_30_31, 0x300, 0x320)
  {
    TilesByStep(WORDS_30_31, 0x300, 0x320);
  }

  lemma Words32To33Tile()
    ensures Tiles(WORDS_32_33, 0x320, 0x340)
  {
    TilesByStep(WORDS_32_33, 0x320, 0x340);
  }

  lemma Words34To3FTile()
    ensures Tiles(WORDS_34_3F, 0x340, 0x400)
  {
    TilesByStep(WORDS_34_3F, 0x340, 0x400);
  }

  lemma FirstHalfTiles()
    ensures Tiles(FIRST_HALF, 0x0, 0x190)
  {
    Words00To09Tile();
    Words0ATo0FTile();
    Words10To12Tile();
    Words13To16Tile();
    Words17To18Tile();
    TilesAppend(WORDS_00_09, WORDS_0A_0F,
                0x0, 0xA0, 0x100);
    TilesAppend(WORDS_00_09 + WORDS_0A_0F, WORDS_10_12,
                0x0, 0x100, 0x130);
    TilesAppend(WORDS_00_09 + WORDS_0A_0F + WORDS_10_12, WORDS_13_16,
                0x0, 0x130, 0x170);
    TilesAppend(WORDS_00_09 + WORDS_0A_0F + WORDS_10_12 + WORDS_13_16, WORDS_17_18,
                0x0, 0x170, 0x190);
  }

  lemma SecondHalfTiles()
    ensures Tiles(SECOND_HALF, 0x190, 0x400)
  {
    Words19To23Tile();
    Words24To2FTile();
    Words30To31Tile();
    Words32To33Tile();
    Words34To3FTile();
    TilesAppend(WORDS_19_23, WORDS_24_2F,
                0x190, 0x240, 0x300);
    TilesAppend(WORDS_19_23 + WORDS_24_2F, WORDS_30_31,
                0x190, 0x300, 0x320);
    TilesAppend(WORDS_19_23 + WORDS_24_2F + WORDS_30_31, WORDS_32_33,
                0x190, 0x320, 0x340);
    TilesAppend(WORDS_19_23 + WORDS_24_2F + WORDS_30_31 + WORDS_32_33, WORDS_34_3F,
                0x190, 0x340, 0x400);
  }

  /** Every bit of the record belongs to exactly one member. */
  lemma GbeTiles()
    ensures Tiles(GBE_LAYOUT, 0, 0x8000)
    ensures Inside(GBE_LAYOUT, 0x8000)
  {
    FirstHalfTiles();
    SecondHalfTiles();
    TilesAppend(FIRST_HALF, SECOND_HALF, 0, 0x190, 0x400);
    TilesByStep([Padding(PADDING)], 0x400, 0x8000);
    TilesAppend(FIRST_HALF + SECOND_HALF, [Padding(PADDING)], 0, 0x400, 0x8000);
    TilesInside(GBE_LAYOUT, 0, 0x8000);
  }

  lemma NothingDerived(s: Slot)
    requires s in GBE_LAYOUT
    ensures !s.Derived?
  {
    if s in FIRST_HALF {
      FirstHalfScalar(s);
    } else if s in SECOND_HALF {
      SecondHalfScalar(s);
    }
  }

  lemma FirstHalfScalar(s: Slot)
    requires s in FIRST_HALF
    ensures s.Scalar?
  {
    if s in WORDS_17_18 {
      LedScalar(s);
    }
  }

  lemma LedScalar(s: Slot)
    requires s in WORDS_17_18
    ensures s.Scalar?
  {
  }

  lemma SecondHalfScalar(s: Slot)
    requires s in SECOND_HALF
    ensures s.Scalar?
  {
    if s in WORDS_30_31 {
      BootAgentScalar(s);
    }
  }

  lemma BootAgentScalar(s: Slot)
    requires s in WORDS_30_31
    ensures s.Scalar?
  {
  }

  // ----- the generator -----

  function RecordProgram(g: Record): (p: Program)
    ensures Fits(p, 0x8000)
  {
    GbeTiles();
    EmittedCoversStruct(GBE_LAYOUT, g);
    Emit(GBE_LAYOUT, g)
  }

  /** The generated 8 KiB function: the 4 KiB one into main, then main into backup. */
  function RegionFrom(p: Program, m: Record): Record8K
    requires Fits(p, 0x8000)
  {
    Record8K(Run(p, Args(0, 0), m), Run(p, Args(0, 0), m))
  }

  /**
    The generator is a full inverse: for every record, the printed program rebuilds it bit for bit from
    any memory, whether its padding was printed as a loop or byte by byte.
    */
  lemma RecordRebuilt(g: Record, a: Args, m: Record)
    ensures Run(RecordProgram(g), a, m) == g
  {
    GbeTiles();
    EmittedCoversStruct(GBE_LAYOUT, g);
    forall s | s in GBE_LAYOUT
      ensures SlotHolds(s, g, a, g)
    {
      NothingDerived(s);
    }
    Regeneration(GBE_LAYOUT, g, a, m, g);
  }

  /** For a region whose two records agree the 8 KiB program rebuilds the region. */
  lemma RegionRebuilt(g: Record8K, m: Record)
    ensures RegionFrom(RecordProgram(g.backup), m) == g <==> g.main == g.backup
  {
    RecordRebuilt(g.backup, Args(0, 0), m);
  }

  lemma MembersFirst()
    ensures OnlyMembers(FIRST_HALF + SECOND_HALF)
  {
    forall s | s in FIRST_HALF + SECOND_HALF
      ensures s.Scalar?
    {
      if s in FIRST_HALF {
        FirstHalfScalar(s);
      } else {
        SecondHalfScalar(s);
      }
    }
  }

  /** The printing code of gbe.c: the members line by line, then the padding by the flag method. */
  method WriteRecordProgram(g: Record) returns (out: Program)
    ensures out == RecordProgram(g)
  {
    GbeTiles();
    MembersFirst();
    out := WriteWithPadding(FIRST_HALF + SECOND_HALF, PADDING, g);
  }

  // ----- the shipped lines -----

  const WORDS_00_09_LINES: Program := [
    Assign(MacByte(0), Hex(0, 2)), Assign(MacByte(1), Hex(0xF5, 2)), Assign(MacByte(2), Hex(0xF0, 2)),
    Assign(MacByte(3), Hex(0x40, 2)), Assign(MacByte(4), Hex(0x71, 2)), Assign(MacByte(5), Hex(0xFE, 2)),
    Assign(W(0x03, 0, 8), Hex(0, 2)), Assign(W(0x03, 8, 3), Hex(0, 1)), Assign(W(0x03, 11, 1), Hex(1, 1)),
    Assign(W(0x03, 12, 4), Hex(0, 1)), Assign(Word(0x04), Hex(0xFFFF, 4)), Assign(Word(0x05), Hex(0x1083, 4)),
    Assign(Word(0x06), Hex(0xFFFF, 4)), Assign(Word(0x07), Hex(0xFFFF, 4)), Assign(Word(0x08), Hex(0x1008, 4)),
    Assign(Word(0x09), Hex(0xFFFF, 4))
  ]

  const WORDS_0A_0F_LINES: Program := [
    Assign(W(0x0A, 0, 1), Hex(1, 1)), Assign(W(0x0A, 1, 1), Hex(1, 1)), Assign(W(0x0A, 2, 1), Hex(0, 1)),
    Assign(W(0x0A, 3, 3), Hex(0, 1)), Assign(W(0x0A, 6, 1), Hex(1, 1)), Assign(W(0x0A, 7, 1), Hex(1, 1)),
    Assign(W(0x0A, 8, 4), Hex(0, 1)), Assign(W(0x0A, 12, 4), Hex(1, 1)), Assign(Word(0x0B), Hex(0x20EE, 4)),
    Assign(Word(0x0C), Hex(0x17AA, 4)), Assign(Word(0x0D), Hex(0x10F5, 4)), Assign(Word(0x0E), Hex(0x8086, 4)),
    Assign(Word(0x0F), Hex(0, 4))
  ]

  const WORDS_10_12_LINES: Program := [
    Assign(W(0x10, 0, 5), Hex(1, 2)), Assign(W(0x10, 5, 3), Hex(0, 1)), Assign(W(0x10, 8, 8), Hex(0xD, 2)),
    Assign(Word(0x11), Hex(0, 4)), Assign(Word(0x12), Hex(0, 4))
  ]

  const WORDS_13_16_LINES: Program := [
    Assign(W(0x13, 0, 3), Hex(5, 1)), Assign(W(0x13, 3, 1), Hex(0, 1)), Assign(W(0x13, 4, 1), Hex(0, 1)),
    Assign(W(0x13, 5, 3), Hex(0, 1)), Assign(W(0x13, 8, 1), Hex(0, 1)), Assign(W(0x13, 9, 1), Hex(1, 1)),
    Assign(W(0x13, 10, 1), Hex(1, 1)), Assign(W(0x13, 11, 3), Hex(0, 1)), Assign(W(0x13, 14, 2), Hex(2, 1)),
    Assign(W(0x14, 0, 12), Hex(0x20, 3)), Assign(W(0x14, 12, 1), Hex(1, 1)), Assign(W(0x14, 13, 1), Hex(1, 1)),
    Assign(W(0x14, 14, 1), Hex(0, 1)), Assign(W(0x14, 15, 1), Hex(0, 1)), Assign(W(0x15, 0, 8), Hex(0, 2)),
    Assign(W(0x15, 8, 8), Hex(0xA, 2)), Assign(Word(0x16), Hex(0, 4))
  ]

  const WORDS_17_18_LINES: Program := [
    Assign(W(0x17, 0, 4), Hex(0xB, 1)), Assign(W(0x17, 4, 1), Hex(0, 1)), Assign(W(0x17, 5, 1), Hex(0, 1)),
    Assign(W(0x17, 6, 1), Hex(0, 1)), Assign(W(0x17, 7, 1), Hex(1, 1)), Assign(W(0x17, 8, 1), Hex(1, 1)),
    Assign(W(0x17, 9, 1), Hex(0, 1)), Assign(W(0x17, 10, 1), Hex(1, 1)), Assign(W(0x17, 11, 1), Hex(1, 1)),
    Assign(W(0x17, 12, 2), Hex(0, 1)), Assign(W(0x17, 14, 1), Hex(0, 1)), Assign(W(0x17, 15, 1), Hex(1, 1)),
    Assign(W(0x18, 0, 4), Hex(2, 1)), Assign(W(0x18, 4, 1), Hex(0, 1)), Assign(W(0x18, 5, 1), Hex(0, 1)),
    Assign(W(0x18, 6, 1), Hex(0, 1)), Assign(W(0x18, 7, 1), Hex(0, 1)), Assign(W(0x18, 8, 4), Hex(6, 1)),
    Assign(W(0x18, 12, 1), Hex(0, 1)), Assign(W(0x18, 13, 1), Hex(0, 1)), Assign(W(0x18, 14, 1), Hex(0, 1)),
    Assign(W(0x18, 15, 1), Hex(0, 1))
  ]

  const WORDS_19_23_LINES: Program := [
    Assign(Word(0x19), Hex(0x2B40, 4)), Assign(Word(0x1A), Hex(0x43, 4)), Assign(Word(0x1B), Hex(0, 4)),
    Assign(Word(0x1C), Hex(0x10F5, 4)), Assign(Word(0x1D), Hex(0xBAAD, 4)), Assign(Word(0x1E), Hex(0x10F5, 4)),
    Assign(Word(0x1F), Hex(0x10BF, 4)), Assign(Word(0x20), Hex(0xBAAD, 4)), Assign(Word(0x21), Hex(0x10CB, 4)),
    Assign(Word(0x22), Hex(0xBAAD, 4)), Assign(Word(0x23), Hex(0xBAAD, 4))
  ]

  const WORDS_24_2F_LINES: Program := [
    Assign(Word(0x24), Hex(0, 4)), Assign(Word(0x25), Hex(0, 4)), Assign(Word(0x26), Hex(0, 4)),
    Assign(Word(0x27), Hex(0, 4)), Assign(Word(0x28), Hex(0, 4)), Assign(Word(0x29), Hex(0, 4)),
    Assign(Word(0x2A), Hex(0, 4)), Assign(Word(0x2B), Hex(0, 4)), Assign(Word(0x2C), Hex(0, 4)),
    Assign(Word(0x2D), Hex(0, 4)), Assign(Word(0x2E), Hex(0, 4)), Assign(Word(0x2F), Hex(0, 4))
  ]

  const WORDS_30_31_LINES: Program := [
    Assign(W(0x30, 0, 2), Hex(0, 1)), Assign(W(0x30, 2, 1), Hex(0, 1)), Assign(W(0x30, 3, 2), Hex(0, 1)),
    Assign(W(0x30, 5, 1), Hex(0, 1)), Assign(W(0x30, 6, 2), Hex(0, 1)), Assign(W(0x30, 8, 1), Hex(1, 1)),
    Assign(W(0x30, 9, 1), Hex(0, 1)), Assign(W(0x30, 10, 2), Hex(0, 1)), Assign(W(0x30, 12, 1), Hex(0, 1)),
    Assign(W(0x30, 13, 1), Hex(0, 1)), Assign(W(0x30, 14, 1), Hex(0, 1)), Assign(W(0x30, 15, 1), Hex(0, 1)),
    Assign(W(0x31, 0, 1), Hex(0, 1)), Assign(W(0x31, 1, 1), Hex(0, 1)), Assign(W(0x31, 2, 1), Hex(0, 1)),
    Assign(W(0x31, 3, 1), Hex(0, 1)), Assign(W(0x31, 4, 1), Hex(0, 1)), Assign(W(0x31, 5, 1), Hex(0, 1)),
    Assign(W(0x31, 6, 2), Hex(0, 1)), Assign(W(0x31, 8, 3), Hex(0, 1)), Assign(W(0x31, 11, 3), Hex(0, 1)),
    Assign(W(0x31, 14, 2), Hex(1, 1))
  ]

  const WORDS_32_33_LINES: Program := [
    Assign(W(0x32, 0, 8), Hex(0x18, 2)), Assign(W(0x32, 8, 4), Hex(3, 1)), Assign(W(0x32, 12, 4), Hex(1, 1)),
    Assign(W(0x33, 0, 1), Hex(1, 1)), Assign(W(0x33, 1, 1), Hex(1, 1)), Assign(W(0x33, 2, 1), Hex(1, 1)),
    Assign(W(0x33, 3, 1), Hex(0, 1)), Assign(W(0x33, 4, 4), Hex(0, 1)), Assign(W(0x33, 8, 6), Hex(0, 2)),
    Assign(W(0x33, 14, 2), Hex(1, 1))
  ]

  const WORDS_34_3F_LINES: Program := [
    Assign(Word(0x34), Hex(0xFFFF, 4)), Assign(Word(0x35), Hex(0xFFFF, 4)), Assign(Word(0x36), Hex(0xFFFF, 4)),
    Assign(Word(0x37), Hex(0xFFFF, 4)), Assign(Word(0x38), Hex(0xFFFF, 4)), Assign(Word(0x39), Hex(0xFFFF, 4)),
    Assign(Word(0x3A), Hex(0xFFFF, 4)), Assign(Word(0x3B), Hex(0xFFFF, 4)), Assign(Word(0x3C), Hex(0xFFFF, 4)),
    Assign(Word(0x3D), Hex(0xFFFF, 4)), Assign(Word(0x3E), Hex(0xFFFF, 4)), Assign(CHECKSUM, Hex(0x348A, 4))
  ]

  const FIRST_LINES: Program :=
    WORDS_00_09_LINES + WORDS_0A_0F_LINES + WORDS_10_12_LINES + WORDS_13_16_LINES + WORDS_17_18_LINES
  const SECOND_LINES: Program :=
    WORDS_19_23_LINES + WORDS_24_2F_LINES + WORDS_30_31_LINES + WORDS_32_33_LINES + WORDS_34_3F_LINES
  const MKGBE: Program := FIRST_LINES + SECOND_LINES + [Fill(PADDING)]

  lemma Words00To09Written()
    ensures WrittenFor(WORDS_00_09, WORDS_00_09_LINES)
  {
    Pow2Values();
  }

  lemma Words0ATo0FWritten()
    ensures WrittenFor(WORDS_0A_0F, WORDS_0A_0F_LINES)
  {
    Pow2Values();
  }

  lemma Words10To12Written()
    ensures WrittenFor(WORDS_10_12, WORDS_10_12_LINES)
  {
    Pow2Values();
  }

  lemma Words13To16Written()
    ensures WrittenFor(WORDS_13_16, WORDS_13_16_LINES)
  {
    Pow2Values();
  }

  lemma Words17To18Written()
    ensures WrittenFor(WORDS_17_18, WORDS_17_18_LINES)
  {
    assert Pow2(1) == 2 && Pow2(2) == 4 && Pow2(3) == 8 && Pow2(4) == 16 by { Pow2Values(); }
  }

  lemma Words19To23Written()
    ensures WrittenFor(WORDS_19_23, WORDS_19_23_LINES)
  {
    Pow2Values();
  }

  lemma Words24To2FWritten()
    ensures WrittenFor(WORDS_24_2F, WORDS_24_2F_LINES)
  {
    Pow2Values();
  }

  lemma Words30To31Written()
    ensures WrittenFor(WORDS_30_31, WORDS_30_31_LINES)
  {
    assert Pow2(1) == 2 && Pow2(2) == 4 && Pow2(3) == 8 && Pow2(4) == 16 by { Pow2Values(); }
  }

  lemma Words32To33Written()
    ensures WrittenFor(WORDS_32_33, WORDS_32_33_LINES)
  {
    Pow2Values();
  }

  lemma Words34To3FWritten()
    ensures WrittenFor(WORDS_34_3F, WORDS_34_3F_LINES)
  {
    Pow2Values();
  }

  lemma ShippedGbeWritten()
    ensures WrittenFor(GBE_LAYOUT, MKGBE)
  {
    FirstLinesWritten();
    SecondLinesWritten();
    WrittenGrow(FIRST_HALF, FIRST_LINES, SECOND_HALF, SECOND_LINES, PADDING);
  }

  lemma FirstLinesWritten()
    ensures WrittenFor(FIRST_HALF, FIRST_LINES)
  {
    Words00To09Written();
    Words0ATo0FWritten();
    Words10To12Written();
    Words13To16Written();
    Words17To18Written();
    WrittenAppend(WORDS_00_09,
                  WORDS_00_09_LINES, WORDS_0A_0F, WORDS_0A_0F_LINES);
    WrittenAppend(WORDS_00_09 + WORDS_0A_0F,
                  WORDS_00_09_LINES + WORDS_0A_0F_LINES, WORDS_10_12, WORDS_10_12_LINES);
    WrittenAppend(WORDS_00_09 + WORDS_0A_0F + WORDS_10_12,
                  WORDS_00_09_LINES + WORDS_0A_0F_LINES + WORDS_10_12_LINES, WORDS_13_16, WORDS_13_16_LINES);
    WrittenAppend(WORDS_00_09 + WORDS_0A_0F + WORDS_10_12 + WORDS_13_16,
                  WORDS_00_09_LINES + WORDS_0A_0F_LINES + WORDS_10_12_LINES + WORDS_13_16_LINES,
                  WORDS_17_18, WORDS_17_18_LINES);
  }

  lemma SecondLinesWritten()
    ensures WrittenFor(SECOND_HALF, SECOND_LINES)
  {
    Words19To23Written();
    Words24To2FWritten();
    Words30To31Written();
    Words32To33Written();
    Words34To3FWritten();
    WrittenAppend(WORDS_19_23,
                  WORDS_19_23_LINES, WORDS_24_2F, WORDS_24_2F_LINES);
    WrittenAppend(WORDS_19_23 + WORDS_24_2F,
                  WORDS_19_23_LINES + WORDS_24_2F_LINES, WORDS_30_31, WORDS_30_31_LINES);
    WrittenAppend(WORDS_19_23 + WORDS_24_2F + WORDS_30_31,
                  WORDS_19_23_LINES + WORDS_24_2F_LINES + WORDS_30_31_LINES, WORDS_32_33, WORDS_32_33_LINES);
    WrittenAppend(WORDS_19_23 + WORDS_24_2F + WORDS_30_31 + WORDS_32_33,
                  WORDS_19_23_LINES + WORDS_24_2F_LINES + WORDS_30_31_LINES + WORDS_32_33_LINES,
                  WORDS_34_3F, WORDS_34_3F_LINES);
  }

  lemma ShippedGbeTiled()
    ensures Fits(MKGBE, 0x8000) && Tiled(MKGBE, 0, 0x8000)
  {
    ShippedGbeWritten();
    GbeTiles();
    WrittenTiled(GBE_LAYOUT, MKGBE, 0, 0x8000);
    TiledFits(MKGBE, 0, 0x8000);
  }

  /** generatedGbeStruct4k(), on uninitialised memory m. */
  function GeneratedRecord(m: Record): Record {
    ShippedGbeTiled();
    Run(MKGBE, Args(0, 0), m)
  }

  method CopyRecord(from: array<bool>, to: array<bool>)
    requires from.Length == to.Length && from != to
    modifies to
    ensures to[..] == from[..] == old(from[..])
  {
    forall k | 0 <= k < from.Length {
      to[k] := from[k];
    }
  }

  /** mkgbe.c: the record built in place in main, then copied to the backup. */
  method GeneratedGbeStruct8k(main: array<bool>, backup: array<bool>)
    requires main.Length == 0x8000 && backup.Length == 0x8000 && main != backup
    modifies main, backup
    ensures main[..] == backup[..] == GeneratedRecord(old(main[..]))
  {
    GenerateRecord(main);
    CopyRecord(main, backup);
  }

  method GenerateRecord(main: array<bool>)
    requires main.Length == 0x8000
    modifies main
    ensures main[..] == GeneratedRecord(old(main[..]))
  {
    ShippedGbeTiled();
    Execute(MKGBE, Args(0, 0), main);
  }

  /** Printing the generated record gives the shipped program back. */
  lemma ShippedGbeReproducesItself(m: Record)
    ensures RecordProgram(GeneratedRecord(m)) == MKGBE
  {
    ShippedGbeWritten();
    GbeTiles();
    SelfReproduction(GBE_LAYOUT, MKGBE, Args(0, 0), m);
  }
}
