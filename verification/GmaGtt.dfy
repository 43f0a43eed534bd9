/**
  The graphics translation table of the i945, filled through a pair of I/O ports: the first write selects
  an entry, the second one sets it.  The table maps 4 KiB pages of graphics addresses to memory.
  */
module GmaGtt {
  import opened Words
  import opened GmaDivisors
  import opened HexText

  const PAGE: nat := 0x1000
  const ENTRIES: nat := 0x2000

  /** What the driver adds to the base it is given. */
  const OFFSET: nat := 0x20000

  /** Where a graphics address lands: the valid bit is bit 0 of the entry, the page its upper 20 bits. */
  function Translate(table: map<nat, nat>, a: nat): Option<nat> {
    if a / PAGE in table && table[a / PAGE] % 2 == 1
    then Some(table[a / PAGE] / PAGE * PAGE + a % PAGE)
    else None
  }

  /** The word written for entry i. */
  function Entry(base: nat, i: nat): nat { Add32(Add32(base, Shl32(i, 12)), 1) }

  /** The index the code writes for entry i. */
  function Index(i: nat): nat { Or(Shl32(i, 2), 1) }

  /** How the port reads an index: bit 0 selects the table, the upper bits its entry. */
  predicate SelectsTable(v: nat) { v % 2 == 1 }
  function Selected(v: nat): nat { v / 4 }

  class Gtt {
    var index: nat
    var table: map<nat, nat>

    constructor ()
      ensures index == 0 && table == map[]
    {
      index, table := 0, map[];
    }

    method OutIndex(v: nat)
      modifies this
      ensures index == v && table == old(table)
    {
      index := v;
    }

    /** An index that does not select the table leaves the table alone. */
    method OutData(v: nat)
      modifies this
      ensures index == old(index)
      ensures table == if SelectsTable(index) then old(table)[Selected(index) := v] else old(table)
    {
      if SelectsTable(index) {
        table := table[Selected(index) := v];
      }
    }

    /** One entry: its index to the one port, its word to the other. */
    method WriteEntry(base: u32, i: nat)
      requires i < ENTRIES
      modifies this
      ensures index == Index(i) && table == old(table)[i := Entry(base, i)]
    {
      IndexSelects(i);
      OutIndex(Or(Shl32(i, 2), 1));
      OutData(Add32(Add32(base, Shl32(i, 12)), 1));
    }

    /** The loop over all entries. */
    method FillTable(base: u32)
      modifies this
      ensures forall i: nat :: i in table <==> i in old(table) || i < ENTRIES
      ensures Filled(table, base)
      ensures forall i :: i in old(table) && ENTRIES <= i ==> table[i] == old(table)[i]
      ensures index == Index(ENTRIES - 1)
    {
      var i := 0;
      while i < ENTRIES
        invariant i <= ENTRIES && (i > 0 ==> index == Index(i - 1))
        invariant forall k: nat :: k in table <==> k in old(table) || k < i
        invariant forall k :: 0 <= k < i ==> table[k] == Entry(base, k)
        invariant forall k :: k in old(table) && i <= k ==> table[k] == old(table)[k]
      {
        WriteEntry(base, i);
        i := i + 1;
      }
    }

    /** The offset the driver adds, and the loop; the index port is left at the last entry. */
    method SetupTable(physBase: u32)
      modifies this
      ensures forall i: nat :: i in table <==> i in old(table) || i < ENTRIES
      ensures Filled(table, Add32(physBase, OFFSET))
      ensures forall i :: i in old(table) && ENTRIES <= i ==> table[i] == old(table)[i]
      ensures Linear(table, Add32(physBase, OFFSET)) <==> physBase % PAGE == 0
      ensures InNumbers(table, physBase)
      ensures index == 4 * 0x1FFF + 1
    {
      FillTable(Add32(physBase, OFFSET));
      LinearFromPhysBase(table, physBase);
      FilledWords(table, physBase);
      IndexIs(ENTRIES - 1);
    }
  }

  lemma IndexSelects(i: nat)
    requires i < ENTRIES
    ensures SelectsTable(Index(i)) && Selected(Index(i)) == i
  {
    IndexIs(i);
    OddWord(Index(i), 2 * i);
    DivModUnique(Index(i), 4, i, 1);
  }

  lemma IndexIs(i: nat)
    requires i < ENTRIES
    ensures Index(i) == i * 4 + 1
  {
    assert Pow2(2) == 4;
    TwoFields(i, 1, 2);
  }

  lemma OffsetKeepsAlignment(physBase: u32)
    ensures Add32(physBase, OFFSET) % PAGE == physBase % PAGE
  {
  }

  /** The 32 MiB behind the table are base plus address, wrapping at 4 GiB, all of them valid. */
  ghost predicate Linear(table: map<nat, nat>, base: nat) {
    forall a: nat :: a < ENTRIES * PAGE ==> Translate(table, a) == Some(Add32(base, a))
  }

  ghost predicate Filled(table: map<nat, nat>, base: nat) {
    forall i :: 0 <= i < ENTRIES ==> i in table && table[i] == Entry(base, i)
  }

  lemma ShiftedIndex(i: nat)
    requires i < ENTRIES
    ensures Shl32(i, 12) == i * PAGE
  {
    assert Pow2(12) == PAGE;
    ShlFits(i, 12);
  }

  /** On a page-aligned base an entry is its page plus the valid bit: the + 1 never carries. */
  lemma AlignedEntry(base: u32, i: nat)
    requires base % PAGE == 0 && i < ENTRIES
    ensures Entry(base, i) == Add32(base, i * PAGE) + 1
    ensures Add32(base, i * PAGE) % PAGE == 0
  {
    ShiftedIndex(i);
    AddPages(base / PAGE, i);
  }

  lemma AddPages(p: nat, i: nat)
    ensures Add32(p * PAGE, i * PAGE) == (p + i) % 0x10_0000 * PAGE
  {
    var q, r := (p + i) / 0x10_0000, (p + i) % 0x10_0000;
    DivModUnique(p * PAGE + i * PAGE, U32, q, r * PAGE);
  }

  lemma AlignedTranslates(table: map<nat, nat>, base: u32, a: nat)
    requires Filled(table, base) && base % PAGE == 0 && a < ENTRIES * PAGE
    ensures Translate(table, a) == Some(Add32(base, a))
  {
    var i, low := a / PAGE, a % PAGE;
    AlignedEntry(base, i);
    var frame := Add32(base, i * PAGE);
    EntryReads(table[i], frame / PAGE);
    InFrame(base + i * PAGE, low);
  }

  lemma EntryReads(entry: nat, page: nat)
    requires entry == page * PAGE + 1
    ensures entry / PAGE == page && entry % 2 == 1
  {
    DivModUnique(entry, PAGE, page, 1);
    OddWord(entry, page * 0x800);
  }

  lemma OddWord(entry: nat, half: nat)
    requires entry == 2 * half + 1
    ensures entry % 2 == 1
  {
  }

  /** Within a page, the address behind the wrap at 4 GiB stays in the wrapped page. */
  lemma InFrame(x: nat, low: nat)
    requires x % PAGE == 0 && low < PAGE
    ensures (x + low) % U32 == x % U32 + low
  {
    DivModUnique(x + low, U32, x / U32, x % U32 + low);
  }

  /** The table is linear exactly when the base is page-aligned. */
  lemma LinearExactly(table: map<nat, nat>, base: u32)
    requires Filled(table, base)
    ensures Linear(table, base) <==> base % PAGE == 0
  {
    if base % PAGE == 0 {
      forall a: nat | a < ENTRIES * PAGE
        ensures Translate(table, a) == Some(Add32(base, a))
      {
        AlignedTranslates(table, base, a);
      }
    } else {
      MisalignedFails(table, base);
    }
  }

  /** The offset is a whole number of pages. */
  lemma LinearFromPhysBase(table: map<nat, nat>, physBase: u32)
    requires Filled(table, Add32(physBase, OFFSET))
    ensures Linear(table, Add32(physBase, OFFSET)) <==> physBase % PAGE == 0
  {
    OffsetKeepsAlignment(physBase);
    LinearExactly(table, Add32(physBase, OFFSET));
  }

  /** The entries, and for a page-aligned base the map of the 32 MiB behind them, in plain numbers. */
  ghost predicate InNumbers(table: map<nat, nat>, physBase: u32) {
    && (forall i: nat :: i < 0x2000 ==>
          i in table && table[i] == (physBase + 0x2_0001 + 0x1000 * i) % 0x1_0000_0000)
    && (physBase % 0x1000 == 0 ==> forall a: nat :: a < 0x200_0000 ==>
          Translate(table, a) == Some((physBase + 0x2_0000 + a) % 0x1_0000_0000))
  }

  lemma FilledWords(table: map<nat, nat>, physBase: u32)
    requires Filled(table, Add32(physBase, OFFSET))
    ensures InNumbers(table, physBase)
  {
    forall i: nat | i < 0x2000
      ensures i in table && table[i] == (physBase + 0x2_0001 + 0x1000 * i) % 0x1_0000_0000
    {
      ShiftedIndex(i);
      EntryWord(physBase, i * PAGE);
    }
    if physBase % 0x1000 == 0 {
      LinearFromPhysBase(table, physBase);
      forall a: nat | a < 0x200_0000
        ensures Translate(table, a) == Some((physBase + 0x2_0000 + a) % 0x1_0000_0000)
      {
        WrappedSum(physBase, a);
      }
    }
  }

  lemma EntryWord(physBase: u32, x: nat)
    ensures Add32(Add32(Add32(physBase, OFFSET), x), 1) == (physBase + 0x2_0001 + x) % 0x1_0000_0000
  {
    AddOnce(Add32(physBase, OFFSET), x);
    WrappedSum(physBase, x + 1);
  }

  lemma WrappedSum(physBase: u32, x: nat)
    ensures Add32(Add32(physBase, OFFSET), x) == (physBase + 0x2_0000 + x) % 0x1_0000_0000
  {
  }

  lemma MisalignedFails(table: map<nat, nat>, base: u32)
    requires Filled(table, base) && base % PAGE != 0
    ensures Translate(table, 0) != Some(Add32(base, 0))
  {
    ShiftedIndex(0);
    assert table[0] == (base + 1) % U32;
    MisalignedEntry(base);
  }

  /** The base is read back without its low bits, and not at all if it is odd. */
  lemma MisalignedEntry(base: u32)
    requires base % PAGE != 0
    ensures var e := (base + 1) % U32; e % 2 == 0 || e / PAGE * PAGE != base
  {
  }

  /** No two graphics pages share a page of memory. */
  lemma EntriesDistinct(base: u32, i: nat, j: nat)
    requires i < j < ENTRIES
    ensures Entry(base, i) != Entry(base, j)
  {
    ShiftedIndex(i);
    ShiftedIndex(j);
    AddOnce(base, i * PAGE);
    AddOnce(base, j * PAGE);
    NotCongruent(base + i * PAGE + 1, base + j * PAGE + 1);
  }

  lemma AddOnce(base: nat, x: nat)
    ensures Add32(Add32(base, x), 1) == (base + x + 1) % U32
  {
  }

  lemma NotCongruent(x: nat, y: nat)
    requires x < y < x + U32
    ensures x % U32 != y % U32
  {
    assert x == x / U32 * U32 + x % U32;
    assert y == y / U32 * U32 + y % U32;
  }

  /** A linear table never maps two graphics addresses to one memory address. */
  lemma LinearInjective(table: map<nat, nat>, base: u32, a: nat, b: nat)
    requires Linear(table, base) && a < b < ENTRIES * PAGE
    ensures Translate(table, a) != Translate(table, b)
  {
    assert Translate(table, a) == Some(Add32(base, a));
    assert Translate(table, b) == Some(Add32(base, b));
    NotCongruent(base + a, base + b);
  }
}
