/**
  The descriptor that ich9gen generates, as numbers: the 32-bit registers for every ROM size, with and
  without GbE, and 0xFF everywhere else.  The shipped program assigns about 150 members one by one; here
  they are seen from the other side, put together.
  */
module GeneratedBytes {
  import opened Words
  import opened Memory
  import opened EmittedC
  import opened DescriptorLayout
  import opened Descriptor
  import opened MkDescriptor
  import opened FlashRegions
  import opened RomBytes
  import opened DescriptorBytes

  predicate RegisterReads(g: Region, at: nat, v: nat)
  {
    at + 4 <= 0x1000 && Get(g, Reg(at, 0, 32)) == v
  }

  // ----- registers from lines -----

  /** The member values a program's lines assign: the printed constant, or what g has. */
  function ValueOf(s: Stmt, g: Region): nat {
    if s.Assign? && s.rhs.Hex? then s.rhs.printed else if s.f.In(g) then Get(g, s.f) else 0
  }

  /** The lines assign adjacent members from byte `at` on for 32 bits, constants that fit. */
  predicate Fills(ls: Program, at: nat) {
    && ls != [] && at + 4 <= 0x1000 && ls[0].f.off == 8 * at && ls[|ls| - 1].f.End() == 8 * at + 32
    && (forall i :: 0 < i < |ls| ==> ls[i].f.off == ls[i - 1].f.End())
    && (forall i :: 0 <= i < |ls| ==> Assigns(ls[i]))
  }

  predicate Assigns(s: Stmt) {
    s.Assign? && s.f.End() <= 0x8000 && (s.rhs.Hex? ==> s.rhs.printed < Pow2(s.f.width))
  }

  /** Each total is the value of the register from that member up. */
  predicate AddsUp(ls: Program, totals: seq<nat>, g: Region) {
    && |totals| == |ls| + 1 && totals[|ls|] == 0
    && forall i :: 0 <= i < |ls| ==> totals[i] == ValueOf(ls[i], g) + Pow2(ls[i].f.width) * totals[i + 1]
  }

  predicate AllShipped(ls: Program) { forall s :: s in ls ==> s in MKDESCRIPTOR }

  predicate LinesRead(ls: Program, g: Region) {
    forall i :: 0 <= i < |ls| ==> ls[i].f.In(g) && Get(g, ls[i].f) == ValueOf(ls[i], g)
  }

  /** Members that follow each other, read together. */
  lemma {:induction false} Joined(ls: Program, totals: seq<nat>, g: Region, at: nat, n: nat)
    requires Fills(ls, at) && AddsUp(ls, totals, g) && LinesRead(ls, g) && n < |ls|
    ensures ls[n].f.off <= 8 * at + 32 && Get(g, Field(ls[n].f.off, 8 * at + 32 - ls[n].f.off)) == totals[n]
    decreases |ls| - n
  {
    var f := ls[n].f;
    assert totals[n] == ValueOf(ls[n], g) + Pow2(f.width) * totals[n + 1];
    if n + 1 < |ls| {
      Joined(ls, totals, g, at, n + 1);
      assert ls[n + 1].f.off == ls[(n + 1) - 1].f.End();
      JoinedStep(g, f, 8 * at + 32);
    }
  }

  lemma JoinedStep(g: Region, f: Field, end: nat)
    requires f.End() <= end <= 0x8000
    ensures Get(g, Field(f.off, end - f.off)) == Get(g, f) + Pow2(f.width) * Get(g, Field(f.End(), end - f.End()))
  {
    GetJoined(g, f.off, f.width, end - f.End());
  }

  lemma ShippedValue(s: Stmt, a: Args, m: Region)
    requires s in MKDESCRIPTOR && Assigns(s)
    ensures s.f.In(m) && Get(Generated(a, m), s.f) == ValueOf(s, Generated(a, m))
  {
    if s.rhs.Hex? {
      GeneratedReads(a, m, s.f, s.rhs.printed, s.rhs.digits);
    }
  }

  lemma ShippedReads(ls: Program, at: nat, a: Args, m: Region)
    requires Fills(ls, at) && AllShipped(ls)
    ensures LinesRead(ls, Generated(a, m))
  {
    forall i | 0 <= i < |ls|
      ensures ls[i].f.In(m) && Get(Generated(a, m), ls[i].f) == ValueOf(ls[i], Generated(a, m))
    {
      assert ls[i] in ls && Assigns(ls[i]);
      ShippedValue(ls[i], a, m);
    }
  }

  // ----- the derived members -----

  lemma NrGenerated(a: Args, m: Region)
    ensures Get(Generated(a, m), NR) == if a.hasGbe != 0 then 2 else 1
  {
    GeneratedMatches(a, m);
  }

  lemma DensitiesGenerated(a: Args, m: Region)
    ensures Get(Generated(a, m), DENSITY1) == ComponentDensity(a.romSize) == Get(Generated(a, m), DENSITY2)
  {
    GeneratedMatches(a, m);
  }

  lemma StrapsGenerated(a: Args, m: Region)
    ensures Get(Generated(a, m), INTEGRATED_GBE) == Bit(a.hasGbe != 0) == Get(Generated(a, m), LAN_PHY)
  {
    GeneratedMatches(a, m);
  }

  lemma BiosGenerated(a: Args, m: Region)
    ensures Get(Generated(a, m), Base(FLREG1)) == if a.hasGbe != 0 then 3 else 1
    ensures Get(Generated(a, m), Limit(FLREG1)) == LastPage(a.romSize) % 0x2000
  {
    GeneratedMatches(a, m);
  }

  lemma GbeGenerated(a: Args, m: Region)
    ensures Get(Generated(a, m), Base(FLREG3)) == if a.hasGbe != 0 then 1 else 0x1FFF
    ensures Get(Generated(a, m), Limit(FLREG3)) == if a.hasGbe != 0 then 2 else 0
  {
    GeneratedMatches(a, m);
  }

  // ----- the registers -----

  lemma FlMap0Register(a: Args, m: Region, nr: nat)
    requires nr == if a.hasGbe != 0 then 2 else 1
    ensures RegisterReads(Generated(a, m), 0x04, 0x40001 + 0x1000000 * nr)
  {
    FlMap0Shipped();
    ShippedReads(FLMAP0_LINES, 0x04, a, m);
    NrGenerated(a, m);
    FlMap0Of(Generated(a, m), nr);
  }

  lemma FlMap0Of(g: Region, nr: nat)
    requires Fills(FLMAP0_LINES, 0x04) && LinesRead(FLMAP0_LINES, g)
    requires Get(g, NR) == nr
    ensures RegisterReads(g, 0x04, 0x40001 + 0x1000000 * nr)
  {
    Pow2Values();
    var totals := [
      0x40001 + 0x1000000 * nr, 0x400 + 0x10000 * nr, 0x100 + 0x4000 * nr, 0x4 + 0x100 * nr, nr, 0x0, 0x0
    ];
    assert AddsUp(FLMAP0_LINES, totals, g);
    Joined(FLMAP0_LINES, totals, g, 0x04, 0);
  }

  lemma FlMap0Shipped()
    ensures AllShipped(FLMAP0_LINES) && Fills(FLMAP0_LINES, 0x04)
  {
    Pow2Values();
    assert forall s :: s in FLMAP0_LINES ==> s in HEAD_LINES;
    InShipped();
  }

  lemma FlMap1Register(a: Args, m: Region)
    ensures RegisterReads(Generated(a, m), 0x08, 0x2100206)
  {
    FlMap1Shipped();
    ShippedReads(FLMAP1_LINES, 0x08, a, m);
    FlMap1Of(Generated(a, m));
  }

  lemma FlMap1Of(g: Region)
    requires Fills(FLMAP1_LINES, 0x08) && LinesRead(FLMAP1_LINES, g)
    ensures RegisterReads(g, 0x08, 0x2100206)
  {
    Pow2Values();
    var totals := [0x2100206, 0x21002, 0x4200, 0x210, 0x2, 0x0];
    assert AddsUp(FLMAP1_LINES, totals, g);
    Joined(FLMAP1_LINES, totals, g, 0x08, 0);
  }

  lemma FlMap1Shipped()
    ensures AllShipped(FLMAP1_LINES) && Fills(FLMAP1_LINES, 0x08)
  {
    Pow2Values();
    assert forall s :: s in FLMAP1_LINES ==> s in HEAD_LINES;
    InShipped();
  }

  lemma FlMap2Register(a: Args, m: Region)
    ensures RegisterReads(Generated(a, m), 0x0C, 0x120)
  {
    FlMap2Shipped();
    ShippedReads(FLMAP2_LINES, 0x0C, a, m);
    FlMap2Of(Generated(a, m));
  }

  lemma FlMap2Of(g: Region)
    requires Fills(FLMAP2_LINES, 0x0C) && LinesRead(FLMAP2_LINES, g)
    ensures RegisterReads(g, 0x0C, 0x120)
  {
    Pow2Values();
    var totals := [0x120, 0x1, 0x0, 0x0];
    assert AddsUp(FLMAP2_LINES, totals, g);
    Joined(FLMAP2_LINES, totals, g, 0x0C, 0);
  }

  lemma FlMap2Shipped()
    ensures AllShipped(FLMAP2_LINES) && Fills(FLMAP2_LINES, 0x0C)
  {
    Pow2Values();
    assert forall s :: s in FLMAP2_LINES ==> s in HEAD_LINES;
    InShipped();
  }

  lemma FlCompRegister(a: Args, m: Region, density: nat)
    requires density == ComponentDensity(a.romSize)
    ensures RegisterReads(Generated(a, m), 0x10, 0x300000 + 0x9 * density)
  {
    FlCompShipped();
    ShippedReads(FLCOMP_LINES, 0x10, a, m);
    DensitiesGenerated(a, m);
    FlCompOf(Generated(a, m), density);
  }

  lemma FlCompOf(g: Region, density: nat)
    requires Fills(FLCOMP_LINES, 0x10) && LinesRead(FLCOMP_LINES, g)
    requires Get(g, DENSITY1) == density && Get(g, DENSITY2) == density
    ensures RegisterReads(g, 0x10, 0x300000 + 0x9 * density)
  {
    var totals := [
      0x300000 + 0x9 * density, 0x60000 + density, 0xC000, 0x3000, 0x30, 0x18, 0x3, 0x1, 0x0, 0x0, 0x0, 0x0
    ];
    FlCompSum(totals, g, density);
    Joined(FLCOMP_LINES, totals, g, 0x10, 0);
  }

  lemma FlCompSum(totals: seq<nat>, g: Region, density: nat)
    requires totals == [
      0x300000 + 0x9 * density, 0x60000 + density, 0xC000, 0x3000, 0x30, 0x18, 0x3, 0x1, 0x0, 0x0, 0x0, 0x0
    ]
    requires Get(g, DENSITY1) == density && Get(g, DENSITY2) == density
    ensures AddsUp(FLCOMP_LINES, totals, g)
  {
    Pow2Values();
  }

  lemma FlCompShipped()
    ensures AllShipped(FLCOMP_LINES) && Fills(FLCOMP_LINES, 0x10)
  {
    assert forall s :: s in FLCOMP_LINES ==> s in HEAD_LINES;
    InShipped();
    FlCompFills();
  }

  lemma FlCompFills()
    ensures Fills(FLCOMP_LINES, 0x10)
  {
    Pow2Values();
  }

  lemma FlReg0Register(a: Args, m: Region)
    ensures RegisterReads(Generated(a, m), 0x40, 0x0)
  {
    FlReg0Shipped();
    ShippedReads(FLREG0_LINES, 0x40, a, m);
    FlReg0Of(Generated(a, m));
  }

  lemma FlReg0Of(g: Region)
    requires Fills(FLREG0_LINES, 0x40) && LinesRead(FLREG0_LINES, g)
    ensures RegisterReads(g, 0x40, 0x0)
  {
    Pow2Values();
    var totals := [0x0, 0x0, 0x0, 0x0, 0x0];
    assert AddsUp(FLREG0_LINES, totals, g);
    Joined(FLREG0_LINES, totals, g, 0x40, 0);
  }

  lemma FlReg0Shipped()
    ensures AllShipped(FLREG0_LINES) && Fills(FLREG0_LINES, 0x40)
  {
    Pow2Values();
    assert forall s :: s in FLREG0_LINES ==> s in REGIONS_LINES;
    InShipped();
  }

  lemma FlReg1Register(a: Args, m: Region, base: nat, limit: nat)
    requires base == if a.hasGbe != 0 then 3 else 1
    requires limit == LastPage(a.romSize) % 0x2000
    ensures RegisterReads(Generated(a, m), 0x44, 0x10000 * limit + base)
  {
    FlReg1Shipped();
    ShippedReads(FLREG1_LINES, 0x44, a, m);
    BiosGenerated(a, m);
    FlReg1Of(Generated(a, m), base, limit);
  }

  lemma FlReg1Of(g: Region, base: nat, limit: nat)
    requires Fills(FLREG1_LINES, 0x44) && LinesRead(FLREG1_LINES, g)
    requires Get(g, Base(FLREG1)) == base && Get(g, Limit(FLREG1)) == limit
    ensures RegisterReads(g, 0x44, 0x10000 * limit + base)
  {
    Pow2Values();
    var totals := [0x10000 * limit + base, 0x8 * limit, limit, 0x0, 0x0];
    assert AddsUp(FLREG1_LINES, totals, g);
    Joined(FLREG1_LINES, totals, g, 0x44, 0);
  }

  lemma FlReg1Shipped()
    ensures AllShipped(FLREG1_LINES) && Fills(FLREG1_LINES, 0x44)
  {
    Pow2Values();
    assert forall s :: s in FLREG1_LINES ==> s in REGIONS_LINES;
    InShipped();
  }

  lemma FlReg2Register(a: Args, m: Region)
    ensures RegisterReads(Generated(a, m), 0x48, 0x1FFF)
  {
    FlReg2Shipped();
    ShippedReads(FLREG2_LINES, 0x48, a, m);
    FlReg2Of(Generated(a, m));
  }

  lemma FlReg2Of(g: Region)
    requires Fills(FLREG2_LINES, 0x48) && LinesRead(FLREG2_LINES, g)
    ensures RegisterReads(g, 0x48, 0x1FFF)
  {
    Pow2Values();
    var totals := [0x1FFF, 0x0, 0x0, 0x0, 0x0];
    assert AddsUp(FLREG2_LINES, totals, g);
    Joined(FLREG2_LINES, totals, g, 0x48, 0);
  }

  lemma FlReg2Shipped()
    ensures AllShipped(FLREG2_LINES) && Fills(FLREG2_LINES, 0x48)
  {
    Pow2Values();
    assert forall s :: s in FLREG2_LINES ==> s in REGIONS_LINES;
    InShipped();
  }

  lemma FlReg3Register(a: Args, m: Region, base: nat, limit: nat)
    requires base == if a.hasGbe != 0 then 1 else 0x1FFF
    requires limit == if a.hasGbe != 0 then 2 else 0
    ensures RegisterReads(Generated(a, m), 0x4C, 0x10000 * limit + base)
  {
    FlReg3Shipped();
    ShippedReads(FLREG3_LINES, 0x4C, a, m);
    GbeGenerated(a, m);
    FlReg3Of(Generated(a, m), base, limit);
  }

  lemma FlReg3Of(g: Region, base: nat, limit: nat)
    requires Fills(FLREG3_LINES, 0x4C) && LinesRead(FLREG3_LINES, g)
    requires Get(g, Base(FLREG3)) == base && Get(g, Limit(FLREG3)) == limit
    ensures RegisterReads(g, 0x4C, 0x10000 * limit + base)
  {
    Pow2Values();
    var totals := [0x10000 * limit + base, 0x8 * limit, limit, 0x0, 0x0];
    assert AddsUp(FLREG3_LINES, totals, g);
    Joined(FLREG3_LINES, totals, g, 0x4C, 0);
  }

  lemma FlReg3Shipped()
    ensures AllShipped(FLREG3_LINES) && Fills(FLREG3_LINES, 0x4C)
  {
    Pow2Values();
    assert forall s :: s in FLREG3_LINES ==> s in REGIONS_LINES;
    InShipped();
  }

  lemma FlReg4Register(a: Args, m: Region)
    ensures RegisterReads(Generated(a, m), 0x50, 0x1FFF)
  {
    FlReg4Shipped();
    ShippedReads(FLREG4_LINES, 0x50, a, m);
    FlReg4Of(Generated(a, m));
  }

  lemma FlReg4Of(g: Region)
    requires Fills(FLREG4_LINES, 0x50) && LinesRead(FLREG4_LINES, g)
    ensures RegisterReads(g, 0x50, 0x1FFF)
  {
    Pow2Values();
    var totals := [0x1FFF, 0x0, 0x0, 0x0, 0x0];
    assert AddsUp(FLREG4_LINES, totals, g);
    Joined(FLREG4_LINES, totals, g, 0x50, 0);
  }

  lemma FlReg4Shipped()
    ensures AllShipped(FLREG4_LINES) && Fills(FLREG4_LINES, 0x50)
  {
    Pow2Values();
    assert forall s :: s in FLREG4_LINES ==> s in REGIONS_LINES;
    InShipped();
  }

  lemma FlMstr1Register(a: Args, m: Region)
    ensures RegisterReads(Generated(a, m), 0x60, 0x1F1F0000)
  {
    FlMstr1Shipped();
    ShippedReads(FLMSTR1_LINES, 0x60, a, m);
    FlMstr1Of(Generated(a, m));
  }

  lemma FlMstr1Of(g: Region)
    requires Fills(FLMSTR1_LINES, 0x60) && LinesRead(FLMSTR1_LINES, g)
    ensures RegisterReads(g, 0x60, 0x1F1F0000)
  {
    var totals := [0x1F1F0000, 0x1F1F, 0xF8F, 0x7C7, 0x3E3, 0x1F1, 0xF8, 0x1F, 0xF, 0x7, 0x3, 0x1, 0x0, 0x0];
    FlMstr1Sum(totals, g);
    Joined(FLMSTR1_LINES, totals, g, 0x60, 0);
  }

  lemma FlMstr1Sum(totals: seq<nat>, g: Region)
    requires totals == [0x1F1F0000, 0x1F1F, 0xF8F, 0x7C7, 0x3E3, 0x1F1, 0xF8, 0x1F, 0xF, 0x7, 0x3, 0x1, 0x0, 0x0]
    ensures AddsUp(FLMSTR1_LINES, totals, g)
  {
    Pow2Values();
  }

  lemma FlMstr1Shipped()
    ensures AllShipped(FLMSTR1_LINES) && Fills(FLMSTR1_LINES, 0x60)
  {
    assert forall s :: s in FLMSTR1_LINES ==> s in MASTERS_LINES;
    InShipped();
    FlMstr1Fills();
  }

  lemma FlMstr1Fills()
    ensures Fills(FLMSTR1_LINES, 0x60)
  {
    Pow2Values();
  }

  lemma FlMstr2Register(a: Args, m: Region)
    ensures RegisterReads(Generated(a, m), 0x64, 0x0)
  {
    FlMstr2Shipped();
    ShippedReads(FLMSTR2_LINES, 0x64, a, m);
    FlMstr2Of(Generated(a, m));
  }

  lemma FlMstr2Of(g: Region)
    requires Fills(FLMSTR2_LINES, 0x64) && LinesRead(FLMSTR2_LINES, g)
    ensures RegisterReads(g, 0x64, 0x0)
  {
    var totals := [0x0, 0x0, 0x0, 0x0, 0x0, 0x0, 0x0, 0x0, 0x0, 0x0, 0x0, 0x0, 0x0, 0x0];
    FlMstr2Sum(totals, g);
    Joined(FLMSTR2_LINES, totals, g, 0x64, 0);
  }

  lemma FlMstr2Sum(totals: seq<nat>, g: Region)
    requires totals == [0x0, 0x0, 0x0, 0x0, 0x0, 0x0, 0x0, 0x0, 0x0, 0x0, 0x0, 0x0, 0x0, 0x0]
    ensures AddsUp(FLMSTR2_LINES, totals, g)
  {
    Pow2Values();
  }

  lemma FlMstr2Shipped()
    ensures AllShipped(FLMSTR2_LINES) && Fills(FLMSTR2_LINES, 0x64)
  {
    assert forall s :: s in FLMSTR2_LINES ==> s in MASTERS_LINES;
    InShipped();
    FlMstr2Fills();
  }

  lemma FlMstr2Fills()
    ensures Fills(FLMSTR2_LINES, 0x64)
  {
    Pow2Values();
  }

  lemma FlMstr3Register(a: Args, m: Region)
    ensures RegisterReads(Generated(a, m), 0x68, 0x8080218)
  {
    FlMstr3Shipped();
    ShippedReads(FLMSTR3_LINES, 0x68, a, m);
    FlMstr3Of(Generated(a, m));
  }

  lemma FlMstr3Of(g: Region)
    requires Fills(FLMSTR3_LINES, 0x68) && LinesRead(FLMSTR3_LINES, g)
    ensures RegisterReads(g, 0x68, 0x8080218)
  {
    var totals := [0x8080218, 0x808, 0x404, 0x202, 0x101, 0x80, 0x40, 0x8, 0x4, 0x2, 0x1, 0x0, 0x0, 0x0];
    FlMstr3Sum(totals, g);
    Joined(FLMSTR3_LINES, totals, g, 0x68, 0);
  }

  lemma FlMstr3Sum(totals: seq<nat>, g: Region)
    requires totals == [0x8080218, 0x808, 0x404, 0x202, 0x101, 0x80, 0x40, 0x8, 0x4, 0x2, 0x1, 0x0, 0x0, 0x0]
    ensures AddsUp(FLMSTR3_LINES, totals, g)
  {
    Pow2Values();
  }

  lemma FlMstr3Shipped()
    ensures AllShipped(FLMSTR3_LINES) && Fills(FLMSTR3_LINES, 0x68)
  {
    assert forall s :: s in FLMSTR3_LINES ==> s in MASTERS_LINES;
    InShipped();
    FlMstr3Fills();
  }

  lemma FlMstr3Fills()
    ensures Fills(FLMSTR3_LINES, 0x68)
  {
    Pow2Values();
  }

  lemma IchStrap0Register(a: Args, m: Region, strap: nat)
    requires strap == Bit(a.hasGbe != 0)
    ensures RegisterReads(Generated(a, m), 0x100, 0x6489 + 0x180000 * strap)
  {
    IchStrap0Shipped();
    ShippedReads(ICHSTRAP0_LINES, 0x100, a, m);
    StrapsGenerated(a, m);
    IchStrap0Of(Generated(a, m), strap);
  }

  lemma IchStrap0Of(g: Region, strap: nat)
    requires Fills(ICHSTRAP0_LINES, 0x100) && LinesRead(ICHSTRAP0_LINES, g)
    requires Get(g, INTEGRATED_GBE) == strap && Get(g, LAN_PHY) == strap
    ensures RegisterReads(g, 0x100, 0x6489 + 0x180000 * strap)
  {
    var totals := [
      0x6489 + 0x180000 * strap, 0x3244 + 0xC0000 * strap, 0xC9 + 0x3000 * strap, 0x64 + 0x1800 * strap,
      0x30 * strap, 0x18 * strap, 0xC * strap, 0x3 * strap, strap, 0x0, 0x0, 0x0, 0x0
    ];
    IchStrap0Sum(totals, g, strap);
    Joined(ICHSTRAP0_LINES, totals, g, 0x100, 0);
  }

  lemma IchStrap0Sum(totals: seq<nat>, g: Region, strap: nat)
    requires totals == [
      0x6489 + 0x180000 * strap, 0x3244 + 0xC0000 * strap, 0xC9 + 0x3000 * strap, 0x64 + 0x1800 * strap,
      0x30 * strap, 0x18 * strap, 0xC * strap, 0x3 * strap, strap, 0x0, 0x0, 0x0, 0x0
    ]
    requires Get(g, INTEGRATED_GBE) == strap && Get(g, LAN_PHY) == strap
    ensures AddsUp(ICHSTRAP0_LINES, totals, g)
  {
    Pow2Values();
  }

  lemma IchStrap0Shipped()
    ensures AllShipped(ICHSTRAP0_LINES) && Fills(ICHSTRAP0_LINES, 0x100)
  {
    InShipped();
    IchStrap0Fills();
  }

  lemma IchStrap0Fills()
    ensures Fills(ICHSTRAP0_LINES, 0x100)
  {
    Pow2Values();
  }

  lemma IchStrap1Register(a: Args, m: Region)
    ensures RegisterReads(Generated(a, m), 0x104, 0x10F)
  {
    IchStrap1Shipped();
    ShippedReads(ICHSTRAP1_LINES, 0x104, a, m);
    IchStrap1Of(Generated(a, m));
  }

  lemma IchStrap1Of(g: Region)
    requires Fills(ICHSTRAP1_LINES, 0x104) && LinesRead(ICHSTRAP1_LINES, g)
    ensures RegisterReads(g, 0x104, 0x10F)
  {
    var totals := [0x10F, 0x87, 0x43, 0x21, 0x10, 0x1, 0x0, 0x0, 0x0];
    IchStrap1Sum(totals, g);
    Joined(ICHSTRAP1_LINES, totals, g, 0x104, 0);
  }

  lemma IchStrap1Sum(totals: seq<nat>, g: Region)
    requires totals == [0x10F, 0x87, 0x43, 0x21, 0x10, 0x1, 0x0, 0x0, 0x0]
    ensures AddsUp(ICHSTRAP1_LINES, totals, g)
  {
    Pow2Values();
  }

  lemma IchStrap1Shipped()
    ensures AllShipped(ICHSTRAP1_LINES) && Fills(ICHSTRAP1_LINES, 0x104)
  {
    RestInShipped();
    IchStrap1Fills();
  }

  lemma IchStrap1Fills()
    ensures Fills(ICHSTRAP1_LINES, 0x104)
  {
    Pow2Values();
  }

  lemma MchStrap0Register(a: Args, m: Region)
    ensures RegisterReads(Generated(a, m), 0x200, 0xFFFFFF7D)
  {
    MchStrap0Shipped();
    ShippedReads(MCHSTRAP0_LINES, 0x200, a, m);
    MchStrap0Of(Generated(a, m));
  }

  lemma MchStrap0Of(g: Region)
    requires Fills(MCHSTRAP0_LINES, 0x200) && LinesRead(MCHSTRAP0_LINES, g)
    ensures RegisterReads(g, 0x200, 0xFFFFFF7D)
  {
    var totals := [0xFFFFFF7D, 0x7FFFFFBE, 0x3FFFFFDF, 0x1FFFFFEF, 0x3FFFFFD, 0x1FFFFFE, 0xFFFFFF, 0xFFFF, 0x0];
    MchStrap0Sum(totals, g);
    Joined(MCHSTRAP0_LINES, totals, g, 0x200, 0);
  }

  lemma MchStrap0Sum(totals: seq<nat>, g: Region)
    requires totals == [0xFFFFFF7D, 0x7FFFFFBE, 0x3FFFFFDF, 0x1FFFFFEF, 0x3FFFFFD, 0x1FFFFFE, 0xFFFFFF, 0xFFFF, 0x0]
    ensures AddsUp(MCHSTRAP0_LINES, totals, g)
  {
    Pow2Values();
  }

  lemma MchStrap0Shipped()
    ensures AllShipped(MCHSTRAP0_LINES) && Fills(MCHSTRAP0_LINES, 0x200)
  {
    InShipped();
    MchStrap0Fills();
  }

  lemma MchStrap0Fills()
    ensures Fills(MCHSTRAP0_LINES, 0x200)
  {
    Pow2Values();
  }

  lemma Map2Register(a: Args, m: Region)
    ensures RegisterReads(Generated(a, m), 0xEFC, 0x6EE)
  {
    Map2Shipped();
    ShippedReads(MAP2_LINES, 0xEFC, a, m);
    Map2Of(Generated(a, m));
  }

  lemma Map2Of(g: Region)
    requires Fills(MAP2_LINES, 0xEFC) && LinesRead(MAP2_LINES, g)
    ensures RegisterReads(g, 0xEFC, 0x6EE)
  {
    Pow2Values();
    var totals := [0x6EE, 0x6, 0x0, 0x0];
    assert AddsUp(MAP2_LINES, totals, g);
    Joined(MAP2_LINES, totals, g, 0xEFC, 0);
  }

  lemma Map2Shipped()
    ensures AllShipped(MAP2_LINES) && Fills(MAP2_LINES, 0xEFC)
  {
    Pow2Values();
    InShipped();
  }

  // ----- the whole descriptor -----

  /** The registers of the descriptor, by byte address. */
  predicate RegisterAt(at: nat) {
    at in {0x00, 0x04, 0x08, 0x0C, 0x10, 0x14, 0x18, 0x40, 0x44, 0x48, 0x4C, 0x50, 0x60, 0x64, 0x68,
           0x100, 0x104, 0x200, 0xEE0, 0xEE4, 0xEE8, 0xEEC, 0xEF0, 0xEF4, 0xEFC, 0xF00, 0xF04}
  }

  /** Registers of one 32-bit member. */
  lemma SingleRegisters(a: Args, m: Region)
    ensures var g := Generated(a, m);
            && RegisterReads(g, 0x00, 0x0FF0A55A) && RegisterReads(g, 0x14, 0) && RegisterReads(g, 0x18, 0)
            && RegisterReads(g, 0xEE0, 0x001720C2) && RegisterReads(g, 0xEE4, 0x20052005)
            && RegisterReads(g, 0xEE8, 0x001730EF) && RegisterReads(g, 0xEEC, 0x20052005)
            && RegisterReads(g, 0xEF0, 0x0000481F) && RegisterReads(g, 0xEF4, 0x20152015)
  {
    SingleLines();
    SingleRegister(a, m, 0x00, 0x0FF0A55A);
    SingleRegister(a, m, 0x14, 0);
    SingleRegister(a, m, 0x18, 0);
    SingleRegister(a, m, 0xEE0, 0x001720C2);
    SingleRegister(a, m, 0xEE4, 0x20052005);
    SingleRegister(a, m, 0xEE8, 0x001730EF);
    SingleRegister(a, m, 0xEEC, 0x20052005);
    SingleRegister(a, m, 0xEF0, 0x0000481F);
    SingleRegister(a, m, 0xEF4, 0x20152015);
  }

  lemma SingleRegister(a: Args, m: Region, at: nat, v: nat)
    requires at + 4 <= 0x1000 && v < 0x1_0000_0000 && Assign(Reg(at, 0, 32), Hex(v, 8)) in MKDESCRIPTOR
    ensures RegisterReads(Generated(a, m), at, v)
  {
    assert Pow2(32) == 0x1_0000_0000 by { Pow2Of32(); }
    GeneratedReads(a, m, Reg(at, 0, 32), v, 8);
  }

  lemma SingleLines()
    ensures Assign(Reg(0x00, 0, 32), Hex(0x0FF0A55A, 8)) in MKDESCRIPTOR
    ensures Assign(Reg(0x14, 0, 32), Hex(0, 8)) in MKDESCRIPTOR && Assign(Reg(0x18, 0, 32), Hex(0, 8)) in MKDESCRIPTOR
    ensures Assign(Reg(0xEE0, 0, 32), Hex(0x001720C2, 8)) in MKDESCRIPTOR
    ensures Assign(Reg(0xEE4, 0, 32), Hex(0x20052005, 8)) in MKDESCRIPTOR
    ensures Assign(Reg(0xEE8, 0, 32), Hex(0x001730EF, 8)) in MKDESCRIPTOR
    ensures Assign(Reg(0xEEC, 0, 32), Hex(0x20052005, 8)) in MKDESCRIPTOR
    ensures Assign(Reg(0xEF0, 0, 32), Hex(0x0000481F, 8)) in MKDESCRIPTOR
    ensures Assign(Reg(0xEF4, 0, 32), Hex(0x20152015, 8)) in MKDESCRIPTOR
  {
    assert FLVALSIG_LINES[0] in HEAD_LINES && FLILL_FLPB_LINES[0] in HEAD_LINES && FLILL_FLPB_LINES[1] in HEAD_LINES;
    assert VSCC_TABLE_LINES[0] in VSCC_TABLE_LINES && VSCC_TABLE_LINES[1] in VSCC_TABLE_LINES;
    assert VSCC_TABLE_LINES[2] in VSCC_TABLE_LINES && VSCC_TABLE_LINES[3] in VSCC_TABLE_LINES;
    assert VSCC_TABLE_LINES[4] in VSCC_TABLE_LINES && VSCC_TABLE_LINES[5] in VSCC_TABLE_LINES;
    InShipped();
    RestInShipped();
  }

  /** LIBERATE, as two little-endian words. */
  lemma OemRegisters(a: Args, m: Region)
    ensures RegisterReads(Generated(a, m), 0xF00, 0x4542494C) && RegisterReads(Generated(a, m), 0xF04, 0x45544152)
  {
    GeneratedShowsConstants(a, m);
    FourBytes(Generated(a, m), 0xF00, 0x4C, 0x49, 0x42, 0x45) by { OemBytesRead(a, m, 0); }
    FourBytes(Generated(a, m), 0xF04, 0x52, 0x41, 0x54, 0x45) by { OemBytesRead(a, m, 4); }
  }

  lemma OemBytesRead(a: Args, m: Region, from: nat)
    requires from == 0 || from == 4
    ensures forall i :: from <= i < from + 4 ==> Get(Generated(a, m), OemByte(i)) == LIBERATE[i]
  {
    forall i | from <= i < from + 4
      ensures Get(Generated(a, m), OemByte(i)) == LIBERATE[i]
    {
      OemLines(i);
      OemFits(i, LIBERATE[i]);
      GeneratedReads(a, m, OemByte(i), LIBERATE[i], 2);
    }
  }

  lemma FourBytes(g: Region, at: nat, b0: nat, b1: nat, b2: nat, b3: nat)
    requires at + 4 <= 0x1000
    requires Get(g, Field(8 * at, 8)) == b0 && Get(g, Field(8 * at + 8, 8)) == b1
    requires Get(g, Field(8 * at + 16, 8)) == b2 && Get(g, Field(8 * at + 24, 8)) == b3
    ensures RegisterReads(g, at, b0 + 0x100 * b1 + 0x1_0000 * b2 + 0x100_0000 * b3)
  {
    assert Pow2(8) == 0x100 by { Pow2Values(); }
    GetJoined(g, 8 * at, 8, 24);
    GetJoined(g, 8 * at + 8, 8, 16);
    GetJoined(g, 8 * at + 16, 8, 8);
  }

  /** Signature, maps and component section. */
  lemma HeadRegisters(a: Args, m: Region)
    ensures var g, gbe := Generated(a, m), a.hasGbe != 0;
            && RegisterReads(g, 0x00, 0x0FF0A55A)
            && RegisterReads(g, 0x04, if gbe then 0x02040001 else 0x01040001)
            && RegisterReads(g, 0x08, 0x02100206) && RegisterReads(g, 0x0C, 0x00000120)
            && RegisterReads(g, 0x10, 0x00300000 + 9 * ComponentDensity(a.romSize))
            && RegisterReads(g, 0x14, 0) && RegisterReads(g, 0x18, 0)
  {
    SingleRegisters(a, m);
    FlMap0Register(a, m, if a.hasGbe != 0 then 2 else 1);
    FlMap1Register(a, m);
    FlMap2Register(a, m);
    FlCompRegister(a, m, ComponentDensity(a.romSize));
  }

  /** Region section: descriptor, BIOS, ME, GbE, platform. */
  lemma RegionRegisters(a: Args, m: Region)
    requires a.romSize < 0x1_0000_0000
    ensures var g, gbe := Generated(a, m), a.hasGbe != 0;
            && RegisterReads(g, 0x40, 0)
            && RegisterReads(g, 0x44, LastPageOf(a.romSize) * 0x1_0000 + (if gbe then 3 else 1))
            && RegisterReads(g, 0x48, 0x00001FFF)
            && RegisterReads(g, 0x4C, if gbe then 0x00020001 else 0x00001FFF)
            && RegisterReads(g, 0x50, 0x00001FFF)
  {
    FlReg0Register(a, m);
    BiosRegister(a, m);
    FlReg2Register(a, m);
    GbeRegister(a, m);
    FlReg4Register(a, m);
  }

  lemma GbeRegister(a: Args, m: Region)
    ensures RegisterReads(Generated(a, m), 0x4C, if a.hasGbe != 0 then 0x00020001 else 0x00001FFF)
  {
    FlReg3Register(a, m, if a.hasGbe != 0 then 1 else 0x1FFF, if a.hasGbe != 0 then 2 else 0);
  }

  lemma BiosRegister(a: Args, m: Region)
    requires a.romSize < 0x1_0000_0000
    ensures RegisterReads(Generated(a, m), 0x44,
                          LastPageOf(a.romSize) * 0x1_0000 + (if a.hasGbe != 0 then 3 else 1))
  {
    var limit := LastPageOf(a.romSize);
    assert limit == LastPage(a.romSize) % 0x2000 by { LastPageIs(a.romSize); }
    FlReg1Register(a, m, if a.hasGbe != 0 then 3 else 1, limit);
  }

  /** Master access section, ICH and MCH straps. */
  lemma MasterAndStrapRegisters(a: Args, m: Region)
    ensures var g, gbe := Generated(a, m), a.hasGbe != 0;
            && RegisterReads(g, 0x60, 0x1F1F0000) && RegisterReads(g, 0x64, 0) && RegisterReads(g, 0x68, 0x08080218)
            && RegisterReads(g, 0x100, if gbe then 0x00186489 else 0x00006489) && RegisterReads(g, 0x104, 0x0000010F)
            && RegisterReads(g, 0x200, 0xFFFFFF7D)
  {
    FlMstr1Register(a, m);
    FlMstr2Register(a, m);
    FlMstr3Register(a, m);
    IchStrap0Register(a, m, Bit(a.hasGbe != 0));
    IchStrap1Register(a, m);
    MchStrap0Register(a, m);
  }

  /** ME VSCC table, its map, and the OEM string LIBERATE. */
  lemma RearRegisters(a: Args, m: Region)
    ensures var g := Generated(a, m);
            && RegisterReads(g, 0xEE0, 0x001720C2) && RegisterReads(g, 0xEE4, 0x20052005)
            && RegisterReads(g, 0xEE8, 0x001730EF) && RegisterReads(g, 0xEEC, 0x20052005)
            && RegisterReads(g, 0xEF0, 0x0000481F) && RegisterReads(g, 0xEF4, 0x20152015)
            && RegisterReads(g, 0xEFC, 0x000006EE)
            && RegisterReads(g, 0xF00, 0x4542494C) && RegisterReads(g, 0xF04, 0x45544152)
  {
    SingleRegisters(a, m);
    Map2Register(a, m);
    OemRegisters(a, m);
  }

  /** All bytes outside these registers. */
  lemma GeneratedFill(a: Args, m: Region, i: nat)
    requires i < 0x1000 && !RegisterAt(i / 4 * 4)
    ensures ByteAt(Generated(a, m), i) == 0xFF
  {
    FillLine(PaddingOf(i));
    FilledBits(a, m, PaddingOf(i));
    FullByte(Generated(a, m), i);
  }

  /** The padding array a byte outside the registers is in. */
  function PaddingOf(i: nat): (f: Field)
    requires i < 0x1000 && !RegisterAt(i / 4 * 4)
    ensures f.off <= 8 * i && 8 * i + 8 <= f.End()
    ensures PaddingArray(f)
  {
    if i < 0x40 then COMPONENT_PADDING else if i < 0x60 then REGION_PADDING else if i < 0x100 then MASTER_PADDING
    else if i < 0x200 then ICH_PADDING else if i < 0xEE0 then MCH_PADDING
    else if i < 0xEFC then VSCC_PADDING else OEM_PADDING
  }

  predicate PaddingArray(f: Field) {
    f in {COMPONENT_PADDING, REGION_PADDING, MASTER_PADDING, ICH_PADDING, MCH_PADDING, VSCC_PADDING, OEM_PADDING}
  }

  lemma FillLine(f: Field)
    requires PaddingArray(f)
    ensures Fill(f) in MKDESCRIPTOR
  {
  }

  lemma FilledBits(a: Args, m: Region, f: Field)
    requires Fill(f) in MKDESCRIPTOR
    ensures f.In(m) && forall k :: f.off <= k < f.End() ==> Generated(a, m)[k]
  {
    ShippedTiled();
    RunFills(MKDESCRIPTOR, a, m, f);
  }

  // ----- what the numbers mean -----

  /** The length members count the 32-bit registers of their sections. */
  lemma LengthsCoverSections(a: Args, m: Region)
    ensures var g := Generated(a, m);
            && 32 * Get(g, Reg(0x08, 24, 8)) == ICHSTRAPS[|ICHSTRAPS| - 1].f.End() - ICHSTRAPS[0].f.off
            && 32 * Get(g, Reg(0x0C, 8, 8)) == MCHSTRAP0_SLOTS[|MCHSTRAP0_SLOTS| - 1].f.End() - MCHSTRAP0_SLOTS[0].f.off
            && 32 * Get(g, Reg(0xEFC, 8, 8))
               == VSCC_TABLE_SLOTS[|VSCC_TABLE_SLOTS| - 1].f.End() - VSCC_TABLE_SLOTS[0].f.off
            && Get(g, SIGNATURE) == 0x0FF0A55A
  {
    assert Pow2(8) == 0x100 by { Pow2Values(); }
    assert Pow2(32) == 0x1_0000_0000 by { Pow2Of32(); }
    LengthLines();
    GeneratedReads(a, m, Reg(0x08, 24, 8), 2, 2);
    GeneratedReads(a, m, Reg(0x0C, 8, 8), 1, 2);
    GeneratedReads(a, m, Reg(0xEFC, 8, 8), 6, 2);
    GeneratedReads(a, m, SIGNATURE, 0x0FF0A55A, 8);
    SectionEnds();
  }

  lemma LengthLines()
    ensures Assign(Reg(0x08, 24, 8), Hex(2, 2)) in MKDESCRIPTOR && Assign(Reg(0x0C, 8, 8), Hex(1, 2)) in MKDESCRIPTOR
    ensures Assign(Reg(0xEFC, 8, 8), Hex(6, 2)) in MKDESCRIPTOR && Assign(SIGNATURE, Hex(0x0FF0A55A, 8)) in MKDESCRIPTOR
  {
    assert FLMAP1_LINES[4] in HEAD_LINES && FLMAP2_LINES[1] in HEAD_LINES && FLVALSIG_LINES[0] in HEAD_LINES;
    assert MAP2_LINES[1] in MAP2_LINES;
    InShipped();
  }

  lemma SectionEnds()
    ensures ICHSTRAPS[0].f.off == 8 * 0x100 && ICHSTRAPS[|ICHSTRAPS| - 1].f.End() == 8 * 0x108
    ensures MCHSTRAP0_SLOTS[0].f.off == 8 * 0x200 && MCHSTRAP0_SLOTS[|MCHSTRAP0_SLOTS| - 1].f.End() == 8 * 0x204
    ensures VSCC_TABLE_SLOTS[0].f.off == 8 * 0xEE0 && VSCC_TABLE_SLOTS[|VSCC_TABLE_SLOTS| - 1].f.End() == 8 * 0xEF8
  {
  }

  /** The GbE master, requester 0x0218, may read and write the GbE region (region 3) and no other. */
  lemma GbeMasterAccess(a: Args, m: Region, region: nat)
    requires region < 5
    ensures var g := Generated(a, m);
            && Get(g, Reg(FLMSTR3, 0, 16)) == 0x0218
            && (Get(g, ReadAccess(FLMSTR3, region)) == 1 <==> region == 3)
            && (Get(g, WriteAccess(FLMSTR3, region)) == 1 <==> region == 3)
  {
    assert Pow2(1) == 2 && Pow2(16) == 0x1_0000 by { Pow2Values(); }
    assert FLMSTR3_LINES[0] == Assign(Reg(FLMSTR3, 0, 16), Hex(0x0218, 4));
    assert FLMSTR3_LINES[1 + region] == Assign(ReadAccess(FLMSTR3, region), Hex(Bit(region == 3), 1));
    assert FLMSTR3_LINES[7 + region] == Assign(WriteAccess(FLMSTR3, region), Hex(Bit(region == 3), 1));
    MasterLinesShipped();
    GeneratedReads(a, m, Reg(FLMSTR3, 0, 16), 0x0218, 4);
    GeneratedReads(a, m, ReadAccess(FLMSTR3, region), Bit(region == 3), 1);
    GeneratedReads(a, m, WriteAccess(FLMSTR3, region), Bit(region == 3), 1);
  }

  lemma MasterLinesShipped()
    ensures forall i :: 0 <= i < |FLMSTR3_LINES| ==> FLMSTR3_LINES[i] in MKDESCRIPTOR
  {
    assert forall s :: s in FLMSTR3_LINES ==> s in MASTERS_LINES;
    InShipped();
  }
}
