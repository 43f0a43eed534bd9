/**
  What the i945 native graphics init writes to the display registers: the divisor word, whose fields
  decode to the divisors found, and the mode timings, one of which is built without the shift that its
  siblings have.
  */
module GmaRegisters {
  import opened Words
  import opened GmaDivisors

  /** The registers of pipe B and plane A that depend on the panel. */
  datatype Register =
    | FP0 | DPLL
    | HTOTAL | HBLANK | HSYNC | VTOTAL | VBLANK | VSYNC | PIPESRC
    | PF_CTL | PF_WIN_SZ | PF_WIN_POS | PFIT_PGM_RATIOS | PFIT_CONTROL
    | DSPSIZE | DSPPOS

  /** One direction of a panel's timing, in pixels or in lines, as the EDID gives it. */
  datatype Axis = Axis(active: u32, border: u32, blank: u32, frontPorch: u32, sync: u32) {
    function BlankStart(): nat { active + border }
    function SyncStart(): nat { active + border + frontPorch }
    function SyncEnd(): nat { active + border + frontPorch + sync }
    function Total(): nat { active + border + blank }

    /** The porch and the sync pulse lie within the blank, and every end fits a 16-bit field. */
    predicate Fits() { 1 <= active && frontPorch + sync <= blank && Total() <= U16 }
  }

  // ----- words of two 16-bit fields -----

  function High(v: nat): nat { v / U16 }
  function Low(v: nat): nat { v % U16 }

  /** `((end - 1) << 16) | (start - 1)`; the sums behind end and start are cut to 32 bits here. */
  function Pair(end: nat, start: nat): nat { Or(Shl32(Sub32(end, 1), 16), Sub32(start, 1)) }

  /** `(end - 1) | (start - 1)`, as the code has it for VSYNC. */
  function Merged(end: nat, start: nat): nat { Or(Sub32(end, 1), Sub32(start, 1)) }

  predicate Fits16(v: nat) { 1 <= v <= U16 }

  lemma Less1(v: nat)
    requires Fits16(v)
    ensures Sub32(v, 1) == v - 1 && Shl32(v - 1, 16) == (v - 1) * Pow2(16)
  {
    assert Pow2(16) == U16 by { Pow2Values(); }
    ShlFits(v - 1, 16);
  }

  /** A pair reads back as its two numbers exactly when both fit. */
  lemma PairExactly(end: nat, start: nat)
    ensures High(Pair(end, start)) == end - 1 && Low(Pair(end, start)) == start - 1
       <==> Fits16(end) && Fits16(start)
  {
    assert Pow2(16) == U16 by { Pow2Values(); }
    assert Pow2(32) == U32 by { Pow2Of32(); }
    if Fits16(end) && Fits16(start) {
      Less1(end);
      Less1(start);
      OrDisjoint(end - 1, start - 1, 16);
      SplitHalves(end - 1, start - 1, 16);
    } else {
      OrBound(Shl32(Sub32(end, 1), 16), Sub32(start, 1), 32);
    }
  }

  /** The two numbers meet in the low half, and the high half stays 0. */
  lemma MergedIs(end: nat, start: nat)
    requires Fits16(end) && Fits16(start)
    ensures High(Merged(end, start)) == 0
    ensures forall i :: BitOf(Low(Merged(end, start)), i) <==> BitOf(end - 1, i) || BitOf(start - 1, i)
  {
    Less1(end);
    Less1(start);
    OrBelow(end - 1, start - 1);
    forall i
      ensures BitOf(Low(Merged(end, start)), i) <==> BitOf(end - 1, i) || BitOf(start - 1, i)
    {
      OrBit(end - 1, start - 1, i);
    }
  }

  lemma OrBelow(a: nat, b: nat)
    requires a < U16 && b < U16
    ensures High(Or(a, b)) == 0 && Low(Or(a, b)) == Or(a, b)
  {
    assert Pow2(16) == U16 by { Pow2Values(); }
    OrBound(a, b, 16);
  }

  /** So VSYNC holds its two numbers only for a sync pulse that would end at line 1. */
  lemma MergedDecodesExactly(end: nat, start: nat)
    ensures High(Merged(end, start)) == end - 1 && Low(Merged(end, start)) == start - 1
       <==> end == 1 && Fits16(start)
  {
    if Fits16(end) && Fits16(start) {
      MergedIs(end, start);
      if end == 1 {
        Less1(start);
        OrZero(start - 1);
      }
    } else {
      Or32(Sub32(end, 1), Sub32(start, 1));
      NoDecode(Merged(end, start), end, start);
    }
  }

  lemma Or32(a: nat, b: nat)
    requires a < U32 && b < U32
    ensures Or(a, b) < U32
  {
    assert Pow2(32) == U32 by { Pow2Of32(); }
    OrBound(a, b, 32);
  }

  lemma NoDecode(v: nat, end: nat, start: nat)
    requires v < U32 && !(Fits16(end) && Fits16(start))
    ensures !(High(v) == end - 1 && Low(v) == start - 1)
  {
  }

  /** For a real panel, then, never: the pulse ends behind the active lines. */
  lemma VsyncNeverDecodes(v: Axis)
    requires v.Fits() && 2 <= v.active
    ensures High(Merged(v.SyncEnd(), v.SyncStart())) == 0 < v.SyncEnd() - 1
  {
    MergedIs(v.SyncEnd(), v.SyncStart());
  }

  /** And it cannot be read back at all: two different pulses give the same word. */
  lemma VsyncAmbiguous()
    ensures var v, w := Axis(768, 0, 38, 3, 5), Axis(768, 0, 38, 4, 4);
            v.Fits() && w.Fits() && v != w
            && Merged(v.SyncEnd(), v.SyncStart()) == Merged(w.SyncEnd(), w.SyncStart())
  {
    // The pulses cover lines 770-775 and 771-775: 0x307 | 0x302 == 0x307 | 0x303.
    Less1(776);
    Less1(771);
    Less1(772);
    PulseWords();
  }

  lemma PulseWords()
    ensures Or(775, 770) == Or(775, 771) == 775
  {
    assert Or(193, 192) == 193 by { assert Or(6, 6) == 6; }
    assert Or(387, 385) == 387;
  }

  lemma TimingOrder(t: Axis)
    requires t.Fits()
    ensures t.active <= t.BlankStart() <= t.SyncStart() <= t.SyncEnd() <= t.Total()
    ensures Fits16(t.active) && Fits16(t.BlankStart()) && Fits16(t.SyncStart())
         && Fits16(t.SyncEnd()) && Fits16(t.Total())
  {
  }

  // ----- the divisors -----

  /** Every m the search accepts splits into an M1 and an M2 that the PLL takes, and nothing is lost. */
  lemma SplitOfM(m: nat)
    requires 77 <= m <= 131
    ensures 7 <= M2(m) <= 11 && 14 <= M1(m) <= 24 && M2(m) < M1(m)
    ensures 5 * M1(m) + M2(m) == m
  {
    assert (m - M2(m)) % 5 == 0;
  }

  /** There is no other split with M2 in 7..11. */
  lemma SplitUnique(m: nat, m1: nat, m2: nat)
    requires 77 <= m <= 131 && 7 <= m2 <= 11 && 5 * m1 + m2 == m
    ensures m1 == M1(m) && m2 == M2(m)
  {
    SplitOfM(m);
  }

  predicate InRange(d: Divisors) {
    Candidate(d.p1, d.n) && 14 <= d.m1 <= 24 && 7 <= d.m2 <= 11
  }

  function DivisorWord(d: Divisors): nat {
    Or(Or(Shl32(Sub32(d.n, 2), 16), Shl32(Sub32(d.m1, 2), 8)), d.m2)
  }

  /** The three fields of the divisor word, each read as the PLL reads it (6 bits). */
  function WordN(v: nat): nat { v / 0x1_0000 % 0x40 + 2 }
  function WordM1(v: nat): nat { v / 0x100 % 0x40 + 2 }
  function WordM2(v: nat): nat { v % 0x40 }

  lemma DivisorWordDecodes(d: Divisors)
    requires InRange(d)
    ensures WordN(DivisorWord(d)) == d.n && WordM1(DivisorWord(d)) == d.m1 && WordM2(DivisorWord(d)) == d.m2
    ensures DivisorWord(d) == (d.n - 2) * 0x1_0000 + (d.m1 - 2) * 0x100 + d.m2
  {
    var n: nat, m1: nat := d.n - 2, d.m1 - 2;
    assert Sub32(d.n, 2) == n && Sub32(d.m1, 2) == m1;
    ThreeFields(n, m1, d.m2);
    FieldsOf(n, m1, d.m2);
  }

  lemma ThreeFields(n: nat, m1: nat, m2: nat)
    requires n < 0x100 && m1 < 0x100 && m2 < 0x100
    ensures Or(Or(Shl32(n, 16), Shl32(m1, 8)), m2) == n * 0x1_0000 + m1 * 0x100 + m2
  {
    assert Pow2(8) == 0x100 && Pow2(16) == 0x1_0000 by { Pow2Values(); }
    ShlFits(m1, 8);
    TwoFields(n, m1 * 0x100, 16);
    OrDisjoint(n * 0x100 + m1, m2, 8);
    assert n * 0x1_0000 + m1 * 0x100 == (n * 0x100 + m1) * 0x100;
  }

  lemma FieldsOf(n: nat, m1: nat, m2: nat)
    requires n < 0x40 && m1 < 0x40 && m2 < 0x40
    ensures var v := n * 0x1_0000 + m1 * 0x100 + m2;
            WordN(v) == n + 2 && WordM1(v) == m1 + 2 && WordM2(v) == m2
  {
    var v := n * 0x1_0000 + m1 * 0x100 + m2;
    DivModUnique(v, 0x1_0000, n, m1 * 0x100 + m2);
    DivModUnique(v, 0x100, n * 0x100 + m1, m2);
    DivModUnique(n * 0x100 + m1, 0x40, n * 4, m1);
    DivModUnique(v, 0x40, n * 0x400 + m1 * 4, m2);
  }

  /** The PLL control word: the mode bits, and P1 in two places. */
  function ControlWord(flags: u32, p1: nat): nat { Or(Or(flags, Shl32(p1, 16)), p1) }

  /** Where the mode bits leave room for it, P1 reads back from both places. */
  lemma ControlWordShows(flags: u32, p1: nat, i: nat)
    requires p1 < 0x100 && i < 8 && !BitOf(flags, i) && !BitOf(flags, 16 + i)
    ensures BitOf(ControlWord(flags, p1), i) == BitOf(p1, i) == BitOf(ControlWord(flags, p1), 16 + i)
  {
    assert Pow2(8) == 0x100 && Pow2(16) == 0x1_0000 by { Pow2Values(); }
    ShlFits(p1, 16);
    var upper := Shl32(p1, 16);
    ShiftedBit(p1, 16, i);
    HighBitsClear(p1, 8, 16 + i);
    OrBit(flags, upper, i);
    OrBit(flags, upper, 16 + i);
    OrBit(Or(flags, upper), p1, i);
    OrBit(Or(flags, upper), p1, 16 + i);
  }

  /** The clock the driver prints, from the divisors: two divisions, each rounding down. */
  function PrintedClock(d: Divisors): nat
    requires 0 < d.n && 0 < d.p1
  {
    Quotient(Quotient(Mul32(BASE_FREQUENCY, 5 * d.m1 + d.m2), d.n), d.p1 * 7)
  }

  lemma NestedQuotient(x: nat, a: nat, b: nat)
    requires 0 < a && 0 < b
    ensures 0 < a * b && x / a / b == x / (a * b)
  {
    var y := x / a;
    var q, r := y / b, y % b;
    assert x == y * a + x % a;
    Regroup(y, q, r, a, b);
    MulMono(r, b - 1, a);
    Distribute(b, 1, a);
    MulMono(1, a, b);
    DivModUnique(x, a * b, q, r * a + x % a);
  }

  lemma Regroup(y: nat, q: nat, r: nat, a: nat, b: nat)
    requires y == q * b + r
    ensures y * a == q * (a * b) + r * a
  {
  }

  /** It is the clock of the search, rounded down once. */
  lemma PrintedClockIs(target: nat, p1: nat, n: nat)
    requires Accepted(target, p1, n)
    ensures var m := M(target, p1, n);
            PrintedClock(Divisors(n, p1, M1(m), M2(m))) == Frequency(m, p1, n)
  {
    var m := M(target, p1, n);
    SplitOfM(m);
    NestedQuotient(Mul32(BASE_FREQUENCY, m), n, p1 * 7);
    assert n * (p1 * 7) == Denom(p1, n);
  }

  // ----- the programming sequence -----

  class Display {
    var regs: map<Register, nat>

    constructor ()
      ensures regs == map[]
    {
      regs := map[];
    }

    method Write32(r: Register, v: nat)
      modifies this
      ensures regs == old(regs)[r := v]
    {
      regs := regs[r := v];
    }

    /**
      The divisor word, and the control word twice.  Its mode bits come from a header that is not part of
      this model; the first write has them in one form, the second in another.
      */
    method SetClock(d: Divisors, before: u32, flags: u32)
      modifies this
      ensures regs == ClockRegisters(old(regs), d, flags)
    {
      Write32(FP0, Or(Or(Shl32(Sub32(d.n, 2), 16), Shl32(Sub32(d.m1, 2), 8)), d.m2));
      Write32(DPLL, Or(Or(before, Shl32(d.p1, 16)), d.p1));
      Write32(DPLL, Or(Or(flags, Shl32(d.p1, 16)), d.p1));
    }

    method SetTimings(h: Axis, v: Axis)
      modifies this
      ensures regs == TimingRegisters(old(regs), h, v)
    {
      var hTotal := Add32(Add32(h.active, h.border), h.blank);
      var hBlankStart := Add32(h.active, h.border);
      var hSyncStart := Add32(hBlankStart, h.frontPorch);
      var hSyncEnd := Add32(hSyncStart, h.sync);
      var vTotal := Add32(Add32(v.active, v.border), v.blank);
      var vBlankStart := Add32(v.active, v.border);
      var vSyncStart := Add32(vBlankStart, v.frontPorch);
      var vSyncEnd := Add32(vSyncStart, v.sync);
      WrappedSums(h);
      WrappedSums(v);
      Write32(HTOTAL, Or(Shl32(Sub32(hTotal, 1), 16), Sub32(h.active, 1)));
      Write32(HBLANK, Or(Shl32(Sub32(hTotal, 1), 16), Sub32(hBlankStart, 1)));
      Write32(HSYNC, Or(Shl32(Sub32(hSyncEnd, 1), 16), Sub32(hSyncStart, 1)));
      Write32(VTOTAL, Or(Shl32(Sub32(vTotal, 1), 16), Sub32(v.active, 1)));
      Write32(VBLANK, Or(Shl32(Sub32(vTotal, 1), 16), Sub32(vBlankStart, 1)));
      Write32(VSYNC, Or(Sub32(vSyncEnd, 1), Sub32(vSyncStart, 1)));
    }

    /** Source size, panel fitter off, plane size and position. */
    method SetPlane(h: Axis, v: Axis)
      modifies this
      ensures regs == PlaneRegisters(old(regs), h, v)
    {
      Write32(PIPESRC, Or(Shl32(Sub32(h.active, 1), 16), Sub32(v.active, 1)));
      Write32(PF_CTL, 0);
      Write32(PF_WIN_SZ, 0);
      Write32(PF_WIN_POS, 0);
      Write32(PFIT_PGM_RATIOS, 0);
      Write32(PFIT_CONTROL, 0);
      Write32(DSPSIZE, Or(Sub32(h.active, 1), Shl32(Sub32(v.active, 1), 16)));
      Write32(DSPPOS, 0);
      PairSwapped(v.active, h.active);
    }

    /** The writes that follow the divisor search. */
    method SetMode(d: Divisors, h: Axis, v: Axis, before: u32, flags: u32)
      modifies this
      ensures regs == ModeRegisters(old(regs), d, h, v, flags)
    {
      SetClock(d, before, flags);
      SetTimings(h, v);
      SetPlane(h, v);
    }
  }

  function ClockRegisters(regs: map<Register, nat>, d: Divisors, flags: u32): map<Register, nat> {
    regs[FP0 := DivisorWord(d)][DPLL := ControlWord(flags, d.p1)]
  }

  function TimingRegisters(regs: map<Register, nat>, h: Axis, v: Axis): map<Register, nat> {
    regs
      [HTOTAL := Pair(h.Total(), h.active)]
      [HBLANK := Pair(h.Total(), h.BlankStart())]
      [HSYNC := Pair(h.SyncEnd(), h.SyncStart())]
      [VTOTAL := Pair(v.Total(), v.active)]
      [VBLANK := Pair(v.Total(), v.BlankStart())]
      [VSYNC := Merged(v.SyncEnd(), v.SyncStart())]
  }

  function PlaneRegisters(regs: map<Register, nat>, h: Axis, v: Axis): map<Register, nat> {
    regs
      [PIPESRC := Pair(h.active, v.active)]
      [PF_CTL := 0][PF_WIN_SZ := 0][PF_WIN_POS := 0][PFIT_PGM_RATIOS := 0][PFIT_CONTROL := 0]
      [DSPSIZE := Pair(v.active, h.active)]
      [DSPPOS := 0]
  }

  /** What the mode setting leaves in the registers. */
  function ModeRegisters(regs: map<Register, nat>, d: Divisors, h: Axis, v: Axis, flags: u32): map<Register, nat> {
    PlaneRegisters(TimingRegisters(ClockRegisters(regs, d, flags), h, v), h, v)
  }

  lemma WrappedSums(t: Axis)
    ensures Sub32(Add32(Add32(t.active, t.border), t.blank), 1) == Sub32(t.Total(), 1)
    ensures Sub32(Add32(t.active, t.border), 1) == Sub32(t.BlankStart(), 1)
    ensures Sub32(Add32(Add32(t.active, t.border), t.frontPorch), 1) == Sub32(t.SyncStart(), 1)
    ensures Sub32(Add32(Add32(Add32(t.active, t.border), t.frontPorch), t.sync), 1) == Sub32(t.SyncEnd(), 1)
  {
    WrapOnce(t.active + t.border, t.blank);
    WrapOnce(t.active + t.border, t.frontPorch);
    WrapOnce(t.active + t.border + t.frontPorch, t.sync);
    WrapLess1(t.active + t.border);
    WrapLess1(t.Total());
    WrapLess1(t.SyncStart());
    WrapLess1(t.SyncEnd());
  }

  lemma WrapOnce(x: nat, y: nat)
    ensures Add32(x % U32, y) == (x + y) % U32
  {
  }

  lemma WrapLess1(x: nat)
    ensures Sub32(x % U32, 1) == Sub32(x, 1)
  {
  }

  /** The divisors of the first accepted point of least delta. */
  ghost predicate DivisorsFor(target: nat, d: Divisors) {
    && Best(target, d.p1, d.n, 9, 5)
    && d.m1 == M1(M(target, d.p1, d.n)) && d.m2 == M2(M(target, d.p1, d.n))
  }

  predicate Shows(word: nat, end: nat, start: nat) { High(word) == end - 1 && Low(word) == start - 1 }

  /** The divisor word decodes to the divisors, and they give the clock of the search. */
  lemma DivisorsRead(target: nat, regs: map<Register, nat>, d: Divisors, h: Axis, v: Axis, flags: u32)
    requires DivisorsFor(target, d)
    ensures var w := ModeRegisters(regs, d, h, v, flags)[FP0]; WordN(w) == d.n && WordM1(w) == d.m1 && WordM2(w) == d.m2
    ensures PrintedClock(d) == Frequency(M(target, d.p1, d.n), d.p1, d.n)
    ensures Distance(target, PrintedClock(d)) == Delta(target, d.p1, d.n)
  {
    var m := M(target, d.p1, d.n);
    SplitOfM(m);
    PrintedClockIs(target, d.p1, d.n);
    assert d == Divisors(d.n, d.p1, M1(m), M2(m));
    DivisorWordDecodes(d);
  }

  /** For a panel that fits, every timing register shows its two ends, except VSYNC, whose high half is empty. */
  lemma TimingsRead(regs: map<Register, nat>, d: Divisors, h: Axis, v: Axis, flags: u32)
    requires h.Fits() && v.Fits()
    ensures var w := ModeRegisters(regs, d, h, v, flags);
            && Shows(w[HTOTAL], h.Total(), h.active) && Shows(w[VTOTAL], v.Total(), v.active)
            && Shows(w[HBLANK], h.Total(), h.BlankStart()) && Shows(w[VBLANK], v.Total(), v.BlankStart())
            && Shows(w[HSYNC], h.SyncEnd(), h.SyncStart()) && High(w[VSYNC]) == 0
            && Shows(w[PIPESRC], h.active, v.active) && Shows(w[DSPSIZE], v.active, h.active)
  {
    var timed := TimingRegisters(ClockRegisters(regs, d, flags), h, v);
    TimingsShown(ClockRegisters(regs, d, flags), h, v);
    TimingsKept(timed, h, v);
    PlaneShown(timed, h, v);
  }

  lemma TimingsShown(regs: map<Register, nat>, h: Axis, v: Axis)
    requires h.Fits() && v.Fits()
    ensures var w := TimingRegisters(regs, h, v);
            && Shows(w[HTOTAL], h.Total(), h.active) && Shows(w[VTOTAL], v.Total(), v.active)
            && Shows(w[HBLANK], h.Total(), h.BlankStart()) && Shows(w[VBLANK], v.Total(), v.BlankStart())
            && Shows(w[HSYNC], h.SyncEnd(), h.SyncStart()) && High(w[VSYNC]) == 0
  {
    AxisShows(h);
    AxisShows(v);
    TimingRegistersAre(regs, h, v);
  }

  lemma PlaneShown(regs: map<Register, nat>, h: Axis, v: Axis)
    requires h.Fits() && v.Fits()
    ensures var w := PlaneRegisters(regs, h, v);
            Shows(w[PIPESRC], h.active, v.active) && Shows(w[DSPSIZE], v.active, h.active)
  {
    PairExactly(h.active, v.active);
    PairExactly(v.active, h.active);
  }

  lemma AxisShows(t: Axis)
    requires t.Fits()
    ensures Shows(Pair(t.Total(), t.active), t.Total(), t.active)
    ensures Shows(Pair(t.Total(), t.BlankStart()), t.Total(), t.BlankStart())
    ensures Shows(Pair(t.SyncEnd(), t.SyncStart()), t.SyncEnd(), t.SyncStart())
    ensures High(Merged(t.SyncEnd(), t.SyncStart())) == 0
  {
    TimingOrder(t);
    PairExactly(t.Total(), t.active);
    PairExactly(t.Total(), t.BlankStart());
    PairExactly(t.SyncEnd(), t.SyncStart());
    MergedIs(t.SyncEnd(), t.SyncStart());
  }

  /** A register that holds v after the timing writes: the plane writes leave it alone. */
  lemma PlaneKeeps(regs: map<Register, nat>, h: Axis, v: Axis, r: Register)
    requires r in regs
    requires r == HTOTAL || r == HBLANK || r == HSYNC || r == VTOTAL || r == VBLANK || r == VSYNC
    ensures r in PlaneRegisters(regs, h, v) && PlaneRegisters(regs, h, v)[r] == regs[r]
  {
  }

  lemma TimingRegistersAre(regs: map<Register, nat>, h: Axis, v: Axis)
    ensures var w := TimingRegisters(regs, h, v);
            && w[HTOTAL] == Pair(h.Total(), h.active) && w[VTOTAL] == Pair(v.Total(), v.active)
            && w[HBLANK] == Pair(h.Total(), h.BlankStart()) && w[VBLANK] == Pair(v.Total(), v.BlankStart())
            && w[HSYNC] == Pair(h.SyncEnd(), h.SyncStart()) && w[VSYNC] == Merged(v.SyncEnd(), v.SyncStart())
  {
  }

  lemma TimingsKept(regs: map<Register, nat>, h: Axis, v: Axis)
    requires HTOTAL in regs && HBLANK in regs && HSYNC in regs && VTOTAL in regs && VBLANK in regs && VSYNC in regs
    ensures var w := PlaneRegisters(regs, h, v);
            && w[HTOTAL] == regs[HTOTAL] && w[HBLANK] == regs[HBLANK] && w[HSYNC] == regs[HSYNC]
            && w[VTOTAL] == regs[VTOTAL] && w[VBLANK] == regs[VBLANK] && w[VSYNC] == regs[VSYNC]
  {
    PlaneKeeps(regs, h, v, HTOTAL);
    PlaneKeeps(regs, h, v, HBLANK);
    PlaneKeeps(regs, h, v, HSYNC);
    PlaneKeeps(regs, h, v, VTOTAL);
    PlaneKeeps(regs, h, v, VBLANK);
    PlaneKeeps(regs, h, v, VSYNC);
  }

  lemma {:induction false} OrCommutes(a: nat, b: nat)
    ensures Or(a, b) == Or(b, a)
    decreases a + b
  {
    if a != 0 || b != 0 {
      OrCommutes(a / 2, b / 2);
    }
  }

  lemma PairSwapped(end: nat, start: nat)
    ensures Or(Sub32(start, 1), Shl32(Sub32(end, 1), 16)) == Pair(end, start)
  {
    OrCommutes(Sub32(start, 1), Shl32(Sub32(end, 1), 16));
  }
}
