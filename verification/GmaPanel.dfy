/**
  The panel's view of the graphics init: from the pixel clock and the timings of the EDID to numbers read
  back from the registers, without reference to how they were put together.
  */
module GmaPanel {
  import opened Words
  import opened GmaDivisors
  import opened GmaTheorems
  import opened GmaSettings
  import opened GmaLosses
  import opened GmaOptimality
  import opened GmaRegisters

  /** The clock of a PLL with these two words, in kHz; 0 if P1 is missing. */
  function DecodedClock(fp0: nat, dpll: nat): nat {
    var n, m1, m2, p1 := fp0 / 0x1_0000 % 0x40 + 2, fp0 / 0x100 % 0x40 + 2, fp0 % 0x40, dpll % 0x100;
    if p1 == 0 then 0 else Quotient(Quotient(120000 * (5 * m1 + m2), n), p1 * 7)
  }

  /** The mode bits leave the two places of P1 free. */
  predicate LeavesRoom(flags: nat) { flags % 0x100 == 0 && flags / 0x1_0000 % 0x100 == 0 }

  // ----- the PLL words -----

  lemma ControlWordIs(flags: u32, p1: nat)
    requires LeavesRoom(flags) && p1 < 0x100
    ensures ControlWord(flags, p1) == flags + p1 * 0x1_0000 + p1
    ensures ControlWord(flags, p1) % 0x100 == p1 == ControlWord(flags, p1) / 0x1_0000 % 0x100
  {
    var top, mid := FlagParts(flags);
    FilledGaps(flags, top, mid, p1);
    WordParts(top, mid, p1);
  }

  lemma FilledGaps(flags: u32, top: nat, mid: nat, p1: nat)
    requires mid < 0x100 && flags == top * 0x100_0000 + mid * 0x100 && p1 < 0x100
    ensures ControlWord(flags, p1) == ((top * 0x100 + p1) * 0x100 + mid) * 0x100 + p1
  {
    var x := (top * 0x100 + p1) * 0x100 + mid;
    UpperGap(top, mid * 0x100, p1);
    assert Or(flags, Shl32(p1, 16)) == x * 0x100;
    LowerGap(x, p1);
  }

  lemma FlagParts(flags: u32) returns (top: nat, mid: nat)
    requires LeavesRoom(flags)
    ensures mid < 0x100 && flags == top * 0x100_0000 + mid * 0x100
  {
    top, mid := flags / 0x1_0000 / 0x100, flags % 0x1_0000 / 0x100;
    var hi, lo := flags / 0x1_0000, flags % 0x1_0000;
    assert flags == hi * 0x1_0000 + lo;
    assert hi == top * 0x100;
    DivModUnique(flags, 0x100, hi * 0x100 + lo / 0x100, lo % 0x100);
  }

  /** Bits 16 to 23 are free: P1 fits in there. */
  lemma UpperGap(top: nat, low: nat, p1: nat)
    requires low < 0x1_0000 && p1 < 0x100
    ensures Or(top * 0x100_0000 + low, Shl32(p1, 16)) == (top * 0x100 + p1) * 0x1_0000 + low
  {
    assert Pow2(8) == 0x100 && Pow2(16) == 0x1_0000 by { Pow2Values(); }
    ShlFits(p1, 16);
    OrAbove(top * 0x100, low, p1, 16);
    UpIs(top * 0x100, 16);
    UpIs(p1, 16);
    UpIs(top * 0x100 + p1, 16);
    OrDisjoint(top, p1, 8);
  }

  lemma LowerGap(x: nat, p1: nat)
    requires p1 < 0x100
    ensures Or(x * 0x100, p1) == x * 0x100 + p1
  {
    assert Pow2(8) == 0x100 by { Pow2Values(); }
    OrDisjoint(x, p1, 8);
  }

  lemma WordParts(top: nat, mid: nat, p1: nat)
    requires mid < 0x100 && p1 < 0x100
    ensures var w := ((top * 0x100 + p1) * 0x100 + mid) * 0x100 + p1;
            w % 0x100 == p1 && w / 0x1_0000 % 0x100 == p1
  {
    var w := ((top * 0x100 + p1) * 0x100 + mid) * 0x100 + p1;
    DivModUnique(w, 0x100, (top * 0x100 + p1) * 0x100 + mid, p1);
    DivModUnique(w, 0x1_0000, top * 0x100 + p1, mid * 0x100 + p1);
    DivModUnique(top * 0x100 + p1, 0x100, top, p1);
  }

  /** FP0 and DPLL, and nothing else, say which clock was set: one that misses the target by the least delta. */
  lemma ClockReadsBack(target: nat, regs: map<Register, nat>, d: Divisors, h: Axis, v: Axis, flags: u32)
    requires DivisorsFor(target, d) && LeavesRoom(flags)
    ensures var w := ModeRegisters(regs, d, h, v, flags);
            && w[FP0] == (d.n - 2) * 0x1_0000 + (d.m1 - 2) * 0x100 + d.m2
            && w[DPLL] == flags + d.p1 * 0x1_0000 + d.p1
            && w[DPLL] % 0x100 == w[DPLL] / 0x1_0000 % 0x100 == d.p1
            && Distance(target, DecodedClock(w[FP0], w[DPLL])) == Delta(target, d.p1, d.n)
  {
    var m := M(target, d.p1, d.n);
    SplitOfM(m);
    DivisorWordDecodes(d);
    ControlWordIs(flags, d.p1);
    DivisorsRead(target, regs, d, h, v, flags);
    DecodedIsPrinted(d, DivisorWord(d), ControlWord(flags, d.p1));
    ClockRegistersKept(regs, d, h, v, flags);
  }

  lemma DecodedIsPrinted(d: Divisors, fp0: nat, dpll: nat)
    requires InRange(d) && WordN(fp0) == d.n && WordM1(fp0) == d.m1 && WordM2(fp0) == d.m2 && dpll % 0x100 == d.p1
    ensures DecodedClock(fp0, dpll) == PrintedClock(d)
  {
    SmallMod(BASE_FREQUENCY * (5 * d.m1 + d.m2), U32);
  }

  lemma ClockRegistersKept(regs: map<Register, nat>, d: Divisors, h: Axis, v: Axis, flags: u32)
    ensures var w := ModeRegisters(regs, d, h, v, flags);
            FP0 in w && DPLL in w && w[FP0] == DivisorWord(d) && w[DPLL] == ControlWord(flags, d.p1)
  {
    var clocked := ClockRegisters(regs, d, flags);
    var timed := TimingRegisters(clocked, h, v);
    assert timed[FP0] == clocked[FP0] && timed[DPLL] == clocked[DPLL];
    assert PlaneRegisters(timed, h, v)[FP0] == timed[FP0] && PlaneRegisters(timed, h, v)[DPLL] == timed[DPLL];
  }

  // ----- the timing words -----

  lemma PairIs(end: nat, start: nat)
    requires Fits16(end) && Fits16(start)
    ensures Pair(end, start) == (end - 1) * 0x1_0000 + (start - 1)
  {
    PairExactly(end, start);
  }

  /** One axis of the panel: the five ends behind its three words. */
  lemma AxisWords(t: Axis)
    requires 1 <= t.active && t.frontPorch + t.sync <= t.blank && t.active + t.border + t.blank <= 0x1_0000
    ensures Pair(t.Total(), t.active) == (t.active + t.border + t.blank - 1) * 0x1_0000 + t.active - 1
    ensures Pair(t.Total(), t.BlankStart())
         == (t.active + t.border + t.blank - 1) * 0x1_0000 + t.active + t.border - 1
    ensures Pair(t.SyncEnd(), t.SyncStart())
         == (t.active + t.border + t.frontPorch + t.sync - 1) * 0x1_0000 + t.active + t.border + t.frontPorch - 1
  {
    TimingOrder(t);
    PairIs(t.Total(), t.active);
    PairIs(t.Total(), t.BlankStart());
    PairIs(t.SyncEnd(), t.SyncStart());
  }

  /** The horizontal timing words in terms of the EDID's numbers. */
  lemma HorizontalWords(regs: map<Register, nat>, d: Divisors, h: Axis, v: Axis, flags: u32)
    requires 1 <= h.active && h.frontPorch + h.sync <= h.blank && h.active + h.border + h.blank <= 0x1_0000
    ensures var w := ModeRegisters(regs, d, h, v, flags);
            && w[HTOTAL] == (h.active + h.border + h.blank - 1) * 0x1_0000 + h.active - 1
            && w[HBLANK] == (h.active + h.border + h.blank - 1) * 0x1_0000 + h.active + h.border - 1
            && w[HSYNC] == (h.active + h.border + h.frontPorch + h.sync - 1) * 0x1_0000
                           + h.active + h.border + h.frontPorch - 1
  {
    AxisWords(h);
    TimingRegistersAre(ClockRegisters(regs, d, flags), h, v);
    TimingsKept(TimingRegisters(ClockRegisters(regs, d, flags), h, v), h, v);
  }

  /** The vertical ones; VSYNC has the two numbers on top of each other in its low half. */
  lemma VerticalWords(regs: map<Register, nat>, d: Divisors, h: Axis, v: Axis, flags: u32)
    requires 1 <= v.active && v.frontPorch + v.sync <= v.blank && v.active + v.border + v.blank <= 0x1_0000
    ensures var w := ModeRegisters(regs, d, h, v, flags);
            && w[VTOTAL] == (v.active + v.border + v.blank - 1) * 0x1_0000 + v.active - 1
            && w[VBLANK] == (v.active + v.border + v.blank - 1) * 0x1_0000 + v.active + v.border - 1
            && w[VSYNC] < 0x1_0000
            && forall i :: BitOf(w[VSYNC], i) <==>
                 || BitOf(v.active + v.border + v.frontPorch + v.sync - 1, i)
                 || BitOf(v.active + v.border + v.frontPorch - 1, i)
  {
    AxisWords(v);
    VsyncWord(v);
    TimingRegistersAre(ClockRegisters(regs, d, flags), h, v);
    TimingsKept(TimingRegisters(ClockRegisters(regs, d, flags), h, v), h, v);
  }

  lemma VsyncWord(v: Axis)
    requires v.Fits()
    ensures var w := Merged(v.SyncEnd(), v.SyncStart());
            && w < 0x1_0000
            && forall i :: BitOf(w, i) <==>
                 || BitOf(v.active + v.border + v.frontPorch + v.sync - 1, i)
                 || BitOf(v.active + v.border + v.frontPorch - 1, i)
  {
    TimingOrder(v);
    MergedIs(v.SyncEnd(), v.SyncStart());
    assert Low(Merged(v.SyncEnd(), v.SyncStart())) == Merged(v.SyncEnd(), v.SyncStart());
  }

  /** Sizes, and the panel fitter off. */
  lemma PlaneWords(regs: map<Register, nat>, d: Divisors, h: Axis, v: Axis, flags: u32)
    requires 1 <= h.active <= 0x1_0000 && 1 <= v.active <= 0x1_0000
    ensures var w := ModeRegisters(regs, d, h, v, flags);
            && w[PIPESRC] == (h.active - 1) * 0x1_0000 + v.active - 1
            && w[DSPSIZE] == (v.active - 1) * 0x1_0000 + h.active - 1
            && w[PF_CTL] == w[PF_WIN_SZ] == w[PF_WIN_POS] == w[PFIT_PGM_RATIOS] == w[PFIT_CONTROL] == 0
            && w[DSPPOS] == 0
  {
    PairIs(h.active, v.active);
    PairIs(v.active, h.active);
    PlaneRegistersAre(TimingRegisters(ClockRegisters(regs, d, flags), h, v), h, v);
  }

  lemma PlaneRegistersAre(regs: map<Register, nat>, h: Axis, v: Axis)
    ensures var w := PlaneRegisters(regs, h, v);
            && w[PIPESRC] == Pair(h.active, v.active) && w[DSPSIZE] == Pair(v.active, h.active)
            && w[PF_CTL] == w[PF_WIN_SZ] == w[PF_WIN_POS] == w[PFIT_PGM_RATIOS] == w[PFIT_CONTROL] == 0
            && w[DSPPOS] == 0
  {
  }

  // ----- search and mode setting -----

  /** The two words hold a clock that misses the target by the least delta of the search. */
  ghost predicate HoldsBest(target: nat, fp0: nat, dpll: nat) {
    exists p1, n :: Best(target, p1, n, 9, 5) && Distance(target, DecodedClock(fp0, dpll)) == Delta(target, p1, n)
  }

  /** No P1, N and m of the PLL gives a nearer clock. */
  ghost predicate HoldsNearest(target: nat, fp0: nat, dpll: nat) {
    forall q1, k, m :: Setting(q1, k, m) ==> Distance(target, DecodedClock(fp0, dpll)) <= SettingError(target, q1, k, m)
  }

  /** The registers hold the best clock for a target, and a nearest one of the PLL unless it is one of the six. */
  ghost predicate ClockedAt(target: nat, regs: map<Register, nat>) {
    && FP0 in regs && DPLL in regs && HoldsBest(target, regs[FP0], regs[DPLL])
    && (target <= 450857 && target !in LOST ==> HoldsNearest(target, regs[FP0], regs[DPLL]))
  }

  /** The clocks for which the search finds divisors. */
  ghost predicate FoundFor(target: nat) { 16393 <= target <= 450857 || Aliased(target) }

  lemma FoundForExactly(target: nat)
    ensures FoundFor(target) <==> exists p1, n :: Accepted(target, p1, n)
    ensures target <= 7685977 ==> (FoundFor(target) <==> 16393 <= target <= 450857)
  {
    FeasibleExactly(target);
    if target <= 7685977 {
      FirstAlias(target);
    }
  }

  lemma DoubledClock(pixelClock: nat)
    requires pixelClock <= 3842988
    ensures FoundFor(2 * pixelClock % 0x1_0000_0000) <==> 8197 <= pixelClock <= 225428
  {
    SmallMod(2 * pixelClock, 0x1_0000_0000);
    FoundForExactly(2 * pixelClock);
  }

  lemma ClockedAtBest(target: nat, regs: map<Register, nat>, d: Divisors, h: Axis, v: Axis, flags: u32)
    requires DivisorsFor(target, d) && LeavesRoom(flags)
    ensures ClockedAt(target, ModeRegisters(regs, d, h, v, flags))
  {
    var w := ModeRegisters(regs, d, h, v, flags);
    ClockRegistersKept(regs, d, h, v, flags);
    ClockReadsBack(target, regs, d, h, v, flags);
    assert HoldsBest(target, w[FP0], w[DPLL]);
    if target <= HIGHEST && target !in LOST {
      NearestRead(target, d.p1, d.n, w[FP0], w[DPLL]);
    }
  }

  lemma NearestRead(target: nat, p1: nat, n: nat, fp0: nat, dpll: nat)
    requires target <= HIGHEST && target !in LOST && Best(target, p1, n, 9, 5)
    requires Distance(target, DecodedClock(fp0, dpll)) == Delta(target, p1, n)
    ensures HoldsNearest(target, fp0, dpll)
  {
    OptimalExactly(target, p1, n);
  }

  /**
    From the EDID to the registers.  A single-channel panel is clocked at twice its pixel clock.  The
    clocks served are those of the PLL, and the alias bands above them; on failure no register changes.
    */
  method SetPanel(display: Display, pixelClock: u32, dualChannel: bool, h: Axis, v: Axis, before: u32, flags: u32)
    returns (ok: bool)
    modifies display
    ensures ok <==> FoundFor(if dualChannel then pixelClock else 2 * pixelClock % 0x1_0000_0000)
    ensures !dualChannel && pixelClock <= 3842988 ==> (ok <==> 8197 <= pixelClock <= 225428)
    ensures dualChannel && pixelClock <= 7685977 ==> (ok <==> 16393 <= pixelClock <= 450857)
    ensures !ok ==> display.regs == old(display.regs)
    ensures ok ==> exists d :: DivisorsFor(if dualChannel then pixelClock else 2 * pixelClock % 0x1_0000_0000, d)
                            && display.regs == ModeRegisters(old(display.regs), d, h, v, flags)
    ensures ok && LeavesRoom(flags) ==>
              ClockedAt(if dualChannel then pixelClock else 2 * pixelClock % 0x1_0000_0000, display.regs)
  {
    var target: u32 := if dualChannel then pixelClock else Mul32(2, pixelClock);
    var r := FindDivisors(target);
    FoundForExactly(target);
    if !dualChannel && pixelClock <= 3842988 {
      DoubledClock(pixelClock);
    }
    if r == NotFound {
      ok := false;
    } else {
      ok := true;
      ghost var regs := display.regs;
      display.SetMode(r.d, h, v, before, flags);
      assert DivisorsFor(target, r.d);
      if LeavesRoom(flags) {
        ClockedAtBest(target, regs, r.d, h, v, flags);
      }
    }
  }
}
