/**
  The clocks at which rounding down loses: the clock is rounded down to whole kHz, so the m after the
  rounded one can be nearer by 1 kHz.  For each product N * P1 that is the largest accepted one, these
  clocks are listed, and at all but six of them another point of the search makes up for it.
  */
module GmaLosses {
  import opened Words
  import opened GmaDivisors
  import opened GmaTheorems
  import opened GmaSettings

  /** The clocks at which the search misses the nearest setting. */
  const LOST: set<nat> := {258214, 275357, 292653, 378857, 402857, 426857}

  // ----- where the next m of the largest product is nearer -----

  /** The remainders, from rounding target * d down to a multiple of 120000, at which the next m is nearer. */
  predicate LossRemainder(d: nat, r: int)
    requires 0 < d
  {
    BASE_FREQUENCY - r < (HalfStep(d) + 1) * d && HalfStep(d) * d < r < 60000
  }

  /** If some other m is nearer than the rounded one, it is larger, and the remainder is one of these. */
  lemma LossWindow(target: nat, d: nat, m: nat, m': nat)
    requires 0 < d && m == Rounded(target, d) && m' != m
    requires Distance(target, Clock(m', d)) < Distance(target, Clock(m, d))
    ensures m < m' && LossRemainder(d, target * d - BASE_FREQUENCY * m)
  {
    var f, f', h := Clock(m, d), Clock(m', d), HalfStep(d);
    RoundedBounds(target, d);
    RoundedWithin(target, d);
    OtherBeyond(target, d, m');
    HalfStepBounds(d);
    ClockBounds(m, d);
    ClockBounds(m', d);
    assert Distance(target, f) == h + 1 && Distance(target, f') == h;
    assert (target + h + 1) * d == target * d + (h + 1) * d;
    assert f <= target by {
      if target < f { MulMono(target + h + 1, f, d); }
    }
    assert (f + 1) * d == (target - h) * d == f * d + d;
    Distribute(target, h, d);
    assert m < m' by {
      if m' < m { ClockMono(m', m, d); }
    }
    assert (f' + 1) * d == f' * d + d;
    MulMono(f' + 1, target + h + 1, d);
  }

  /** An accepted point within h. */
  predicate Within(target: nat, q1: nat, k: nat, h: nat) {
    Accepted(target, q1, k) && Delta(target, q1, k) <= h
  }

  /** A clock with such a remainder for the product, too high for the next product. */
  predicate LossAt(target: nat, product: nat, m: nat)
    requires 0 < product
  {
    && 77 <= m <= 130 && LossRemainder(7 * product, target * (7 * product) - BASE_FREQUENCY * m)
    && (product == 80 || 15780000 <= target * (7 * NextUp(product)))
  }

  /** The remainder, divided by the common factor g of the denominator and 120000. */
  lemma Reduced(target: nat, m: nat, g: nat, a: nat, b: nat, h: nat, low: nat, high: nat)
    requires 0 < g * a && g * b == BASE_FREQUENCY && h * (g * a) <= 60000 < (h + 1) * (g * a)
    requires LossRemainder(g * a, target * (g * a) - BASE_FREQUENCY * m)
    requires g * (low - 1) <= h * (g * a) || g * (low - 1) <= BASE_FREQUENCY - (h + 1) * (g * a)
    requires 60000 <= g * (high + 1)
    ensures HalfStep(g * a) == h
    ensures low <= a * target - b * m <= high
  {
    var v := a * target - b * m;
    assert (h + 1) * (g * a) == h * (g * a) + g * a;
    DivModUnique(60000, g * a, h, 60000 - h * (g * a));
    CommonFactor(target, m, g, a, b);
    if v <= low - 1 {
      MulMono(v, low - 1, g);
    }
    if high + 1 <= v {
      MulMono(high + 1, v, g);
    }
  }

  lemma CommonFactor(x: int, y: int, g: int, a: int, b: int)
    ensures x * (g * a) - (g * b) * y == g * (a * x - b * y)
  {
  }

  // For each product, divided by the common factor of 7 * product and 120000: the clocks with such a
  // remainder that are too high for the next product, and a point of another product that makes up for
  // the loss.  Some products have no such clock, some not even such a remainder.

  lemma Loss5(target: nat, m: nat) returns (q1: nat, k: nat)
    requires LossAt(target, 5, m)
    ensures target in LOST || Within(target, q1, k, HalfStep(35))
  {
    Reduced(target, m, 5, 7, 24000, 1714, 11999, 11999);
    assert target == 378857 || target == 402857 || target == 426857;
    q1, k := 1, 5;
  }

  lemma Loss6(target: nat, m: nat) returns (q1: nat, k: nat)
    requires LossAt(target, 6, m)
    ensures target in LOST || Within(target, q1, k, HalfStep(42))
  {
    Reduced(target, m, 6, 7, 20000, 1428, 9998, 9999);
    assert target == 332857 || target == 335714 || target == 352857 || target == 355714
        || target == 372857;
    q1, k := 1, 5;
    match target {
      case 332857 => q1, k := 1, 5; DeltaOf(target, 1, 5, 97, 332571);
      case 335714 => q1, k := 1, 5; DeltaOf(target, 1, 5, 98, 336000);
      case 352857 => q1, k := 1, 5; DeltaOf(target, 1, 5, 103, 353142);
      case 355714 => q1, k := 1, 5; DeltaOf(target, 1, 5, 104, 356571);
      case 372857 => q1, k := 1, 5; DeltaOf(target, 1, 5, 109, 373714);
      case _ =>
    }
  }

  lemma Loss7(target: nat, m: nat) returns (q1: nat, k: nat)
    requires LossAt(target, 7, m)
    ensures target in LOST || Within(target, q1, k, HalfStep(49))
  {
    Reduced(target, m, 1, 49, 120000, 1224, 59977, 59999);
    assert target == 282857 || target == 285306 || target == 287755 || target == 290204
        || target == 292653 || target == 295102 || target == 297551;
    q1, k := 1, 5;
    match target {
      case 282857 => q1, k := 1, 6; DeltaOf(target, 1, 6, 99, 282857);
      case 285306 => q1, k := 1, 6; DeltaOf(target, 1, 6, 100, 285714);
      case 287755 => q1, k := 1, 5; DeltaOf(target, 1, 5, 84, 288000);
      case 290204 => q1, k := 1, 5; DeltaOf(target, 1, 5, 85, 291428);
      case 295102 => q1, k := 1, 5; DeltaOf(target, 1, 5, 86, 294857);
      case 297551 => q1, k := 1, 6; DeltaOf(target, 1, 6, 104, 297142);
      case _ =>
    }
  }

  lemma Loss8(target: nat, m: nat) returns (q1: nat, k: nat)
    requires LossAt(target, 8, m)
    ensures target in LOST || Within(target, q1, k, HalfStep(56))
  {
    Reduced(target, m, 8, 7, 15000, 1071, 7498, 7499);
    assert target == 258214 || target == 260357 || target == 273214 || target == 275357;
    q1, k := 1, 5;
    match target {
      case 260357 => q1, k := 1, 6; DeltaOf(target, 1, 6, 91, 260000);
      case 273214 => q1, k := 1, 5; DeltaOf(target, 1, 5, 80, 274285);
      case _ =>
    }
  }

  lemma Loss9(target: nat, m: nat) returns (q1: nat, k: nat)
    requires LossAt(target, 9, m)
    ensures target in LOST || Within(target, q1, k, HalfStep(63))
  {
    Reduced(target, m, 3, 21, 40000, 952, 19993, 19999);
    assert target == 225714 || target == 227619 || target == 233333 || target == 235238
        || target == 242857;
    q1, k := 1, 5;
    match target {
      case 225714 => q1, k := 1, 6; DeltaOf(target, 1, 6, 79, 225714);
      case 227619 => q1, k := 1, 7; DeltaOf(target, 1, 7, 93, 227755);
      case 233333 => q1, k := 1, 8; DeltaOf(target, 1, 8, 109, 233571);
      case 235238 => q1, k := 1, 7; DeltaOf(target, 1, 7, 96, 235102);
      case 242857 => q1, k := 1, 6; DeltaOf(target, 1, 6, 85, 242857);
      case _ =>
    }
  }

  lemma NoLoss10(target: nat, m: nat)
    ensures !LossAt(target, 10, m)
  {
    if LossAt(target, 10, m) {
      Reduced(target, m, 10, 7, 12000, 857, 6000, 5999);
    }
  }

  lemma Loss12(target: nat, m: nat) returns (q1: nat, k: nat)
    requires LossAt(target, 12, m)
    ensures target in LOST || Within(target, q1, k, HalfStep(84))
  {
    Reduced(target, m, 12, 7, 10000, 714, 4999, 4999);
    assert target == 167857 || target == 177857;
    q1, k := 1, 5;
    match target {
      case 167857 => q1, k := 1, 10; DeltaOf(target, 1, 10, 98, 168000);
      case 177857 => q1, k := 1, 8; DeltaOf(target, 1, 8, 83, 177857);
      case _ =>
    }
  }

  lemma NoLoss14(target: nat, m: nat)
    ensures !LossAt(target, 14, m)
  {
    if LossAt(target, 14, m) {
      Reduced(target, m, 2, 49, 60000, 612, 29989, 29999);
      if m <= 126 {} else {}
    }
  }

  lemma Loss15(target: nat, m: nat) returns (q1: nat, k: nat)
    requires LossAt(target, 15, m)
    ensures target in LOST || Within(target, q1, k, HalfStep(105))
  {
    Reduced(target, m, 15, 7, 8000, 571, 3998, 3999);
    assert target == 145714 || target == 146857;
    q1, k := 1, 5;
    match target {
      case 145714 => q1, k := 1, 10; DeltaOf(target, 1, 10, 85, 145714);
      case 146857 => q1, k := 2, 7; DeltaOf(target, 2, 7, 120, 146938);
      case _ =>
    }
  }

  lemma Loss16(target: nat, m: nat) returns (q1: nat, k: nat)
    requires LossAt(target, 16, m)
    ensures target in LOST || Within(target, q1, k, HalfStep(112))
  {
    Reduced(target, m, 16, 7, 7500, 535, 3749, 3749);
    assert target == 129107 || target == 136607;
    q1, k := 1, 5;
    match target {
      case 129107 => q1, k := 3, 5; DeltaOf(target, 3, 5, 113, 129142);
      case 136607 => q1, k := 1, 10; DeltaOf(target, 1, 10, 80, 137142);
      case _ =>
    }
  }

  lemma Loss18(target: nat, m: nat) returns (q1: nat, k: nat)
    requires LossAt(target, 18, m)
    ensures target in LOST || Within(target, q1, k, HalfStep(126))
  {
    Reduced(target, m, 6, 21, 20000, 476, 9997, 9999);
    assert target == 112857 || target == 117619;
    q1, k := 1, 5;
    match target {
      case 112857 => q1, k := 2, 6; DeltaOf(target, 2, 6, 79, 112857);
      case 117619 => q1, k := 2, 7; DeltaOf(target, 2, 7, 96, 117551);
      case _ =>
    }
  }

  lemma Loss20(target: nat, m: nat) returns (q1: nat, k: nat)
    requires LossAt(target, 20, m)
    ensures target in LOST || Within(target, q1, k, HalfStep(140))
  {
    Reduced(target, m, 20, 7, 6000, 428, 2998, 2999);
    assert target == 111857;
    q1, k := 1, 5;
    match target {
      case 111857 => q1, k := 3, 5; DeltaOf(target, 3, 5, 98, 112000);
      case _ =>
    }
  }

  lemma Loss21(target: nat, m: nat) returns (q1: nat, k: nat)
    requires LossAt(target, 21, m)
    ensures target in LOST || Within(target, q1, k, HalfStep(147))
  {
    Reduced(target, m, 3, 49, 40000, 408, 19993, 19999);
    assert target == 95102 || target == 97551;
    q1, k := 1, 5;
    match target {
      case 95102 => q1, k := 2, 10; DeltaOf(target, 2, 10, 111, 95142);
      case 97551 => q1, k := 2, 8; DeltaOf(target, 2, 8, 91, 97500);
      case _ =>
    }
  }

  lemma NoLoss24(target: nat, m: nat)
    ensures !LossAt(target, 24, m)
  {
    if LossAt(target, 24, m) {
      Reduced(target, m, 24, 7, 5000, 357, 2500, 2499);
    }
  }

  lemma NoLoss25(target: nat, m: nat)
    ensures !LossAt(target, 25, m)
  {
    if LossAt(target, 25, m) {
      Reduced(target, m, 25, 7, 4800, 342, 2400, 2399);
    }
  }

  lemma Loss27(target: nat, m: nat) returns (q1: nat, k: nat)
    requires LossAt(target, 27, m)
    ensures target in LOST || Within(target, q1, k, HalfStep(189))
  {
    Reduced(target, m, 3, 63, 40000, 317, 19972, 19999);
    assert target == 80952 || target == 81587 || target == 82222 || target == 82857;
    q1, k := 1, 5;
    match target {
      case 80952 => q1, k := 2, 9; DeltaOf(target, 2, 9, 85, 80952);
      case 81587 => q1, k := 5, 5; DeltaOf(target, 5, 5, 119, 81600);
      case 82222 => q1, k := 2, 10; DeltaOf(target, 2, 10, 96, 82285);
      case 82857 => q1, k := 2, 9; DeltaOf(target, 2, 9, 87, 82857);
      case _ =>
    }
  }

  lemma NoLoss28(target: nat, m: nat)
    ensures !LossAt(target, 28, m)
  {
    if LossAt(target, 28, m) {
      Reduced(target, m, 4, 49, 30000, 306, 14995, 14999);
    }
  }

  lemma Loss30(target: nat, m: nat) returns (q1: nat, k: nat)
    requires LossAt(target, 30, m)
    ensures target in LOST || Within(target, q1, k, HalfStep(210))
  {
    Reduced(target, m, 30, 7, 4000, 285, 1999, 1999);
    assert target == 72857;
    q1, k := 1, 5;
    match target {
      case 72857 => q1, k := 2, 10; DeltaOf(target, 2, 10, 85, 72857);
      case _ =>
    }
  }

  lemma NoLoss32(target: nat, m: nat)
    ensures !LossAt(target, 32, m)
  {
    if LossAt(target, 32, m) {
      Reduced(target, m, 32, 7, 3750, 267, 1875, 1874);
    }
  }

  lemma NoLoss35(target: nat, m: nat)
    ensures !LossAt(target, 35, m)
  {
    if LossAt(target, 35, m) {
      Reduced(target, m, 5, 49, 24000, 244, 11996, 11999);
    }
  }

  lemma NoLoss36(target: nat, m: nat)
    ensures !LossAt(target, 36, m)
  {
    if LossAt(target, 36, m) {
      Reduced(target, m, 12, 21, 10000, 238, 4999, 4999);
    }
  }

  lemma NoLoss40(target: nat, m: nat)
    ensures !LossAt(target, 40, m)
  {
    if LossAt(target, 40, m) {
      Reduced(target, m, 40, 7, 3000, 214, 1499, 1499);
    }
  }

  lemma NoLoss42(target: nat, m: nat)
    ensures !LossAt(target, 42, m)
  {
    if LossAt(target, 42, m) {
      Reduced(target, m, 6, 49, 20000, 204, 9997, 9999);
    }
  }

  lemma Loss45(target: nat, m: nat) returns (q1: nat, k: nat)
    requires LossAt(target, 45, m)
    ensures target in LOST || Within(target, q1, k, HalfStep(315))
  {
    Reduced(target, m, 15, 21, 8000, 190, 3991, 3999);
    assert target == 48571 || target == 48952 || target == 49333 || target == 49714;
    q1, k := 1, 5;
    match target {
      case 48571 => q1, k := 3, 10; DeltaOf(target, 3, 10, 85, 48571);
      case 48952 => q1, k := 4, 7; DeltaOf(target, 4, 7, 80, 48979);
      case 49333 => q1, k := 4, 8; DeltaOf(target, 4, 8, 92, 49285);
      case 49714 => q1, k := 3, 10; DeltaOf(target, 3, 10, 87, 49714);
      case _ =>
    }
  }

  lemma Loss48(target: nat, m: nat) returns (q1: nat, k: nat)
    requires LossAt(target, 48, m)
    ensures target in LOST || Within(target, q1, k, HalfStep(336))
  {
    Reduced(target, m, 48, 7, 2500, 178, 1248, 1249);
    assert target == 46607;
    q1, k := 1, 5;
    match target {
      case 46607 => q1, k := 4, 8; DeltaOf(target, 4, 8, 87, 46607);
      case _ =>
    }
  }

  lemma NoLoss49(target: nat, m: nat)
    ensures !LossAt(target, 49, m)
  {
    if LossAt(target, 49, m) {
      Reduced(target, m, 1, 343, 120000, 174, 59976, 59999);
    }
  }

  lemma Loss50(target: nat, m: nat) returns (q1: nat, k: nat)
    requires LossAt(target, 50, m)
    ensures target in LOST || Within(target, q1, k, HalfStep(350))
  {
    Reduced(target, m, 50, 7, 2400, 171, 1198, 1199);
    assert target == 43714 || target == 44057;
    q1, k := 1, 5;
    match target {
      case 43714 => q1, k := 4, 10; DeltaOf(target, 4, 10, 102, 43714);
      case 44057 => q1, k := 5, 7; DeltaOf(target, 5, 7, 90, 44081);
      case _ =>
    }
  }

  lemma Loss54(target: nat, m: nat) returns (q1: nat, k: nat)
    requires LossAt(target, 54, m)
    ensures target in LOST || Within(target, q1, k, HalfStep(378))
  {
    Reduced(target, m, 6, 63, 20000, 158, 9984, 9999);
    assert target == 40476 || target == 41111;
    q1, k := 1, 5;
    match target {
      case 40476 => q1, k := 4, 9; DeltaOf(target, 4, 9, 85, 40476);
      case 41111 => q1, k := 5, 7; DeltaOf(target, 5, 7, 84, 41142);
      case _ =>
    }
  }

  lemma NoLoss56(target: nat, m: nat)
    ensures !LossAt(target, 56, m)
  {
    if LossAt(target, 56, m) {
      Reduced(target, m, 8, 49, 15000, 153, 7498, 7499);
    }
  }

  lemma NoLoss60(target: nat, m: nat)
    ensures !LossAt(target, 60, m)
  {
    if LossAt(target, 60, m) {
      Reduced(target, m, 60, 7, 2000, 142, 1000, 999);
    }
  }

  lemma NoLoss63(target: nat, m: nat)
    ensures !LossAt(target, 63, m)
  {
    if LossAt(target, 63, m) {
      Reduced(target, m, 3, 147, 40000, 136, 19993, 19999);
    }
  }

  lemma NoLoss64(target: nat, m: nat)
    ensures !LossAt(target, 64, m)
  {
    if LossAt(target, 64, m) {
      Reduced(target, m, 64, 7, 1875, 133, 938, 937);
    }
  }

  lemma Loss70(target: nat, m: nat) returns (q1: nat, k: nat)
    requires LossAt(target, 70, m)
    ensures target in LOST || Within(target, q1, k, HalfStep(490))
  {
    Reduced(target, m, 10, 49, 12000, 122, 5979, 5999);
    assert target == 31469 || target == 31714 || target == 31959;
    q1, k := 1, 5;
    match target {
      case 31469 => q1, k := 7, 7; DeltaOf(target, 7, 7, 90, 31486);
      case 31714 => q1, k := 6, 10; DeltaOf(target, 6, 10, 111, 31714);
      case 31959 => q1, k := 5, 9; DeltaOf(target, 5, 9, 84, 32000);
      case _ =>
    }
  }

  lemma NoLoss72(target: nat, m: nat)
    ensures !LossAt(target, 72, m)
  {
    if LossAt(target, 72, m) {
      Reduced(target, m, 24, 21, 5000, 119, 2500, 2499);
    }
  }

  lemma NoLoss80(target: nat, m: nat)
    ensures !LossAt(target, 80, m)
  {
    if LossAt(target, 80, m) {
      Reduced(target, m, 80, 7, 1500, 107, 750, 749);
    }
  }

  lemma LossTable(target: nat, product: nat, m: nat) returns (q1: nat, k: nat)
    requires Product(product) && LossAt(target, product, m)
    ensures target in LOST || Within(target, q1, k, HalfStep(7 * product))
  {
    match product {
      case 5 => q1, k := Loss5(target, m);
      case 6 => q1, k := Loss6(target, m);
      case 7 => q1, k := Loss7(target, m);
      case 8 => q1, k := Loss8(target, m);
      case 9 => q1, k := Loss9(target, m);
      case 10 => NoLoss10(target, m);
      case 12 => q1, k := Loss12(target, m);
      case 14 => NoLoss14(target, m);
      case 15 => q1, k := Loss15(target, m);
      case 16 => q1, k := Loss16(target, m);
      case 18 => q1, k := Loss18(target, m);
      case 20 => q1, k := Loss20(target, m);
      case 21 => q1, k := Loss21(target, m);
      case 24 => NoLoss24(target, m);
      case 25 => NoLoss25(target, m);
      case 27 => q1, k := Loss27(target, m);
      case 28 => NoLoss28(target, m);
      case 30 => q1, k := Loss30(target, m);
      case 32 => NoLoss32(target, m);
      case 35 => NoLoss35(target, m);
      case 36 => NoLoss36(target, m);
      case 40 => NoLoss40(target, m);
      case 42 => NoLoss42(target, m);
      case 45 => q1, k := Loss45(target, m);
      case 48 => q1, k := Loss48(target, m);
      case 49 => NoLoss49(target, m);
      case 50 => q1, k := Loss50(target, m);
      case 54 => q1, k := Loss54(target, m);
      case 56 => NoLoss56(target, m);
      case 60 => NoLoss60(target, m);
      case 63 => NoLoss63(target, m);
      case 64 => NoLoss64(target, m);
      case 70 => q1, k := Loss70(target, m);
      case 72 => NoLoss72(target, m);
      case 80 => NoLoss80(target, m);
    }
  }
}
