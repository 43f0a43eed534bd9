/**
  All settings of the PLL, and not only the rounded ones of the search: how far the settings of one
  denominator can be from a clock, and why only the largest accepted product N * P1 matters.
  */
module GmaSettings {
  import opened Words
  import opened GmaDivisors
  import opened GmaTheorems

  /** A setting of the PLL: any P1, N and any m the hardware accepts, rounded or not. */
  predicate Setting(p1: nat, n: nat, m: nat) { Candidate(p1, n) && 77 <= m <= 131 }

  /** How far a setting is from the clock. */
  function SettingError(target: nat, p1: nat, n: nat, m: nat): nat
    requires Setting(p1, n, m)
  {
    Distance(target, Frequency(m, p1, n))
  }

  lemma SettingErrorIs(target: nat, p1: nat, n: nat, m: nat)
    requires Setting(p1, n, m)
    ensures 0 < Denom(p1, n) && SettingError(target, p1, n, m) == Distance(target, Clock(m, Denom(p1, n)))
  {
    DenomRange(p1, n);
    FrequencyRange(m, p1, n);
  }

  // ----- one denominator -----

  /** The clock of m, when the target is r above it before rounding: r / d below the target, rounded up. */
  lemma ClockBelow(target: nat, d: nat, m: nat, r: nat)
    requires 0 < d && target * d == BASE_FREQUENCY * m + r
    ensures Distance(target, Clock(m, d)) == (r + d - 1) / d
  {
    var c := (r + d - 1) / d;
    assert (r + d - 1) == c * d + (r + d - 1) % d;
    assert (target - c) * d == target * d - c * d by { Distribute(target, c, d); }
    assert (target + 1) * d == target * d + d;
    if target < c {
      MulMono(target + 1, c, d);
    }
    DivModUnique(BASE_FREQUENCY * m, d, target - c, c * d - r);
  }

  /** The clock of the next m is (120000 - r) / d above the target, rounded down. */
  lemma ClockAbove(target: nat, d: nat, m: nat, r: nat)
    requires 0 < d && target * d == BASE_FREQUENCY * m + r && r < BASE_FREQUENCY
    ensures Distance(target, Clock(m + 1, d)) == (BASE_FREQUENCY - r) / d
  {
    DivBounds(BASE_FREQUENCY - r, d);
    NextClock(target, d, m, r, (BASE_FREQUENCY - r) / d);
  }

  lemma NextClock(target: nat, d: nat, m: nat, r: nat, e: nat)
    requires 0 < d && target * d == BASE_FREQUENCY * m + r && r < BASE_FREQUENCY
    requires e * d <= BASE_FREQUENCY - r < e * d + d
    ensures Clock(m + 1, d) == target + e
  {
    Sum(target, e, d);
    Squeezed((target + e) * d, target * d, e * d, m, r, d);
    ClockIs(m + 1, d, target + e);
  }

  lemma Squeezed(fd: nat, td: nat, ed: nat, m: nat, r: nat, d: nat)
    requires fd == td + ed && td == BASE_FREQUENCY * m + r && ed <= BASE_FREQUENCY - r < ed + d
    ensures fd <= BASE_FREQUENCY * (m + 1) < fd + d
  {
  }

  lemma DivBounds(x: nat, d: nat)
    requires 0 < d
    ensures x / d * d <= x < x / d * d + d
  {
  }

  lemma ClockIs(m: nat, d: nat, f: nat)
    requires 0 < d && f * d <= BASE_FREQUENCY * m < f * d + d
    ensures Clock(m, d) == f
  {
    DivModUnique(BASE_FREQUENCY * m, d, f, BASE_FREQUENCY * m - f * d);
  }

  lemma Sum(a: int, b: int, d: int)
    ensures (a + b) * d == a * d + b * d
  {
  }

  /**
    At one denominator: where the search rounds down, the next m is nearer exactly if its distance,
    rounded down, is below the other distance, rounded up.  Where it rounds up it never loses.
    */
  lemma LocalLossExactly(target: nat, d: nat, m: nat, r: nat)
    requires 0 < d && target * d == BASE_FREQUENCY * m + r && r < BASE_FREQUENCY
    ensures Distance(target, Clock(m + 1, d)) < Distance(target, Clock(m, d))
       <==> (BASE_FREQUENCY - r) / d < (r + d - 1) / d
    ensures r < 60000 <==> Rounded(target, d) == m
    ensures r >= 60000 ==> Distance(target, Clock(m + 1, d)) <= Distance(target, Clock(m, d))
  {
    ClockBelow(target, d, m, r);
    ClockAbove(target, d, m, r);
    RoundedDown(target, d, m, r);
    if r >= 60000 {
      QuotientMono(BASE_FREQUENCY - r, r + d - 1, d);
    }
  }

  lemma RoundedDown(target: nat, d: nat, m: nat, r: nat)
    requires target * d == BASE_FREQUENCY * m + r && r < BASE_FREQUENCY
    ensures Rounded(target, d) == if r < 60000 then m else m + 1
  {
    var x := target * d + 60000;
    if r < 60000 {
      DivModUnique(x, BASE_FREQUENCY, m, r + 60000);
    } else {
      DivModUnique(x, BASE_FREQUENCY, m + 1, r - 60000);
    }
  }

  lemma QuotientMono(x: nat, y: nat, d: nat)
    requires 0 < d && x <= y
    ensures x / d <= y / d
  {
    QuotientAtLeast(y, d, x / d);
  }

  /** Half a step of the PLL in whole kHz. */
  function HalfStep(d: nat): nat
    requires 0 < d
  {
    Quotient(60000, d)
  }

  lemma HalfStepBounds(d: nat)
    requires 0 < d
    ensures HalfStep(d) * d <= 60000 < (HalfStep(d) + 1) * d
  {
    assert (HalfStep(d) + 1) * d == HalfStep(d) * d + d;
  }

  /** The rounded m is within half a step, and 1 kHz for rounding the clock down. */
  lemma RoundedWithin(target: nat, d: nat)
    requires 0 < d
    ensures Distance(target, Clock(Rounded(target, d), d)) <= HalfStep(d) + 1
  {
    var x := Distance(target, Clock(Rounded(target, d), d));
    RoundedError(target, d);
    HalfStepBounds(d);
    assert (HalfStep(d) + 2) * d == (HalfStep(d) + 1) * d + d;
    if x > HalfStep(d) + 1 {
      MulMono(HalfStep(d) + 2, x, d);
    }
  }

  /** Any other m is at least half a step away. */
  lemma OtherBeyond(target: nat, d: nat, m: nat)
    requires 0 < d && m != Rounded(target, d)
    ensures HalfStep(d) <= Distance(target, Clock(m, d))
  {
    var x := Distance(target, Clock(m, d));
    OtherError(target, d, m);
    HalfStepBounds(d);
    if x + 1 <= HalfStep(d) {
      MulMono(x + 1, HalfStep(d), d);
    }
  }

  /** Half steps of different products differ by 1 kHz or more. */
  lemma HalfStepDrops(e: nat, d: nat)
    requires 0 < e && e + 7 <= d <= 560
    ensures HalfStep(d) + 1 <= HalfStep(e)
  {
    var h := HalfStep(d);
    assert h >= 107 by {
      MulMono(d, 560, 107);
      QuotientAtLeast(60000, d, 107);
    }
    MulMono(e, d - 7, h + 1);
    assert h * d <= 60000;
    assert (h + 1) * (d - 7) == h * d - 7 * h + d - 7;
    QuotientAtLeast(60000, e, h + 1);
  }

  // ----- the largest accepted product -----

  /** The values of N * P1. */
  predicate Product(p: nat) {
    p in {5, 6, 7, 8, 9, 10, 12, 14, 15, 16, 18, 20, 21, 24, 25, 27, 28, 30,
          32, 35, 36, 40, 42, 45, 48, 49, 50, 54, 56, 60, 63, 64, 70, 72, 80}
  }

  lemma ProductsOfSearch(p1: nat, n: nat)
    requires Candidate(p1, n)
    ensures Product(n * p1) && Denom(p1, n) == 7 * (n * p1)
  {
    if p1 == 1 {} else if p1 == 2 {} else if p1 == 3 {} else if p1 == 4 {}
    else if p1 == 5 {} else if p1 == 6 {} else if p1 == 7 {} else {}
  }

  /** The next larger product. */
  function NextUp(product: nat): nat {
    match product
    case 5 => 6
    case 6 => 7
    case 7 => 8
    case 8 => 9
    case 9 => 10
    case 10 => 12
    case 12 => 14
    case 14 => 15
    case 15 => 16
    case 16 => 18
    case 18 => 20
    case 20 => 21
    case 21 => 24
    case 24 => 25
    case 25 => 27
    case 27 => 28
    case 28 => 30
    case 30 => 32
    case 32 => 35
    case 35 => 36
    case 36 => 40
    case 40 => 42
    case 42 => 45
    case 45 => 48
    case 48 => 49
    case 49 => 50
    case 50 => 54
    case 54 => 56
    case 56 => 60
    case 60 => 63
    case 63 => 64
    case 64 => 70
    case 70 => 72
    case 72 => 80
    case _ => 81
  }

  lemma NoneBetween(p: nat, q: nat)
    requires Product(p) && Product(q) && p < q
    ensures NextUp(p) <= q
  {
  }

  /** Where the product is too large, (q1, k) is either too large as well or nearer than m = 131 of the product. */
  predicate Served(target: nat, product: nat, q1: nat, k: nat)
    requires 0 < product && Candidate(q1, k)
  {
    && Clock(131, 7 * product) <= target
    && (15780000 <= target * (7 * (k * q1))
        || (Accepted(target, q1, k) && Delta(target, q1, k) <= target - Clock(131, 7 * product)))
  }

  /**
    From a product whose m would exceed 131 down to the product of (q1, k).  The last five arguments are
    constants of the pair: the m of (q1, k) at the clocks just too high for the product, the clocks these
    two settings give, the first clock too high for the product, and the last clock at which the general
    error bound does not settle the matter by itself.
    */
  lemma StepDown(target: nat, product: nat, q1: nat, k: nat, m: nat, top: nat, near: nat, first: nat, last: nat)
    requires target <= HIGHEST && 15780000 <= target * (7 * product)
    requires Candidate(q1, k) && k * q1 < product && 77 <= m <= 131
    requires top * (7 * product) <= 15720000 < (top + 1) * (7 * product)
    requires near * (7 * (k * q1)) <= BASE_FREQUENCY * m < (near + 1) * (7 * (k * q1))
    requires (first - 1) * (7 * product) < 15780000 && 9180000 <= first * (7 * (k * q1))
    requires top <= near && near + top <= 2 * first
    requires m * BASE_FREQUENCY <= first * (7 * (k * q1)) + 60000
    requires (last - top + 1) * (7 * (k * q1)) > 60000
    requires last * (7 * (k * q1)) + 60000 < (m + 1) * BASE_FREQUENCY
    ensures Served(target, product, q1, k)
  {
    var d: nat, e: nat := 7 * (k * q1), 7 * product;
    DivModUnique(15720000, e, top, 15720000 - top * e);
    assert first <= target by {
      if target < first { MulMono(target, first - 1, e); }
    }
    assert top <= target by {
      if target < top { MulMono(target, top, e); }
    }
    if target * d < 15780000 {
      MulMono(first, target, d);
      assert Denom(q1, k) == d;
      AcceptedUnwrapped(target, q1, k);
      if target <= last {
        MulMono(target, last, d);
        DeltaOf(target, q1, k, m, near);
      } else {
        FarStep(target, q1, k, top, last);
      }
    }
  }

  /** The delta of a point, from its m and its clock. */
  lemma DeltaOf(target: nat, q1: nat, k: nat, m: nat, near: nat)
    requires target <= MAX_CLOCK && Candidate(q1, k) && 77 <= m <= 131
    requires near * Denom(q1, k) <= BASE_FREQUENCY * m < (near + 1) * Denom(q1, k)
    requires m * BASE_FREQUENCY <= target * Denom(q1, k) + 60000 < (m + 1) * BASE_FREQUENCY
    ensures Accepted(target, q1, k) && Delta(target, q1, k) == Distance(target, near)
  {
    var d := Denom(q1, k);
    MIsRounded(target, q1, k);
    assert Rounded(target, d) == m;
    DeltaIs(target, q1, k);
    assert (near + 1) * d == near * d + d;
    DivModUnique(BASE_FREQUENCY * m, d, near, BASE_FREQUENCY * m - near * d);
  }

  lemma FarStep(target: nat, q1: nat, k: nat, top: nat, last: nat)
    requires target <= MAX_CLOCK && Accepted(target, q1, k) && top <= target && last < target
    requires (last - top + 1) * Denom(q1, k) > 60000
    ensures Delta(target, q1, k) <= target - top
  {
    var d := Denom(q1, k);
    FoundError(target, q1, k);
    MulMono(last - top + 1, target - top, d);
    assert (target - top + 1) * d == (target - top) * d + d;
    if Delta(target, q1, k) > target - top {
      MulMono(target - top + 1, Delta(target, q1, k), d);
    }
  }

  lemma NextProduct6To14(target: nat, product: nat) returns (q1: nat, k: nat)
    requires target <= HIGHEST && 15780000 <= target * (7 * product)
    requires Product(product) && 6 <= product <= 14
    ensures Candidate(q1, k) && NextUp(k * q1) == product && Served(target, product, q1, k)
  {
    match product {
      case 6 => q1, k := 1, 5; StepDown(target, 6, 1, 5, 110, 374285, 377142, 375715, 375999);
      case 7 => q1, k := 1, 6; StepDown(target, 7, 1, 6, 113, 320816, 322857, 322041, 322244);
      case 8 => q1, k := 1, 7; StepDown(target, 8, 1, 7, 115, 280714, 281632, 281786, 281938);
      case 9 => q1, k := 1, 8; StepDown(target, 9, 1, 8, 117, 249523, 250714, 250477, 250594);
      case 10 => q1, k := 1, 9; StepDown(target, 10, 1, 9, 118, 224571, 224761, 225429, 225523);
      case 12 => q1, k := 1, 10; StepDown(target, 12, 1, 10, 110, 187142, 188571, 187858, 187999);
      case 14 => q1, k := 2, 6; StepDown(target, 14, 2, 6, 113, 160408, 161428, 161021, 161122);
    }
  }

  lemma NextProduct15To25(target: nat, product: nat) returns (q1: nat, k: nat)
    requires target <= HIGHEST && 15780000 <= target * (7 * product)
    requires Product(product) && 15 <= product <= 25
    ensures Candidate(q1, k) && NextUp(k * q1) == product && Served(target, product, q1, k)
  {
    match product {
      case 15 => q1, k := 2, 7; StepDown(target, 15, 2, 7, 123, 149714, 150612, 150286, 150326);
      case 16 => q1, k := 3, 5; StepDown(target, 16, 3, 5, 123, 140357, 140571, 140893, 140928);
      case 18 => q1, k := 2, 8; StepDown(target, 18, 2, 8, 117, 124761, 125357, 125239, 125296);
      case 20 => q1, k := 2, 9; StepDown(target, 20, 2, 9, 118, 112285, 112380, 112715, 112761);
      case 21 => q1, k := 2, 10; StepDown(target, 21, 2, 10, 125, 106938, 107142, 107347, 107366);
      case 24 => q1, k := 3, 7; StepDown(target, 24, 3, 7, 115, 93571, 93877, 93929, 93979);
      case 25 => q1, k := 3, 8; StepDown(target, 25, 3, 8, 126, 89828, 90000, 90172, 90185);
    }
  }

  lemma NextProduct27To40(target: nat, product: nat) returns (q1: nat, k: nat)
    requires target <= HIGHEST && 15780000 <= target * (7 * product)
    requires Product(product) && 27 <= product <= 40
    ensures Candidate(q1, k) && NextUp(k * q1) == product && Served(target, product, q1, k)
  {
    match product {
      case 27 => q1, k := 5, 5; StepDown(target, 27, 5, 5, 122, 83174, 83657, 83493, 83516);
      case 28 => q1, k := 3, 9; StepDown(target, 28, 3, 9, 127, 80204, 80634, 80511, 80521);
      case 30 => q1, k := 4, 7; StepDown(target, 30, 4, 7, 123, 74857, 75306, 75143, 75163);
      case 32 => q1, k := 3, 10; StepDown(target, 32, 3, 10, 123, 70178, 70285, 70447, 70463);
      case 35 => q1, k := 4, 8; StepDown(target, 35, 4, 8, 120, 64163, 64285, 64409, 64430);
      case 36 => q1, k := 5, 7; StepDown(target, 36, 5, 7, 128, 62380, 62693, 62620, 62624);
      case 40 => q1, k := 4, 9; StepDown(target, 40, 4, 9, 118, 56142, 56190, 56358, 56380);
    }
  }

  lemma NextProduct42To56(target: nat, product: nat) returns (q1: nat, k: nat)
    requires target <= HIGHEST && 15780000 <= target * (7 * product)
    requires Product(product) && 42 <= product <= 56
    ensures Candidate(q1, k) && NextUp(k * q1) == product && Served(target, product, q1, k)
  {
    match product {
      case 42 => q1, k := 4, 10; StepDown(target, 42, 4, 10, 125, 53469, 53571, 53674, 53683);
      case 45 => q1, k := 6, 7; StepDown(target, 45, 6, 7, 123, 49904, 50204, 50096, 50108);
      case 48 => q1, k := 5, 9; StepDown(target, 48, 5, 9, 123, 46785, 46857, 46965, 46975);
      case 49 => q1, k := 6, 8; StepDown(target, 49, 6, 8, 129, 45830, 46071, 46006, 46008);
      case 50 => q1, k := 7, 7; StepDown(target, 50, 7, 7, 129, 44914, 45131, 45086, 45088);
      case 54 => q1, k := 5, 10; StepDown(target, 54, 5, 10, 122, 41587, 41828, 41747, 41758);
      case 56 => q1, k := 6, 9; StepDown(target, 56, 6, 9, 127, 40102, 40317, 40256, 40260);
    }
  }

  lemma NextProduct60To80(target: nat, product: nat) returns (q1: nat, k: nat)
    requires target <= HIGHEST && 15780000 <= target * (7 * product)
    requires Product(product) && 60 <= product <= 80
    ensures Candidate(q1, k) && NextUp(k * q1) == product && Served(target, product, q1, k)
  {
    match product {
      case 60 => q1, k := 7, 8; StepDown(target, 60, 7, 8, 123, 37428, 37653, 37572, 37581);
      case 63 => q1, k := 6, 10; StepDown(target, 63, 6, 10, 125, 35646, 35714, 35783, 35788);
      case 64 => q1, k := 7, 9; StepDown(target, 64, 7, 9, 129, 35089, 35102, 35224, 35225);
      case 70 => q1, k := 8, 8; StepDown(target, 70, 8, 8, 120, 32081, 32142, 32205, 32214);
      case 72 => q1, k := 7, 10; StepDown(target, 72, 7, 10, 128, 31190, 31346, 31310, 31312);
      case 80 => q1, k := 8, 9; StepDown(target, 80, 8, 9, 118, 28071, 28095, 28179, 28190);
    }
  }

  lemma NextProduct(target: nat, product: nat) returns (q1: nat, k: nat)
    requires target <= HIGHEST && Product(product) && 15780000 <= target * (7 * product)
    ensures Candidate(q1, k) && NextUp(k * q1) == product && Served(target, product, q1, k)
  {
    if product <= 5 {
      assert false;
    } else if product <= 14 {
      q1, k := NextProduct6To14(target, product);
    } else if product <= 25 {
      q1, k := NextProduct15To25(target, product);
    } else if product <= 40 {
      q1, k := NextProduct27To40(target, product);
    } else if product <= 56 {
      q1, k := NextProduct42To56(target, product);
    } else {
      q1, k := NextProduct60To80(target, product);
    }
  }

  /** (p1, n) is accepted, and the next larger product is not: there even m = 131 is no nearer. */
  predicate Largest(target: nat, p1: nat, n: nat) {
    && Accepted(target, p1, n)
    && (n * p1 == 80
        || (15780000 <= target * (7 * NextUp(n * p1)) && Served(target, NextUp(n * p1), p1, n)
            && target * (7 * (n * p1)) < 15780000))
  }

  /** Walk down the products until one is accepted. */
  lemma WalkDown(target: nat, product: nat) returns (p1: nat, n: nat)
    requires target <= HIGHEST && Product(product) && 15780000 <= target * (7 * product)
    ensures Largest(target, p1, n)
    decreases product
  {
    p1, n := NextProduct(target, product);
    ProductsOfSearch(p1, n);
    NextUpAbove(n * p1);
    if 15780000 <= target * (7 * (n * p1)) {
      p1, n := WalkDown(target, n * p1);
    }
  }

  lemma NextUpAbove(p: nat)
    requires Product(p)
    ensures p < NextUp(p) && (p < 80 ==> Product(NextUp(p)))
  {
  }

  lemma LargestExists(target: nat) returns (p1: nat, n: nat)
    requires LOWEST <= target <= HIGHEST
    ensures Largest(target, p1, n)
  {
    if target * 560 < 15780000 {
      p1, n := 8, 10;
      assert Denom(8, 10) == 560;
      AcceptedUnwrapped(target, 8, 10);
    } else {
      p1, n := WalkDown(target, 80);
    }
  }

  // ----- the other points do no better than the largest -----

  lemma ClockMono(m: nat, m': nat, denom: nat)
    requires 0 < denom && m <= m'
    ensures Clock(m, denom) <= Clock(m', denom)
  {
    QuotientMono(BASE_FREQUENCY * m, BASE_FREQUENCY * m', denom);
  }

  /** A smaller denominator gives a higher clock. */
  lemma ClockAnti(m: nat, small: nat, large: nat)
    requires 0 < small <= large
    ensures Clock(m, large) <= Clock(m, small)
  {
    ClockBounds(m, large);
    MulMono(small, large, Clock(m, large));
    QuotientAtLeast(BASE_FREQUENCY * m, small, Clock(m, large));
  }

  lemma LargerProduct(target: nat, p1: nat, n: nat, q1: nat, k: nat, m: nat)
    requires Largest(target, p1, n) && Setting(q1, k, m) && n * p1 < k * q1
    ensures Delta(target, p1, n) <= SettingError(target, q1, k, m)
  {
    ProductsOfSearch(p1, n);
    ProductsOfSearch(q1, k);
    var next := NextUp(n * p1);
    NoneBetween(n * p1, k * q1);
    NextUpAbove(n * p1);
    SettingErrorIs(target, q1, k, m);
    ClockMono(m, 131, 7 * (k * q1));
    ClockAnti(131, 7 * next, 7 * (k * q1));
  }

  lemma SmallerProduct(target: nat, p1: nat, n: nat, q1: nat, k: nat, m: nat)
    requires target <= MAX_CLOCK && Accepted(target, p1, n) && Setting(q1, k, m) && k * q1 < n * p1
    requires m != Rounded(target, Denom(q1, k))
    ensures Delta(target, p1, n) <= SettingError(target, q1, k, m)
  {
    var e, d := Denom(q1, k), Denom(p1, n);
    DenomRange(q1, k);
    DenomRange(p1, n);
    assert e == 7 * (k * q1) && d == 7 * (n * p1);
    DeltaIs(target, p1, n);
    SettingErrorIs(target, q1, k, m);
    RoundedWithin(target, d);
    OtherBeyond(target, e, m);
    HalfStepDrops(e, d);
  }

  /** The m of the largest point itself, when it is not the rounded one: at least half a step away. */
  lemma SameProduct(target: nat, p1: nat, n: nat, q1: nat, k: nat, m: nat)
    requires target <= MAX_CLOCK && Accepted(target, p1, n) && Setting(q1, k, m) && k * q1 == n * p1
    requires m != Rounded(target, Denom(q1, k))
    ensures 0 < Denom(p1, n) && HalfStep(Denom(p1, n)) <= SettingError(target, q1, k, m)
    ensures Delta(target, p1, n) <= SettingError(target, q1, k, m) + 1
  {
    assert Denom(q1, k) == Denom(p1, n);
    DeltaIs(target, p1, n);
    SettingErrorIs(target, q1, k, m);
    RoundedWithin(target, Denom(p1, n));
    OtherBeyond(target, Denom(p1, n), m);
  }

  /** A setting whose m is the rounded one is a point of the search, or above it in product. */
  lemma RoundedSetting(target: nat, p1: nat, n: nat, q1: nat, k: nat)
    requires target <= HIGHEST && Accepted(target, p1, n) && k * q1 <= n * p1
    requires Setting(q1, k, Rounded(target, Denom(q1, k)))
    ensures Accepted(target, q1, k)
    ensures Delta(target, q1, k) == SettingError(target, q1, k, Rounded(target, Denom(q1, k)))
  {
    MIsRounded(target, q1, k);
    DeltaIs(target, q1, k);
    SettingErrorIs(target, q1, k, Rounded(target, Denom(q1, k)));
  }

  /** The result against every setting but another m of the largest product. */
  lemma NotNearer(target: nat, b1: nat, b: nat, p1: nat, n: nat, q1: nat, k: nat, m: nat)
    requires target <= HIGHEST && Best(target, b1, b, 9, 5) && Largest(target, p1, n) && Setting(q1, k, m)
    requires k * q1 != n * p1 || m == Rounded(target, Denom(q1, k))
    ensures Delta(target, b1, b) <= SettingError(target, q1, k, m)
  {
    assert Delta(target, b1, b) <= Delta(target, p1, n);
    if n * p1 < k * q1 {
      LargerProduct(target, p1, n, q1, k, m);
    } else if m == Rounded(target, Denom(q1, k)) {
      RoundedSetting(target, p1, n, q1, k);
    } else {
      SmallerProduct(target, p1, n, q1, k, m);
    }
  }
}
