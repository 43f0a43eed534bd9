/**
  The divisor search against the whole PLL.  The search tries one m for each (P1, N), the rounded one;
  the main result says exactly when it still finds a nearest setting: at all clocks but six, and none of
  the six is one that an EDID can ask for.
  */
module GmaOptimality {
  import opened Words
  import opened GmaDivisors
  import opened GmaTheorems
  import opened GmaSettings
  import opened GmaLosses

  /** No setting of the PLL is nearer to the clock than what (p1, n) gets. */
  ghost predicate Optimal(target: nat, p1: nat, n: nat)
    requires Candidate(p1, n)
  {
    forall q1, k, m :: Setting(q1, k, m) ==> Delta(target, p1, n) <= SettingError(target, q1, k, m)
  }

  /** Whatever the clock, no setting is more than 1 kHz nearer. */
  lemma SearchNearOptimal(target: nat, p1: nat, n: nat, q1: nat, k: nat, m: nat)
    requires target <= HIGHEST && Best(target, p1, n, 9, 5) && Setting(q1, k, m)
    ensures Delta(target, p1, n) <= SettingError(target, q1, k, m) + 1
  {
    FeasibleBelow(target);
    var l1, l := LargestExists(target);
    assert Delta(target, p1, n) <= Delta(target, l1, l);
    if k * q1 == l * l1 && m != Rounded(target, Denom(q1, k)) {
      SameProduct(target, l1, l, q1, k, m);
    } else {
      NotNearer(target, p1, n, l1, l, q1, k, m);
    }
  }

  lemma OptimalUnlessLost(target: nat, b1: nat, b: nat, p1: nat, n: nat, q1: nat, k: nat, m: nat)
    requires target <= HIGHEST && target !in LOST
    requires Best(target, b1, b, 9, 5) && Largest(target, p1, n) && Setting(q1, k, m)
    ensures Delta(target, b1, b) <= SettingError(target, q1, k, m)
  {
    var d := Denom(p1, n);
    ProductsOfSearch(p1, n);
    ProductsOfSearch(q1, k);
    if k * q1 != n * p1 || m == Rounded(target, d) {
      NotNearer(target, b1, b, p1, n, q1, k, m);
    } else {
      DeltaIs(target, p1, n);
      MIsRounded(target, p1, n);
      SettingErrorIs(target, q1, k, m);
      SameProduct(target, p1, n, q1, k, m);
      if SettingError(target, q1, k, m) < Delta(target, p1, n) {
        LossWindow(target, d, Rounded(target, d), m);
        var q', k' := LossTable(target, n * p1, Rounded(target, d));
        assert Delta(target, b1, b) <= Delta(target, q', k');
      }
    }
  }

  // ----- the six clocks -----

  lemma AcceptedProducts(target: nat, p1: nat, n: nat, low: nat, high: nat)
    requires target <= MAX_CLOCK && Accepted(target, p1, n)
    requires target * (7 * low) < 9180000 && 15780000 <= target * (7 * high)
    ensures low < n * p1 < high
  {
    AcceptedUnwrapped(target, p1, n);
    assert Denom(p1, n) == 7 * (n * p1);
    ProductBetween(target, n * p1, low, high);
  }

  lemma ProductBetween(target: nat, product: nat, low: nat, high: nat)
    requires 9180000 <= target * (7 * product) < 15780000
    requires target * (7 * low) < 9180000 && 15780000 <= target * (7 * high)
    ensures low < product < high
  {
    if product <= low {
      MulMono(7 * product, 7 * low, target);
    }
    if high <= product {
      MulMono(7 * high, 7 * product, target);
    }
  }

  /** Below product 10 only P1 = 1 is possible. */
  lemma SmallProducts(p1: nat, n: nat)
    requires Candidate(p1, n) && n * p1 < 10
    ensures p1 == 1
  {
    if p1 >= 2 {
      MulMono(5, n, p1);
    }
  }

  /** At each of the six clocks some setting is nearer than every accepted point. */
  lemma LostSetting(target: nat) returns (k: nat, m: nat)
    requires target in LOST
    ensures Setting(1, k, m)
    ensures forall p1: nat, n: nat :: Accepted(target, p1, n) ==> SettingError(target, 1, k, m) < Delta(target, p1, n)
  {
    if target < 300000 {
      k, m := LostSettingLow(target);
    } else {
      k, m := LostSettingHigh(target);
    }
  }

  lemma LostSettingHigh(target: nat) returns (k: nat, m: nat)
    requires target == 378857 || target == 402857 || target == 426857
    ensures Setting(1, k, m)
    ensures forall p1: nat, n: nat :: Accepted(target, p1, n) ==> SettingError(target, 1, k, m) < Delta(target, p1, n)
  {
    k := 5;
    if target == 378857 {
      m := 111;
      SettingIs(378857, 5, 111, 380571);
      DeltaOf(378857, 1, 5, 110, 377142);
    } else if target == 402857 {
      m := 118;
      SettingIs(402857, 5, 118, 404571);
      DeltaOf(402857, 1, 5, 117, 401142);
    } else {
      m := 125;
      SettingIs(426857, 5, 125, 428571);
      DeltaOf(426857, 1, 5, 124, 425142);
    }
    forall p1: nat, n: nat | Accepted(target, p1, n)
      ensures p1 == 1 && n == 5
    {
      AcceptedProducts(target, p1, n, 2, 6);
      SmallProducts(p1, n);
    }
  }

  lemma SettingIs(target: nat, k: nat, m: nat, clock: nat)
    requires Setting(1, k, m) && clock * (7 * k) <= BASE_FREQUENCY * m < (clock + 1) * (7 * k)
    ensures SettingError(target, 1, k, m) == Distance(target, clock)
  {
    SettingErrorIs(target, 1, k, m);
    assert Denom(1, k) == 7 * k;
    assert (clock + 1) * (7 * k) == clock * (7 * k) + 7 * k;
    DivModUnique(BASE_FREQUENCY * m, 7 * k, clock, BASE_FREQUENCY * m - clock * (7 * k));
  }

  lemma LostSettingLow(target: nat) returns (k: nat, m: nat)
    requires target == 258214 || target == 275357 || target == 292653
    ensures Setting(1, k, m)
    ensures forall p1: nat, n: nat :: Accepted(target, p1, n) ==> SettingError(target, 1, k, m) < Delta(target, p1, n)
  {
    if target == 258214 {
      k, m := 8, 121;
      SettingIs(258214, 8, 121, 259285);
      DeltaOf(258214, 1, 6, 90, 257142);
      DeltaOf(258214, 1, 7, 105, 257142);
      DeltaOf(258214, 1, 8, 120, 257142);
      LowPoints(258214, 5, 9);
    } else if target == 275357 {
      k, m := 8, 129;
      SettingIs(275357, 8, 129, 276428);
      DeltaOf(275357, 1, 5, 80, 274285);
      DeltaOf(275357, 1, 6, 96, 274285);
      DeltaOf(275357, 1, 7, 112, 274285);
      DeltaOf(275357, 1, 8, 128, 274285);
      LowPoints(275357, 4, 9);
    } else {
      k, m := 7, 120;
      SettingIs(292653, 7, 120, 293877);
      DeltaOf(292653, 1, 5, 85, 291428);
      DeltaOf(292653, 1, 6, 102, 291428);
      DeltaOf(292653, 1, 7, 119, 291428);
      LowPoints(292653, 4, 8);
    }
  }

  lemma LowPoints(target: nat, low: nat, high: nat)
    requires target <= MAX_CLOCK && high <= 10
    requires target * (7 * low) < 9180000 && 15780000 <= target * (7 * high)
    ensures forall p1: nat, n: nat :: Accepted(target, p1, n) ==> p1 == 1 && low < n < high
  {
    forall p1: nat, n: nat | Accepted(target, p1, n)
      ensures p1 == 1 && low < n < high
    {
      AcceptedProducts(target, p1, n, low, high);
      SmallProducts(p1, n);
    }
  }

  /**
    The search finds a nearest setting of the whole PLL exactly when the clock is none of the six.  This
    covers every clock it can serve and every m, not only the rounded ones.
    */
  lemma OptimalExactly(target: nat, p1: nat, n: nat)
    requires target <= HIGHEST && Best(target, p1, n, 9, 5)
    ensures Optimal(target, p1, n) <==> target !in LOST
  {
    FeasibleBelow(target);
    if target in LOST {
      var k, m := LostSetting(target);
      assert Setting(1, k, m) && SettingError(target, 1, k, m) < Delta(target, p1, n);
    } else {
      var l1, l := LargestExists(target);
      forall q1, k, m | Setting(q1, k, m)
        ensures Delta(target, p1, n) <= SettingError(target, q1, k, m)
      {
        OptimalUnlessLost(target, p1, n, l1, l, q1, k, m);
      }
    }
  }

  /** An EDID gives the pixel clock in units of 10 kHz: every such clock is served optimally. */
  lemma EdidClockOptimal(target: nat, p1: nat, n: nat)
    requires target <= HIGHEST && target % 10 == 0 && Best(target, p1, n, 9, 5)
    ensures Optimal(target, p1, n)
  {
    OptimalExactly(target, p1, n);
  }

  /** The lowest of the six with a single accepted point: m = 110 is tried, and m = 111 is 1 kHz nearer. */
  lemma OffByOneExample()
    ensures forall p1: nat, n: nat :: Accepted(378857, p1, n) <==> p1 == 1 && n == 5
    ensures Delta(378857, 1, 5) == 1715
    ensures Setting(1, 5, 111) && SettingError(378857, 1, 5, 111) == 1714
  {
    DeltaOf(378857, 1, 5, 110, 377142);
    SettingIs(378857, 5, 111, 380571);
    LowPoints(378857, 3, 6);
  }
}
