/**
  What the divisor search achieves: no overflow for the clocks it is meant for, exactly which clocks it
  accepts, and a bound on its error.
  */
module GmaTheorems {
  import opened Words
  import opened GmaDivisors

  /** Largest clock for which no 32-bit operation of the search wraps. */
  const MAX_CLOCK: nat := 7669477

  /** Smallest and largest clock for which divisors exist. */
  const LOWEST: nat := 16393
  const HIGHEST: nat := 450857

  // ----- overflow -----

  /** The two intermediate values of the rounding, computed without a bound, fit 32 bits. */
  predicate NoWrap(target: nat, p1: nat, n: nat) {
    target * Denom(p1, n) + BASE_FREQUENCY / 2 < U32
  }

  /**
    The comment in the code promises no overflow up to 5,000,000 kHz.  The exact bound for all 48 points
    of the search is 7,669,477 kHz.
    */
  lemma NoWrapExactly(target: nat)
    ensures (forall p1, n :: Candidate(p1, n) ==> NoWrap(target, p1, n)) <==> target <= MAX_CLOCK
  {
    if target <= MAX_CLOCK {
      forall p1, n | Candidate(p1, n)
        ensures NoWrap(target, p1, n)
      {
        DenomRange(p1, n);
        MulMono(Denom(p1, n), 560, target);
      }
    } else {
      assert Candidate(8, 10) && Denom(8, 10) == 560;
      assert !NoWrap(target, 8, 10);
    }
  }

  /** m without wrap-around: the clock times the denominator, rounded to the nearest multiple of BASE_FREQUENCY. */
  function Rounded(target: nat, denom: nat): nat { (target * denom + BASE_FREQUENCY / 2) / BASE_FREQUENCY }

  lemma MIsRounded(target: nat, p1: nat, n: nat)
    requires target <= MAX_CLOCK && Candidate(p1, n)
    ensures M(target, p1, n) == Rounded(target, Denom(p1, n))
  {
    NoWrapExactly(target);
    assert NoWrap(target, p1, n);
    SmallMod(target * Denom(p1, n), U32);
    SmallMod(target * Denom(p1, n) + BASE_FREQUENCY / 2, U32);
  }

  /** Past the bound the search can report divisors for a clock far out of reach. */
  lemma WrapCounterexample()
    ensures Accepted(7685978, 8, 10) && Delta(7685978, 8, 10) > 7000000
  {
    assert Denom(8, 10) == 560;
    assert M(7685978, 8, 10) == 77;
    assert Frequency(77, 8, 10) == 16500;
  }

  // ----- feasibility -----

  /** A point is accepted when clock times denominator, cut to 32 bits, lies in one fixed interval. */
  lemma AcceptedInterval(target: nat, p1: nat, n: nat)
    requires Candidate(p1, n)
    ensures Accepted(target, p1, n) <==> 9180000 <= target * Denom(p1, n) % U32 < 15780000
  {
    RoundsInto(target * Denom(p1, n) % U32);
  }

  lemma RoundsInto(x: nat)
    requires x < U32
    ensures 77 <= Add32(x, BASE_FREQUENCY / 2) / BASE_FREQUENCY <= 131 <==> 9180000 <= x < 15780000
  {
    if x + 60000 >= U32 {
      assert (x + 60000) % U32 == x + 60000 - U32;
    } else {
      assert (x + 60000) % U32 == x + 60000;
    }
  }

  lemma AcceptedUnwrapped(target: nat, p1: nat, n: nat)
    requires target <= MAX_CLOCK && Candidate(p1, n)
    ensures Accepted(target, p1, n) <==> 9180000 <= target * Denom(p1, n) < 15780000
  {
    NoWrapExactly(target);
    assert NoWrap(target, p1, n);
    SmallMod(target * Denom(p1, n), U32);
    AcceptedInterval(target, p1, n);
  }

  /** The point the cover below uses for a clock. */
  function Witness(target: nat): (nat, nat) {
    if target >= 262286 then (1, 5)
    else if target >= 163929 then (1, 8)
    else if target >= 109286 then (2, 6)
    else if target >= 65572 then (2, 10)
    else if target >= 40983 then (4, 8)
    else if target >= 26229 then (5, 10)
    else (8, 10)
  }

  /** Without wrap-around, divisors exist exactly for the clocks from 16,393 to 450,857 kHz; both ends are reached. */
  lemma FeasibleBelow(target: nat)
    requires target <= MAX_CLOCK
    ensures (exists p1, n :: Accepted(target, p1, n)) <==> LOWEST <= target <= HIGHEST
  {
    if LOWEST <= target <= HIGHEST {
      var w := Witness(target);
      AcceptedUnwrapped(target, w.0, w.1);
      assert Accepted(target, w.0, w.1);
    }
    if p1, n :| Accepted(target, p1, n) {
      DenomRange(p1, n);
      AcceptedUnwrapped(target, p1, n);
      MulMono(35, Denom(p1, n), target);
      MulMono(Denom(p1, n), 560, target);
    }
  }

  /** The clocks that (p1, n) serves by mistake, its product having wrapped around j times. */
  predicate AliasBand(target: nat, p1: nat, n: nat, j: nat) {
    Candidate(p1, n) && 1 <= j && j * U32 + 9180000 <= target * Denom(p1, n) < j * U32 + 15780000
  }

  ghost predicate Aliased(target: nat) {
    exists p1: nat, n: nat, j: nat :: AliasBand(target, p1, n, j)
  }

  lemma AliasAccepted(target: nat, p1: nat, n: nat, j: nat)
    requires AliasBand(target, p1, n, j)
    ensures Accepted(target, p1, n)
  {
    var x := target * Denom(p1, n);
    AcceptedInterval(target, p1, n);
    DivModUnique(x, U32, j, x - j * U32);
  }

  lemma AcceptedBand(target: nat, p1: nat, n: nat)
    requires Accepted(target, p1, n)
    ensures LOWEST <= target <= HIGHEST || AliasBand(target, p1, n, target * Denom(p1, n) / U32)
  {
    AcceptedInterval(target, p1, n);
    DenomRange(p1, n);
    BandOf(target, Denom(p1, n), target * Denom(p1, n));
  }

  lemma BandOf(target: nat, d: nat, x: nat)
    requires 35 <= d <= 560 && x == target * d && 9180000 <= x % U32 < 15780000
    ensures var j := x / U32;
            if j == 0 then LOWEST <= target <= HIGHEST else j * U32 + 9180000 <= x < j * U32 + 15780000
  {
    MulMono(35, d, target);
    MulMono(d, 560, target);
  }

  /** Every clock: divisors are found exactly in the range of the PLL and in the alias bands above it. */
  lemma FeasibleExactly(target: nat)
    ensures (exists p1, n :: Accepted(target, p1, n)) <==> LOWEST <= target <= HIGHEST || Aliased(target)
  {
    if p1: nat, n: nat, j: nat :| AliasBand(target, p1, n, j) {
      AliasAccepted(target, p1, n, j);
    }
    if LOWEST <= target <= HIGHEST {
      FeasibleBelow(target);
    }
    if p1, n :| Accepted(target, p1, n) {
      AcceptedBand(target, p1, n);
    }
  }

  /** The lowest alias, and the lowest clock past the bound of NoWrapExactly that is not refused. */
  lemma FirstAlias(target: nat)
    requires target <= 7685978
    ensures Aliased(target) <==> target == 7685978
  {
    if p1: nat, n: nat, j: nat :| AliasBand(target, p1, n, j) {
      DenomRange(p1, n);
      MulMono(Denom(p1, n), 560, target);
      MulMono(1, j, U32);
    }
    assert Denom(8, 10) == 560;
    assert AliasBand(7685978, 8, 10, 1);
  }

  // ----- closeness for one denominator -----

  /** The clock a denominator and m give. */
  function Clock(m: nat, denom: nat): nat
    requires 0 < denom
  {
    Quotient(BASE_FREQUENCY * m, denom)
  }

  lemma RoundedBounds(target: nat, denom: nat)
    ensures var x := BASE_FREQUENCY * Rounded(target, denom);
            target * denom - 60000 < x <= target * denom + 60000
  {
  }

  lemma ClockBounds(m: nat, denom: nat)
    requires 0 < denom
    ensures Clock(m, denom) * denom <= BASE_FREQUENCY * m < Clock(m, denom) * denom + denom
  {
  }

  /** Rounding m and rounding the clock down cost together less than one step and a half. */
  lemma RoundedError(target: nat, denom: nat)
    requires 0 < denom
    ensures Distance(target, Clock(Rounded(target, denom), denom)) * denom < 60000 + denom
  {
    var f := Clock(Rounded(target, denom), denom);
    RoundedBounds(target, denom);
    ClockBounds(Rounded(target, denom), denom);
    Distribute(target, f, denom);
    Distribute(f, target, denom);
  }

  /** Any other m is at least half a step away, but for the rounding down of its clock. */
  lemma OtherError(target: nat, denom: nat, m: nat)
    requires 0 < denom && m != Rounded(target, denom)
    ensures (Distance(target, Clock(m, denom)) + 1) * denom > 60000
  {
    var f := Clock(m, denom);
    RoundedBounds(target, denom);
    ClockBounds(m, denom);
    Distribute(target, f, denom);
    Distribute(f, target, denom);
    var x := Distance(target, f);
    assert (x + 1) * denom == x * denom + denom;
  }

  // ----- error of the search -----

  lemma DeltaIs(target: nat, p1: nat, n: nat)
    requires target <= MAX_CLOCK && Accepted(target, p1, n)
    ensures 0 < Denom(p1, n)
    ensures Delta(target, p1, n) == Distance(target, Clock(Rounded(target, Denom(p1, n)), Denom(p1, n)))
  {
    DenomRange(p1, n);
    MIsRounded(target, p1, n);
    FrequencyRange(M(target, p1, n), p1, n);
  }

  /** The error bound: the delta found is below half a step of the PLL plus one kHz. */
  lemma FoundError(target: nat, p1: nat, n: nat)
    requires target <= MAX_CLOCK && Accepted(target, p1, n)
    ensures Delta(target, p1, n) * Denom(p1, n) < 60000 + Denom(p1, n)
  {
    DeltaIs(target, p1, n);
    RoundedError(target, Denom(p1, n));
  }

  // ----- ties -----

  /** Of the accepted points of least delta the search takes the one of smallest P1, and then of smallest N. */
  lemma TiesBroken(target: nat, p1: nat, n: nat, q1: nat, k: nat)
    requires Best(target, p1, n, 9, 5) && Accepted(target, q1, k)
    ensures Delta(target, p1, n) <= Delta(target, q1, k)
    ensures Delta(target, p1, n) == Delta(target, q1, k) ==> p1 < q1 || (p1 == q1 && n <= k)
  {
    assert Before(q1, k, 9, 5);
  }

  /** So a product N * P1 that several points share is always set with the smallest P1. */
  lemma SmallestP1(target: nat, p1: nat, n: nat, q1: nat, k: nat)
    requires Best(target, p1, n, 9, 5) && Candidate(q1, k) && k * q1 == n * p1
    ensures p1 <= q1
  {
    assert Denom(q1, k) == Denom(p1, n);
    TiesBroken(target, p1, n, q1, k);
  }
}
