/**
  The pixel clock divisors of the i945 native graphics init: a search over P1 in 1..8 and N in 5..10,
  in 32-bit unsigned arithmetic, for the PLL setting closest to the panel's clock.  Frequencies in kHz.
  */
module GmaDivisors {
  import opened Words

  const BASE_FREQUENCY: nat := 120000
  const UNSET: nat := 0xFFFF_FFFF

  type u32 = x: nat | x < U32

  /** A point of the search; (p1, n) runs through them with n fastest. */
  predicate Candidate(p1: nat, n: nat) { 1 <= p1 <= 8 && 5 <= n <= 10 }

  predicate Before(p: nat, n: nat, p': nat, n': nat) { p < p' || (p == p' && n < n') }

  function Denom(p1: nat, n: nat): nat { n * p1 * 7 }

  /** m as the code computes it, every operation cut to 32 bits. */
  function M(target: nat, p1: nat, n: nat): nat {
    Add32(Mul32(target, Denom(p1, n)), BASE_FREQUENCY / 2) / BASE_FREQUENCY
  }

  predicate Accepted(target: nat, p1: nat, n: nat) {
    Candidate(p1, n) && 77 <= M(target, p1, n) <= 131
  }

  /** The clock that P1, N and m give, rounded down. */
  function Frequency(m: nat, p1: nat, n: nat): nat
    requires Candidate(p1, n)
  {
    DenomRange(p1, n);
    Quotient(Mul32(BASE_FREQUENCY, m), Denom(p1, n))
  }

  function Distance(a: nat, b: nat): nat { if a > b then a - b else b - a }

  function Delta(target: nat, p1: nat, n: nat): nat
    requires Candidate(p1, n)
  {
    Distance(target, Frequency(M(target, p1, n), p1, n))
  }

  function M2(m: nat): nat { (m + 3) % 5 + 7 }

  function M1(m: nat): nat
    requires m >= 77
  {
    (m - M2(m)) / 5
  }

  datatype Divisors = Divisors(n: nat, p1: nat, m1: nat, m2: nat)

  datatype SearchResult = NotFound | Found(d: Divisors, delta: nat)

  lemma DenomRange(p1: nat, n: nat)
    requires Candidate(p1, n)
    ensures 35 <= Denom(p1, n) <= 560
  {
    assert 5 * 1 <= n * p1 <= 10 * 8;
  }

  /** The clocks of the PLL, and no overflow in computing them. */
  lemma FrequencyRange(m: nat, p1: nat, n: nat)
    requires Candidate(p1, n) && 77 <= m <= 131
    ensures 16500 <= Frequency(m, p1, n) <= 449142
    ensures Mul32(BASE_FREQUENCY, m) == BASE_FREQUENCY * m
  {
    DenomRange(p1, n);
    SmallProduct(m);
    QuotientBounds(BASE_FREQUENCY * m, Denom(p1, n));
  }

  lemma SmallProduct(m: nat)
    requires m <= 131
    ensures Mul32(BASE_FREQUENCY, m) == BASE_FREQUENCY * m
  {
  }

  lemma QuotientBounds(x: nat, d: nat)
    requires 77 * BASE_FREQUENCY <= x <= 131 * BASE_FREQUENCY && 35 <= d <= 560
    ensures 16500 <= x / d <= 449142
  {
    MulMono(d, 560, 16500);
    QuotientAtLeast(x, d, 16500);
    MulMono(35, d, 449143);
    QuotientBelow(x, d, 449143);
  }

  // ----- the search -----

  /** (p, n) is the first of the accepted points seen so far that has the least delta. */
  ghost predicate Best(target: nat, p: nat, n: nat, endP: nat, endN: nat) {
    && Accepted(target, p, n) && Before(p, n, endP, endN)
    && forall q, k :: Accepted(target, q, k) && Before(q, k, endP, endN) ==>
         Delta(target, p, n) <= Delta(target, q, k)
         && (Before(q, k, p, n) ==> Delta(target, p, n) < Delta(target, q, k))
  }

  ghost predicate NoneBefore(target: nat, endP: nat, endN: nat) {
    forall q, k :: Before(q, k, endP, endN) ==> !Accepted(target, q, k)
  }

  /** What the variables of the search hold when it has reached (endP, endN). */
  ghost predicate Progress(target: nat, delta: nat, d: Divisors, endP: nat, endN: nat) {
    if delta == UNSET then NoneBefore(target, endP, endN)
    else
      && Best(target, d.p1, d.n, endP, endN)
      && delta == Delta(target, d.p1, d.n)
      && d.m2 == M2(M(target, d.p1, d.n)) && d.m1 == M1(M(target, d.p1, d.n))
  }

  lemma DeltaBelowUnset(target: u32, p1: nat, n: nat)
    requires Accepted(target, p1, n)
    ensures Delta(target, p1, n) < UNSET
  {
    FrequencyRange(M(target, p1, n), p1, n);
  }

  lemma NextPoint(target: u32, delta: nat, d: Divisors, p1: nat, n: nat)
    requires Progress(target, delta, d, p1, n) && Candidate(p1, n) && !Accepted(target, p1, n)
    ensures Progress(target, delta, d, p1, n + 1)
  {
    forall q, k | Before(q, k, p1, n + 1)
      ensures Before(q, k, p1, n) || (q == p1 && k == n)
    {
    }
  }

  lemma NextRow(target: u32, delta: nat, d: Divisors, p1: nat)
    requires Progress(target, delta, d, p1, 11)
    ensures Progress(target, delta, d, p1 + 1, 5)
  {
    forall q, k | Before(q, k, p1 + 1, 5) && Accepted(target, q, k)
      ensures Before(q, k, p1, 11)
    {
    }
  }

  lemma TakePoint(target: u32, delta: nat, d: Divisors, p1: nat, n: nat, d': Divisors)
    requires Progress(target, delta, d, p1, n) && Accepted(target, p1, n) && Delta(target, p1, n) < delta
    requires d' == Divisors(n, p1, M1(M(target, p1, n)), M2(M(target, p1, n)))
    ensures Progress(target, Delta(target, p1, n), d', p1, n + 1)
  {
    DeltaBelowUnset(target, p1, n);
    forall q, k | Accepted(target, q, k) && Before(q, k, p1, n + 1)
      ensures Delta(target, p1, n) <= Delta(target, q, k)
      ensures Before(q, k, p1, n) ==> Delta(target, p1, n) < Delta(target, q, k)
    {
    }
  }

  lemma KeepPoint(target: u32, delta: nat, d: Divisors, p1: nat, n: nat)
    requires Progress(target, delta, d, p1, n) && Accepted(target, p1, n) && delta <= Delta(target, p1, n)
    ensures Progress(target, delta, d, p1, n + 1)
  {
    DeltaBelowUnset(target, p1, n);
    forall q, k | Accepted(target, q, k) && Before(q, k, p1, n + 1)
      ensures delta <= Delta(target, q, k)
      ensures Before(q, k, d.p1, d.n) ==> delta < Delta(target, q, k)
    {
    }
  }

  /**
    The nested loops.  For every 32-bit target the result is the first point, in loop order, of least
    delta among the accepted ones, with its m split into M1 and M2; NotFound means none is accepted.
    */
  method FindDivisors(target: u32) returns (r: SearchResult)
    ensures r == NotFound <==> forall p1, n :: Candidate(p1, n) ==> !Accepted(target, p1, n)
    ensures r.Found? ==>
              && Best(target, r.d.p1, r.d.n, 9, 5) && r.delta == Delta(target, r.d.p1, r.d.n)
              && r.d.m2 == M2(M(target, r.d.p1, r.d.n)) && r.d.m1 == M1(M(target, r.d.p1, r.d.n))
  {
    var bestDelta: nat := UNSET;
    var d := Divisors(1, 1, 1, 1);
    var candP1 := 1;
    while candP1 <= 8
      invariant 1 <= candP1 <= 9 && bestDelta <= UNSET
      invariant Progress(target, bestDelta, d, candP1, 5)
    {
      var candN := 5;
      while candN <= 10
        invariant 5 <= candN <= 11 && bestDelta <= UNSET
        invariant Progress(target, bestDelta, d, candP1, candN)
      {
        var denom := candN * candP1 * 7;
        var m := Add32(Mul32(target, denom), BASE_FREQUENCY / 2) / BASE_FREQUENCY;
        if m < 77 || m > 131 {
          NextPoint(target, bestDelta, d, candP1, candN);
          candN := candN + 1;
          continue;
        }
        DenomRange(candP1, candN);
        var curFrequency := Quotient(Mul32(BASE_FREQUENCY, m), denom);
        var currentDelta;
        if target > curFrequency {
          currentDelta := target - curFrequency;
        } else {
          currentDelta := curFrequency - target;
        }
        if bestDelta > currentDelta {
          var m2 := (m + 3) % 5 + 7;
          ghost var before, beforeDelta := d, bestDelta;
          bestDelta := currentDelta;
          d := Divisors(candN, candP1, (m - m2) / 5, m2);
          TakePoint(target, beforeDelta, before, candP1, candN, d);
          DeltaBelowUnset(target, candP1, candN);
        } else {
          KeepPoint(target, bestDelta, d, candP1, candN);
        }
        candN := candN + 1;
      }
      NextRow(target, bestDelta, d, candP1);
      candP1 := candP1 + 1;
    }
    if bestDelta == UNSET {
      r := NotFound;
    } else {
      r := Found(d, bestDelta);
    }
  }
}
