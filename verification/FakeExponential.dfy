/** The blob gas price: factor * e^(numerator / denominator) by a Taylor series in integers. */
module FakeExponential {
  import opened Prelude
  import opened Arithmetic

  const MIN_BLOB_GASPRICE: nat := 1
  const BLOB_GASPRICE_UPDATE_FRACTION: nat := 3338477

  /** Rounds still to come before the terms must fall. */
  function Rising(numerator: nat, denominator: nat, i: nat): nat
    requires denominator > 0
  {
    Max(0, numerator / denominator + 1 - i)
  }

  lemma DivShrinks(a: nat, b: nat, n: nat, d: nat)
    requires a > 0 && n < d && b == a * n
    ensures 0 <= b / d < a
  {
    MulGrows(n, d, a);
    assert b < a * d;
    DivBelow(b, a, d);
  }

  lemma DivBelow(b: nat, a: nat, d: nat)
    requires d > 0 && b < a * d
    ensures 0 <= b / d < a
  {
    DivNotNegative(b, d);
    DivMod(b, d);
    if b / d >= a {
      MulGrows(a, b / d, d);
    }
  }

  /** The next term of the series. */
  function NextTerm(term: nat, numerator: nat, denominator: nat, i: nat): nat
    requires denominator > 0 && i > 0
  {
    var d := denominator * i;
    DivMonotone(0, term * numerator, d);
    term * numerator / d
  }

  /** Once denominator * i exceeds the numerator, every term is smaller than the one before; until
      then, fewer rounds are left. */
  lemma TermsFall(term: nat, numerator: nat, denominator: nat, i: nat)
    requires denominator > 0 && i > 0 && term > 0
    ensures Rising(numerator, denominator, i + 1) < Rising(numerator, denominator, i)
            || (Rising(numerator, denominator, i + 1) == Rising(numerator, denominator, i)
                && NextTerm(term, numerator, denominator, i) < term)
  {
    if Rising(numerator, denominator, i) == 0 {
      var q := numerator / denominator;
      DivMod(numerator, denominator);
      assert (q + 1) * denominator == q * denominator + denominator;
      MulGrows(q + 1, i, denominator);
      DivShrinks(term, term * numerator, numerator, denominator * i);
    }
  }

  /** The sum of the series from `term`, the i-th, on. */
  function Sum(term: nat, numerator: nat, denominator: nat, i: nat): nat
    requires denominator > 0 && i > 0
    decreases Rising(numerator, denominator, i), term
  {
    if term == 0 then 0
    else
      TermsFall(term, numerator, denominator, i);
      term + Sum(NextTerm(term, numerator, denominator, i), numerator, denominator, i + 1)
  }

  function Exponential(factor: nat, numerator: nat, denominator: nat): nat
    requires denominator > 0
  {
    var sum := Sum(factor * denominator, numerator, denominator, 1);
    DivMonotone(0, sum, denominator);
    sum / denominator
  }

  /** The loop terminates for every non-zero denominator and computes the sum. */
  method FakeExponential(factor: nat, numerator: nat, denominator: nat) returns (r: nat)
    requires denominator > 0
    ensures r == Exponential(factor, numerator, denominator)
  {
    var i: nat, output: nat, accum: nat := 1, 0, factor * denominator;
    while accum > 0
      invariant i > 0
      invariant output + Sum(accum, numerator, denominator, i) == Sum(factor * denominator, numerator, denominator, 1)
      decreases Rising(numerator, denominator, i), accum
    {
      output := output + accum;
      TermsFall(accum, numerator, denominator, i);
      accum := NextTerm(accum, numerator, denominator, i);
      i := i + 1;
    }
    DivMonotone(0, output, denominator);
    r := output / denominator;
  }

  /** A bigger term or numerator never gives a smaller sum. */
  lemma {:induction false} SumMonotone(t1: nat, n1: nat, t2: nat, n2: nat, d: nat, i: nat)
    requires d > 0 && i > 0 && t1 <= t2 && n1 <= n2
    ensures Sum(t1, n1, d, i) <= Sum(t2, n2, d, i)
    decreases Rising(n2, d, i), t2
  {
    if t1 > 0 {
      TermsFall(t2, n2, d, i);
      MulGrows(t1, t2, n1);
      MulGrows(n1, n2, t2);
      DivMonotone(t1 * n1, t2 * n2, d * i);
      SumMonotone(NextTerm(t1, n1, d, i), n1, NextTerm(t2, n2, d, i), n2, d, i + 1);
    }
  }

  /** The result is at least the factor, and never falls when the numerator grows. */
  lemma ExponentialGrows(factor: nat, n1: nat, n2: nat, d: nat)
    requires d > 0 && n1 <= n2
    ensures factor <= Exponential(factor, n1, d) <= Exponential(factor, n2, d)
  {
    var t := factor * d;
    SumMonotone(t, n1, t, n2, d, 1);
    DivMonotone(Sum(t, n1, d, 1), Sum(t, n2, d, 1), d);
    assert t <= Sum(t, n1, d, 1);
    DivMonotone(t, Sum(t, n1, d, 1), d);
    DivExact(factor, d);
  }

  lemma DivExact(a: nat, d: nat)
    requires d > 0
    ensures a * d / d == a
  {
    DivUnique(a * d, d, a, 0);
  }

  function BlobGasprice(excess: nat): nat {
    Exponential(MIN_BLOB_GASPRICE, excess, BLOB_GASPRICE_UPDATE_FRACTION)
  }

  /** The blob gas price is at least one and never falls as excess blob gas grows. */
  lemma BlobGaspriceGrows(less: nat, more: nat)
    requires less <= more
    ensures 1 <= BlobGasprice(less) <= BlobGasprice(more)
  {
    ExponentialGrows(MIN_BLOB_GASPRICE, less, more, BLOB_GASPRICE_UPDATE_FRACTION);
  }

  /** Every term is the last one times the numerator over denominator and index, rounded down. */
  lemma NextTermIs(term: nat, numerator: nat, denominator: nat, i: nat)
    requires denominator > 0 && i > 0
    ensures var next, d := NextTerm(term, numerator, denominator, i), denominator * i;
            next * d <= term * numerator < next * d + d
  {
    DivMod(term * numerator, denominator * i);
  }

  /** The k-th term after the first. */
  function TermAt(factor: nat, numerator: nat, denominator: nat, k: nat): nat
    requires denominator > 0
  {
    if k == 0 then factor * denominator else NextTerm(TermAt(factor, numerator, denominator, k - 1), numerator, denominator, k)
  }

  function Power(n: nat, k: nat): nat {
    if k == 0 then 1 else n * Power(n, k - 1)
  }

  /** denominator^k * k! */
  function Scale(denominator: nat, k: nat): nat {
    if k == 0 then 1 else denominator * k * Scale(denominator, k - 1)
  }

  /** No term exceeds the one of the real series, factor * denominator * (numerator / denominator)^k / k!. */
  lemma {:induction false} TermBelowSeries(factor: nat, numerator: nat, denominator: nat, k: nat)
    requires denominator > 0
    ensures TermAt(factor, numerator, denominator, k) * Scale(denominator, k) <= factor * denominator * Power(numerator, k)
  {
    if k > 0 {
      var t0, t, d, s := TermAt(factor, numerator, denominator, k - 1), TermAt(factor, numerator, denominator, k), denominator * k, Scale(denominator, k - 1);
      var first, p := factor * denominator, Power(numerator, k - 1);
      TermBelowSeries(factor, numerator, denominator, k - 1);
      NextTermIs(t0, numerator, denominator, k);
      Scaled(t, d, s, t0, numerator, first, p);
    }
  }

  lemma Scaled(t: nat, d: nat, s: nat, t0: nat, n: nat, first: nat, p: nat)
    requires t * d <= t0 * n && t0 * s <= first * p
    ensures t * (d * s) <= first * (n * p)
  {
    MulGrows(t * d, t0 * n, s);
    MulGrows(t0 * s, first * p, n);
    assert t * (d * s) == t * d * s;
    assert t0 * n * s == t0 * s * n;
    assert first * p * n == first * (n * p);
  }

  /** Without excess the price is the factor. */
  lemma ExponentialAtZero(factor: nat, d: nat)
    requires d > 0
    ensures Exponential(factor, 0, d) == factor
  {
    var t := factor * d;
    DivUnique(t * 0, d * 1, 0, 0);
    assert NextTerm(t, 0, d, 1) == 0;
    assert Sum(t, 0, d, 1) == t;
    DivExact(factor, d);
  }

  /** Terms of a series from the i-th on: each is the one before times the numerator over denominator and
      index, rounded down, and the last is zero. */
  predicate IsSeries(terms: seq<nat>, numerator: nat, denominator: nat, i: nat) {
    && terms != [] && terms[|terms| - 1] == 0
    && forall k :: 0 <= k < |terms| - 1 ==> IsFloor(terms[k] * numerator, denominator * (i + k), terms[k + 1])
  }

  predicate IsFloor(a: nat, d: nat, q: nat) {
    q * d <= a < q * d + d
  }

  function AddUp(terms: seq<nat>): nat {
    if terms == [] then 0 else terms[0] + AddUp(terms[1..])
  }

  /** The program's sum is that of any such series. */
  lemma {:induction false} SumOfSeries(terms: seq<nat>, numerator: nat, denominator: nat, i: nat)
    requires denominator > 0 && i > 0 && IsSeries(terms, numerator, denominator, i)
    ensures Sum(terms[0], numerator, denominator, i) == AddUp(terms)
    decreases |terms|
  {
    if |terms| == 1 {
      assert AddUp(terms) == 0;
    } else {
      var rest := terms[1..];
      var a, d := terms[0] * numerator, denominator * i;
      assert IsFloor(terms[0] * numerator, denominator * (i + 0), terms[1]);
      DivUnique(a, d, terms[1], a - terms[1] * d);
      forall k | 0 <= k < |rest| - 1 ensures IsFloor(rest[k] * numerator, denominator * (i + 1 + k), rest[k + 1]) {
        assert IsFloor(terms[k + 1] * numerator, denominator * (i + (k + 1)), terms[k + 2]);
      }
      SumOfSeries(rest, numerator, denominator, i + 1);
      if terms[0] == 0 {
        ZerosAddUp(terms, numerator, denominator, i);
      }
    }
  }

  /** After a zero term come zeros. */
  lemma {:induction false} ZerosAddUp(terms: seq<nat>, numerator: nat, denominator: nat, i: nat)
    requires denominator > 0 && i > 0 && IsSeries(terms, numerator, denominator, i) && terms[0] == 0
    ensures AddUp(terms) == 0
    decreases |terms|
  {
    if |terms| > 1 {
      var rest := terms[1..];
      assert IsFloor(terms[0] * numerator, denominator * (i + 0), terms[1]);
      DivUnique(0, denominator * i, terms[1], 0 - terms[1] * (denominator * i));
      DivUnique(0, denominator * i, 0, 0);
      forall k | 0 <= k < |rest| - 1 ensures IsFloor(rest[k] * numerator, denominator * (i + 1 + k), rest[k + 1]) {
        assert IsFloor(terms[k + 1] * numerator, denominator * (i + (k + 1)), terms[k + 2]);
      }
      ZerosAddUp(rest, numerator, denominator, i + 1);
    }
  }

  lemma Link(term: nat, numerator: nat, denominator: nat, i: nat, next: nat)
    requires denominator > 0 && i > 0 && term > 0 && IsFloor(term * numerator, denominator * i, next)
    ensures Sum(term, numerator, denominator, i) == term + Sum(next, numerator, denominator, i + 1)
  {
    var a, d := term * numerator, denominator * i;
    DivUnique(a, d, next, a - next * d);
  }

  lemma SumAtOne()
    ensures Sum(3338477, 2314057, 3338477, 1) == 6676952
  {
    Link(3338477, 2314057, 3338477, 1, 2314057);
    Link(2314057, 2314057, 3338477, 2, 801991);
    Link(801991, 2314057, 3338477, 3, 185299);
    Link(185299, 2314057, 3338477, 4, 32109);
    Link(32109, 2314057, 3338477, 5, 4451);
    Link(4451, 2314057, 3338477, 6, 514);
    Link(514, 2314057, 3338477, 7, 50);
    Link(50, 2314057, 3338477, 8, 4);
    Link(4, 2314057, 3338477, 9, 0);
  }

  lemma SumAtTwo()
    ensures Sum(3338477, 2314058, 3338477, 1) == 6676954
  {
    Link(3338477, 2314058, 3338477, 1, 2314058);
    Link(2314058, 2314058, 3338477, 2, 801992);
    Link(801992, 2314058, 3338477, 3, 185299);
    Link(185299, 2314058, 3338477, 4, 32109);
    Link(32109, 2314058, 3338477, 5, 4451);
    Link(4451, 2314058, 3338477, 6, 514);
    Link(514, 2314058, 3338477, 7, 50);
    Link(50, 2314058, 3338477, 8, 4);
    Link(4, 2314058, 3338477, 9, 0);
  }

  /** The price of a blob gas is one up to an excess of 2314057 and two from the next on. */
  lemma PriceDoubles()
    ensures BlobGasprice(0) == 1 && BlobGasprice(2314057) == 1 && BlobGasprice(2314058) == 2
  {
    ExponentialAtZero(1, 3338477);
    SumAtOne();
    SumAtTwo();
    DivUnique(6676952, 3338477, 1, 3338475);
    DivUnique(6676954, 3338477, 2, 0);
  }
}
