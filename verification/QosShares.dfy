/** The automatic mode's division of a budget, exactly and after rounding to kbit/s. */
module QosShares {
  import opened TrafficControl
  import opened QosCompiler

  /** Share in bit/s of one of `n` active machines under a budget in Mbit/s. */
  function Share(budget: real, n: int): real
    requires n > 0
  {
    budget * 1000000.0 / n as real
  }

  lemma ScaleLess(a: real, b: real, n: real)
    requires a < b && n > 0.0
    ensures a * n < b * n
  {
  }

  lemma ScaleMore(b: real, n: real, m: real)
    requires 0.0 <= b && n <= m
    ensures b * n <= b * m
  {
  }

  /** Shares add up to the root rate, and one more machine never raises a share. */
  lemma SharesAddUp(budget: real, n: int, m: int)
    requires 0 < n <= m && budget >= 0.0
    ensures Share(budget, n) * n as real == budget * 1000000.0
    ensures Share(budget, m) <= Share(budget, n)
  {
    var x := budget * 1000000.0;
    var a, b := Share(budget, n), Share(budget, m);
    assert a * n as real == x && b * m as real == x;
    if b > a {
      ScaleLess(a, b, n as real);
      ScaleMore(b, n as real, m as real);
    }
  }

  lemma RoundingError(x: real)
    ensures -0.5 <= RoundHalfEven(x) as real - x <= 0.5
    ensures x - x.Floor as real == 0.5 ==> RoundHalfEven(x) % 2 == 0
  {
  }

  /** Total of the class rates in kbit/s that `n` equal shares are commanded with. */
  function TotalKbit(share: real, n: nat): int {
    n * Kbit(share)
  }

  lemma SharePositive(budget: real, n: int)
    requires n > 0 && budget > 0.0
    ensures Share(budget, n) > 0.0
  {
  }

  /** One command is off its exact rate by at most half a kbit, or by less than the 1 kbit floor. */
  lemma KbitError(share: real)
    requires share > 0.0
    ensures share >= 1000.0 ==> -0.5 <= Kbit(share) as real - share / 1000.0 <= 0.5
    ensures share < 1000.0 ==> 0.0 < Kbit(share) as real - share / 1000.0 < 1.0
  {
    RoundingError(share / 1000.0);
  }

  lemma OffAsScale(kbit: int, share: real, n: int)
    ensures (n * kbit) as real - share * n as real / 1000.0 == (kbit as real - share / 1000.0) * n as real
  {
    var m, q := n as real, kbit as real;
    assert (n * kbit) as real == m * q;
    assert (q - share / 1000.0) * m == q * m - share / 1000.0 * m;
    assert share / 1000.0 * m == share * m / 1000.0;
  }

  lemma Product(x: real, y: real)
    requires 0.0 <= x && 0.0 < y
    ensures 0.0 <= x * y && (0.0 < x ==> 0.0 < x * y)
  {
  }

  lemma ScaleHalf(off: real, e: real, n: real)
    requires n > 0.0 && -0.5 <= e <= 0.5 && off == e * n
    ensures -0.5 * n <= off <= 0.5 * n
  {
    var up, down := (0.5 - e) * n, (e + 0.5) * n;
    Product(0.5 - e, n);
    Product(e + 0.5, n);
    assert up == 0.5 * n - off;
    assert down == off + 0.5 * n;
  }

  lemma ScaleStrict(off: real, e: real, n: real)
    requires n > 0.0 && 0.0 < e < 1.0 && off == e * n
    ensures 0.0 < off < n
  {
    var up := (1.0 - e) * n;
    Product(1.0 - e, n);
    Product(e, n);
    assert up == n - off;
  }

  lemma TotalError(kbit: int, share: real, n: int)
    requires n > 0
    requires share >= 1000.0 ==> -0.5 <= kbit as real - share / 1000.0 <= 0.5
    requires share < 1000.0 ==> 0.0 < kbit as real - share / 1000.0 < 1.0
    ensures var off := (n * kbit) as real - share * n as real / 1000.0;
      && (share >= 1000.0 ==> -0.5 * n as real <= off <= 0.5 * n as real)
      && (share < 1000.0 ==> 0.0 < off < n as real)
  {
    var m := n as real;
    var e := kbit as real - share / 1000.0;
    var off := (n * kbit) as real - share * n as real / 1000.0;
    OffAsScale(kbit, share, n);
    if share >= 1000.0 {
      ScaleHalf(off, e, m);
    } else {
      ScaleStrict(off, e, m);
    }
  }

  /** With shares of at least 1 kbit/s the commanded total is off the budget by at most half a kbit
      per machine; below that the floor of 1 kbit applies and it is off by less than one each. */
  lemma CommandedTotal(budget: real, n: int)
    requires n > 0 && budget > 0.0
    ensures Share(budget, n) >= 1000.0 ==>
      -0.5 * n as real <= TotalKbit(Share(budget, n), n) as real - budget * 1000.0 <= 0.5 * n as real
    ensures Share(budget, n) < 1000.0 ==>
      0.0 < TotalKbit(Share(budget, n), n) as real - budget * 1000.0 < n as real
  {
    SharePositive(budget, n);
    SharesAddUp(budget, n, n);
    KbitError(Share(budget, n));
    TotalError(Kbit(Share(budget, n)), Share(budget, n), n);
    assert Share(budget, n) * n as real / 1000.0 == budget * 1000.0;
  }

  /** Total rate in kbit/s of some of the classes of a table. */
  function TotalRate(classes: map<int, HtbClass>, ids: seq<int>): int
    requires forall i :: 0 <= i < |ids| ==> ids[i] in classes
    decreases ids
  {
    if ids == [] then 0 else TotalRate(classes, ids[..|ids|-1]) + classes[ids[|ids|-1]].rate
  }

  lemma {:induction false} UniformTotal(classes: map<int, HtbClass>, ids: seq<int>, rate: int)
    requires forall i :: 0 <= i < |ids| ==> ids[i] in classes && classes[ids[i]].rate == rate
    ensures TotalRate(classes, ids) == |ids| * rate
    decreases ids
  {
    if ids == [] {
    } else {
      UniformTotal(classes, ids[..|ids|-1], rate);
      assert |ids| * rate == (|ids| - 1) * rate + rate;
    }
  }
}
