/** What a spike means when the sample is part of its own mean, and how far rounded shares stray. */
module TrafficProofs {
  import opened Traffic

  // ---- The self-including mean ----

  lemma {:induction false} SumsNonNegative(history: seq<Point>, proxy: string)
    ensures SumIn(history, proxy) >= 0.0 && SumOut(history, proxy) >= 0.0
    decreases history
  {
    if history == [] {
    } else {
      SumsNonNegative(history[..|history|-1], proxy);
    }
  }

  /** The sums are of non-negative terms, so they are at least any one of them. */
  lemma {:induction false} SumsCover(history: seq<Point>, proxy: string, k: int)
    requires 0 <= k < |history| && Usable(history[k], proxy)
    ensures SumIn(history, proxy) >= history[k].rateIn && SumOut(history, proxy) >= history[k].rateOut
    ensures Count(history, proxy) >= 1
    decreases history
  {
    var front, last := history[..|history|-1], history[|history|-1];
    SumsNonNegative(front, proxy);
    if k == |front| {
    } else {
      SumsCover(front, proxy, k);
    }
  }

  lemma MeanTimes(mean: real, n: int)
    requires mean > 0.0 && 1 <= n <= 5
    ensures mean * n as real <= mean * 5.0
  {
  }

  /** A rate that is one of the `n` averaged and exceeds five times their mean is one of at least six. */
  lemma SpikeAmongSix(rate: real, sum: real, n: int)
    requires n >= 1 && sum >= rate && Spike(rate, sum / n as real)
    ensures n >= 6
  {
    var mean := sum / n as real;
    assert mean * n as real == sum;
    if n <= 5 {
      MeanTimes(mean, n);
    }
  }

  /** The detector without its own minimum of three samples. */
  predicate Spikes(history: seq<Point>, proxy: string, rateIn: real, rateOut: real) {
    var n := Count(history, proxy);
    n >= 1 && (Spike(rateIn, SumIn(history, proxy) / n as real) || Spike(rateOut, SumOut(history, proxy) / n as real))
  }

  /** When the judged sample is in the window, being flagged is being a spike among at least six samples;
      the minimum of three never decides. */
  lemma FlaggedMeansSpike(history: seq<Point>, k: int)
    requires 0 <= k < |history| && Usable(history[k], history[k].proxy)
    ensures var h := history[k];
      && (Flagged(history, h.proxy, h.rateIn, h.rateOut) <==> Spikes(history, h.proxy, h.rateIn, h.rateOut))
      && (Flagged(history, h.proxy, h.rateIn, h.rateOut) ==> Count(history, h.proxy) >= 6)
  {
    var h := history[k];
    SumsCover(history, h.proxy, k);
    var n := Count(history, h.proxy);
    if Spike(h.rateIn, SumIn(history, h.proxy) / n as real) {
      SpikeAmongSix(h.rateIn, SumIn(history, h.proxy), n);
    }
    if Spike(h.rateOut, SumOut(history, h.proxy) / n as real) {
      SpikeAmongSix(h.rateOut, SumOut(history, h.proxy), n);
    }
  }

  /** The window contains every point that is recent enough, and no other. */
  lemma {:induction false} SinceShape(history: seq<Point>, from: int)
    ensures forall h :: h in Since(history, from) <==> h in history && h.ts >= from
    decreases history
  {
    if history == [] {
    } else {
      var front, last := history[..|history|-1], history[|history|-1];
      SinceShape(front, from);
      assert forall h :: h in history <==> h in front || h == last;
    }
  }

  /** A poll that stores its samples and reads the hour back within the hour judges every flow by a
      window that contains the flow: a flagged one is among at least six samples, and the minimum of
      three never decides. */
  lemma PollJudgesItself(prev: Totals, history: seq<Point>, proxies: seq<Proxy>, now: int, readAt: int, i: int)
    requires now >= readAt - HOUR && 0 <= i < |Sample(prev, proxies).flows|
    ensures var s := Sample(prev, proxies);
      var recent := Since(history + PointsOf(s.flows, now), readAt - HOUR);
      var f := s.flows[i];
      && (Flagged(recent, f.proxy, f.rateIn, f.rateOut) <==> Spikes(recent, f.proxy, f.rateIn, f.rateOut))
      && (Flagged(recent, f.proxy, f.rateIn, f.rateOut) ==> Count(recent, f.proxy) >= 6)
  {
    var s := Sample(prev, proxies);
    var f := s.flows[i];
    var all := history + PointsOf(s.flows, now);
    SampledFlows(prev, proxies);
    SinceShape(all, readAt - HOUR);
    assert all[|history| + i] == PointOf(f, now);
    assert PointOf(f, now) in Since(all, readAt - HOUR);
    var recent := Since(all, readAt - HOUR);
    var k :| 0 <= k < |recent| && recent[k] == PointOf(f, now);
    FlaggedMeansSpike(recent, k);
  }

  // ---- Stored rates ----

  datatype Round = Round(proxies: seq<Proxy>, now: int, stored: bool)
  datatype Store = Store(prev: Totals, history: seq<Point>)

  function Polled(rounds: seq<Round>): Store
    decreases rounds
  {
    if rounds == [] then Store(map[], [])
    else
      var st, r := Polled(rounds[..|rounds|-1]), rounds[|rounds|-1];
      var s := Sample(st.prev, r.proxies);
      Store(s.prev, st.history + if r.stored then PointsOf(s.flows, r.now) else [])
  }

  /** No run of polls ever stores a negative rate, whatever the counters do. */
  lemma {:induction false} RatesNeverNegative(rounds: seq<Round>)
    ensures forall h :: h in Polled(rounds).history ==> h.rateIn >= 0.0 && h.rateOut >= 0.0
    decreases rounds
  {
    if rounds == [] {
    } else {
      var st, r := Polled(rounds[..|rounds|-1]), rounds[|rounds|-1];
      RatesNeverNegative(rounds[..|rounds|-1]);
      SampledFlows(st.prev, r.proxies);
      var points := PointsOf(Sample(st.prev, r.proxies).flows, r.now);
      forall h | h in points
        ensures h.rateIn >= 0.0 && h.rateOut >= 0.0
      {
        var i :| 0 <= i < |points| && points[i] == h;
        assert Sample(st.prev, r.proxies).flows[i] in Sample(st.prev, r.proxies).flows;
      }
    }
  }

  // ---- A poll whose samples could not be stored ----

  const HALF_MINUTE := 30000000000

  function OneProxy(inBytes: int): seq<Proxy> {
    [Proxy("p", inBytes, 0, true)]
  }

  /** Three polls that are stored, of a proxy that receives 300 kB/s. */
  function ThreePolls(): seq<Round> {
    [Round(OneProxy(0), 0, true), Round(OneProxy(9000000), HALF_MINUTE, true),
     Round(OneProxy(18000000), 2 * HALF_MINUTE, true)]
  }

  lemma SampleOne(prev: Totals, inBytes: int)
    ensures var rate := if "p" in prev then Rates(prev, OneProxy(inBytes)[0]) else (0.0, 0.0);
      Sample(prev, OneProxy(inBytes)) ==
        Sampling(prev["p" := (inBytes, 0)], [Flow("p", inBytes, 0, rate.0, rate.1, 0.0, 0.0, false)])
  {
    assert OneProxy(inBytes)[..0] == [];
    assert Sample(prev, []) == Sampling(prev, []);
  }

  lemma ThreePolled()
    ensures Polled(ThreePolls()) ==
      Store(map["p" := (18000000, 0)],
            [Point(0, "p", 0.0, 0.0), Point(HALF_MINUTE, "p", 300000.0, 0.0),
              Point(2 * HALF_MINUTE, "p", 300000.0, 0.0)])
  {
    var rounds := ThreePolls();
    assert rounds[..3] == rounds && rounds[..2][..1] == rounds[..1] && rounds[..1][..0] == [];
    SampleOne(map[], 0);
    assert Polled(rounds[..1]) == Store(map["p" := (0, 0)], [Point(0, "p", 0.0, 0.0)]);
    SampleOne(map["p" := (0, 0)], 9000000);
    assert Polled(rounds[..2]) ==
      Store(map["p" := (9000000, 0)], [Point(0, "p", 0.0, 0.0), Point(HALF_MINUTE, "p", 300000.0, 0.0)]);
    SampleOne(map["p" := (9000000, 0)], 18000000);
  }

  lemma SumOfThree(a: Point, b: Point, c: Point, from: int)
    requires a.ts >= from && b.ts >= from && c.ts >= from
    requires Usable(a, "p") && Usable(b, "p") && Usable(c, "p")
    ensures Since([a, b, c], from) == [a, b, c] && Count([a, b, c], "p") == 3
    ensures SumIn([a, b, c], "p") == a.rateIn + b.rateIn + c.rateIn
  {
    assert [a, b, c][..2] == [a, b] && [a, b][..1] == [a] && [a][..0] == [];
    assert Since([a], from) == [a] && Since([a, b], from) == [a, b];
    assert Count([a], "p") == 1 && Count([a, b], "p") == 2;
    assert SumIn([a], "p") == a.rateIn && SumIn([a, b], "p") == a.rateIn + b.rateIn;
  }

  lemma {:induction false} CountAtMost(history: seq<Point>, proxy: string, from: int)
    ensures Count(Since(history, from), proxy) <= |history|
    decreases history
  {
    if history == [] {
    } else {
      var front, h := history[..|history|-1], history[|history|-1];
      CountAtMost(front, proxy, from);
      if h.ts >= from {
        assert (Since(front, from) + [h])[..|Since(front, from)|] == Since(front, from);
      }
    }
  }

  lemma NotSix(history: seq<Point>, points: seq<Point>, from: int)
    requires |history| == 3 && |points| == 1
    ensures Count(Since(history + points, from), "p") < 6
  {
    CountAtMost(history + points, "p", from);
  }

  lemma FlaggedAmongThree(history: seq<Point>, now: int)
    requires now == 3 * HALF_MINUTE
    requires history ==
      [Point(0, "p", 0.0, 0.0), Point(HALF_MINUTE, "p", 300000.0, 0.0), Point(2 * HALF_MINUTE, "p", 300000.0, 0.0)]
    ensures var recent := Since(history, now - HOUR);
      Count(recent, "p") == 3 && recent != [] && Flagged(recent, "p", 1100000.0, 0.0)
  {
    SumOfThree(history[0], history[1], history[2], now - HOUR);
    assert history == [history[0], history[1], history[2]];
  }

  /** The next poll finds 1.1 MB/s. If its samples cannot be stored, the mean leaves them out, and the
      flow is flagged among three samples; had they been stored, it would not be. */
  lemma UnstoredSpike()
    ensures var st := Polled(ThreePolls());
      var s := Sample(st.prev, OneProxy(51000000));
      var recent := Since(st.history, 3 * HALF_MINUTE - HOUR);
      var stored := Since(st.history + PointsOf(s.flows, 3 * HALF_MINUTE), 3 * HALF_MINUTE - HOUR);
      && |s.flows| == 1 && s.flows[0].rateIn == 1100000.0
      && Count(recent, "p") == 3 && Judged(recent, s.flows[0]).anomaly
      && !Judged(stored, s.flows[0]).anomaly
  {
    var st, now := Polled(ThreePolls()), 3 * HALF_MINUTE;
    ThreePolled();
    SampleOne(st.prev, 51000000);
    var s := Sample(st.prev, OneProxy(51000000));
    FlaggedAmongThree(st.history, now);
    PollJudgesItself(st.prev, st.history, OneProxy(51000000), now, now, 0);
    NotSix(st.history, PointsOf(s.flows, now), now - HOUR);
  }

  // ---- Shares ----

  /** The percentages of a report, added up. */
  function PctInSum(flows: seq<Flow>): real
    decreases flows
  {
    if flows == [] then 0.0 else PctInSum(flows[..|flows|-1]) + flows[|flows|-1].pctIn
  }

  function PctOutSum(flows: seq<Flow>): real
    decreases flows
  {
    if flows == [] then 0.0 else PctOutSum(flows[..|flows|-1]) + flows[|flows|-1].pctOut
  }

  /** To the nearest tenth, ties away from zero. */
  lemma Round1Error(x: real)
    ensures -0.05 <= Round1(x) - x <= 0.05
    ensures if x >= 0.0 then Round1(x) - x > -0.05 else Round1(x) - x < 0.05
  {
    var y := x * 10.0;
    assert -0.5 <= RoundAway(y) as real - y <= 0.5;
    assert if y >= 0.0 then RoundAway(y) as real - y > -0.5 else RoundAway(y) as real - y < 0.5;
  }

  lemma DivAdd(a: int, b: int, total: int)
    requires total > 0
    ensures (a + b) as real / total as real * 100.0 ==
      a as real / total as real * 100.0 + b as real / total as real * 100.0
  {
    var t := total as real;
    assert (a + b) as real / t == a as real / t + b as real / t;
  }

  lemma Whole(total: int)
    requires total > 0
    ensures total as real / total as real * 100.0 == 100.0
  {
  }

  /** Rounded shares stray from the exact share of the flows together by at most 0.05 per flow. */
  lemma {:induction false} SharesStray(was: seq<Flow>, now: seq<Flow>, totalIn: int, totalOut: int)
    requires |was| == |now| && forall i :: 0 <= i < |was| ==> now[i] == Shared(was[i], totalIn, totalOut)
    ensures totalIn > 0 ==>
      var exact := TotalIn(was) as real / totalIn as real * 100.0;
      exact - 0.05 * |was| as real <= PctInSum(now) <= exact + 0.05 * |was| as real
    ensures totalOut > 0 ==>
      var exact := TotalOut(was) as real / totalOut as real * 100.0;
      exact - 0.05 * |was| as real <= PctOutSum(now) <= exact + 0.05 * |was| as real
    decreases was
  {
    if was == [] {
    } else {
      var front, last := was[..|was|-1], was[|was|-1];
      SharesStray(front, now[..|now|-1], totalIn, totalOut);
      if totalIn > 0 {
        DivAdd(TotalIn(front), last.inBytes, totalIn);
        Round1Error(last.inBytes as real / totalIn as real * 100.0);
      }
      if totalOut > 0 {
        DivAdd(TotalOut(front), last.outBytes, totalOut);
        Round1Error(last.outBytes as real / totalOut as real * 100.0);
      }
      assert 0.05 * |was| as real == 0.05 * |front| as real + 0.05;
    }
  }

  /** So the percentages that a report writes into its flows add up to 100 within 0.05 per flow, in
      each direction that moved anything. */
  lemma ReportAddsUp(was: seq<Flow>, now: seq<Flow>)
    requires |was| == |now| && forall i :: 0 <= i < |was| ==> now[i] == Shared(was[i], TotalIn(was), TotalOut(was))
    ensures TotalIn(was) > 0 ==> 100.0 - 0.05 * |was| as real <= PctInSum(now) <= 100.0 + 0.05 * |was| as real
    ensures TotalOut(was) > 0 ==> 100.0 - 0.05 * |was| as real <= PctOutSum(now) <= 100.0 + 0.05 * |was| as real
  {
    SharesStray(was, now, TotalIn(was), TotalOut(was));
    if TotalIn(was) > 0 {
      Whole(TotalIn(was));
    }
    if TotalOut(was) > 0 {
      Whole(TotalOut(was));
    }
  }
}
