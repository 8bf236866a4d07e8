/** What the traffic analysis computes, told from counters, lists and numbers alone. */
module TrafficExact {
  import opened Traffic
  import opened TrafficProofs

  // ---- Rates ----

  /** The flow of a proxy by its counters: bytes per second over the 30 seconds since the poll before, in
      each direction, unless one of the two counters went back or there was no poll before. */
  ghost predicate FlowOf(f: Flow, prev: Totals, p: Proxy) {
    && f.proxy == p.name && f.inBytes == p.inBytes && f.outBytes == p.outBytes && !f.anomaly
    && (if p.name in prev && p.inBytes >= prev[p.name].0 && p.outBytes >= prev[p.name].1
        then f.rateIn * 30.0 == (p.inBytes - prev[p.name].0) as real
             && f.rateOut * 30.0 == (p.outBytes - prev[p.name].1) as real
        else f.rateIn == f.rateOut == 0.0)
  }

  ghost predicate Once(proxies: seq<Proxy>) {
    forall i, j :: 0 <= i < j < |proxies| ==> proxies[i].name != proxies[j].name
  }

  /** Every online proxy, and no other, has its flow. */
  ghost predicate FlowsSay(flows: seq<Flow>, prev: Totals, proxies: seq<Proxy>) {
    && (forall p :: p in proxies && p.online ==> exists f :: f in flows && FlowOf(f, prev, p))
    && (forall f :: f in flows ==> exists p :: p in proxies && p.online && FlowOf(f, prev, p))
  }

  /** Its counters are what the next poll starts from; the others keep theirs. */
  ghost predicate CountersSay(now: Totals, prev: Totals, proxies: seq<Proxy>) {
    && (forall p :: p in proxies && p.online ==> p.name in now && now[p.name] == (p.inBytes, p.outBytes))
    && (forall name :: (forall p :: p in proxies && p.online ==> p.name != name) ==>
      (name in now <==> name in prev) && (name in prev ==> now[name] == prev[name]))
  }

  lemma LastIsNew(proxies: seq<Proxy>, front: seq<Proxy>, last: Proxy)
    requires Once(proxies) && proxies == front + [last]
    ensures Once(front) && forall p :: p in front ==> p.name != last.name
  {
    assert proxies[|front|] == last;
    assert forall i :: 0 <= i < |front| ==> front[i] == proxies[i];
  }

  lemma OneMoreFlow(flows: seq<Flow>, prev: Totals, front: seq<Proxy>, last: Proxy, f: Flow)
    requires FlowsSay(flows, prev, front) && last.online && FlowOf(f, prev, last)
    ensures FlowsSay(flows + [f], prev, front + [last])
  {
    var more, all := flows + [f], front + [last];
    assert forall g :: g in more <==> g in flows || g == f;
    forall p | p in all && p.online
      ensures exists g :: g in more && FlowOf(g, prev, p)
    {
      if p in front {
        var g :| g in flows && FlowOf(g, prev, p);
        assert g in more;
      } else {
        assert f in more;
      }
    }
    forall g | g in more
      ensures exists p :: p in all && p.online && FlowOf(g, prev, p)
    {
      if g in flows {
        var p :| p in front && p.online && FlowOf(g, prev, p);
        assert p in all;
      } else {
        assert last in all;
      }
    }
  }

  lemma OneMoreCounter(now: Totals, prev: Totals, front: seq<Proxy>, last: Proxy)
    requires CountersSay(now, prev, front) && last.online && forall p :: p in front ==> p.name != last.name
    ensures CountersSay(now[last.name := (last.inBytes, last.outBytes)], prev, front + [last])
  {
    assert forall p :: p in front + [last] <==> p in front || p == last;
  }

  lemma OneMoreOffline(s: Sampling, prev: Totals, front: seq<Proxy>, last: Proxy)
    requires FlowsSay(s.flows, prev, front) && CountersSay(s.prev, prev, front) && !last.online
    ensures FlowsSay(s.flows, prev, front + [last]) && CountersSay(s.prev, prev, front + [last])
  {
    assert forall p :: p in front + [last] <==> p in front || p == last;
  }

  /** So it is after every poll of a list that names nobody twice. */
  lemma {:induction false} SampleExact(prev: Totals, proxies: seq<Proxy>)
    requires Once(proxies)
    ensures FlowsSay(Sample(prev, proxies).flows, prev, proxies)
    ensures CountersSay(Sample(prev, proxies).prev, prev, proxies)
    decreases proxies
  {
    if proxies == [] {
    } else {
      var front, last := proxies[..|proxies|-1], proxies[|proxies|-1];
      assert proxies == front + [last];
      LastIsNew(proxies, front, last);
      SampleExact(prev, front);
      var s, t := Sample(prev, front), Sample(prev, proxies);
      if last.online {
        assert last.name in s.prev <==> last.name in prev;
        OneMoreFlow(s.flows, prev, front, last, t.flows[|t.flows|-1]);
        OneMoreCounter(s.prev, prev, front, last);
      } else {
        OneMoreOffline(s, prev, front, last);
      }
    }
  }

  /** The sample stored for a proxy: the rates by its counters, at the time of the poll. */
  ghost predicate StoredFor(h: Point, prev: Totals, p: Proxy, now: int) {
    && h.ts == now && h.proxy == p.name
    && (if p.name in prev && p.inBytes >= prev[p.name].0 && p.outBytes >= prev[p.name].1
        then h.rateIn * 30.0 == (p.inBytes - prev[p.name].0) as real
             && h.rateOut * 30.0 == (p.outBytes - prev[p.name].1) as real
        else h.rateIn == h.rateOut == 0.0)
  }

  lemma StoredFlow(f: Flow, prev: Totals, p: Proxy, now: int)
    requires FlowOf(f, prev, p)
    ensures StoredFor(PointOf(f, now), prev, p, now)
  {
  }

  lemma StoredOfProxy(flows: seq<Flow>, prev: Totals, proxies: seq<Proxy>, now: int, p: Proxy)
    requires FlowsSay(flows, prev, proxies) && p in proxies && p.online
    ensures exists h :: h in PointsOf(flows, now) && StoredFor(h, prev, p, now)
  {
    var f :| f in flows && FlowOf(f, prev, p);
    var i :| 0 <= i < |flows| && flows[i] == f;
    StoredFlow(f, prev, p, now);
    assert PointsOf(flows, now)[i] == PointOf(f, now);
  }

  lemma ProxyOfStored(flows: seq<Flow>, prev: Totals, proxies: seq<Proxy>, now: int, h: Point)
    requires FlowsSay(flows, prev, proxies) && h in PointsOf(flows, now)
    ensures exists p :: p in proxies && p.online && StoredFor(h, prev, p, now)
  {
    var i :| 0 <= i < |flows| && PointsOf(flows, now)[i] == h;
    assert flows[i] in flows;
    var p :| p in proxies && p.online && FlowOf(flows[i], prev, p);
    StoredFlow(flows[i], prev, p, now);
  }

  ghost predicate PointsSay(points: seq<Point>, prev: Totals, proxies: seq<Proxy>, now: int) {
    && (forall p :: p in proxies && p.online ==> exists h :: h in points && StoredFor(h, prev, p, now))
    && (forall h :: h in points ==> exists p :: p in proxies && p.online && StoredFor(h, prev, p, now))
  }

  lemma StoredFlows(flows: seq<Flow>, prev: Totals, proxies: seq<Proxy>, now: int)
    requires FlowsSay(flows, prev, proxies)
    ensures PointsSay(PointsOf(flows, now), prev, proxies, now)
  {
    forall p | p in proxies && p.online
      ensures exists h :: h in PointsOf(flows, now) && StoredFor(h, prev, p, now)
    {
      StoredOfProxy(flows, prev, proxies, now, p);
    }
    forall h | h in PointsOf(flows, now)
      ensures exists p :: p in proxies && p.online && StoredFor(h, prev, p, now)
    {
      ProxyOfStored(flows, prev, proxies, now, h);
    }
  }

  /** A poll stores such a sample for every online proxy, and no other. */
  lemma StoredExact(prev: Totals, proxies: seq<Proxy>, now: int)
    requires Once(proxies)
    ensures PointsSay(PointsOf(Sample(prev, proxies).flows, now), prev, proxies, now)
  {
    SampleExact(prev, proxies);
    StoredFlows(Sample(prev, proxies).flows, prev, proxies, now);
  }

  // ---- The spike detector ----

  function Total(xs: seq<real>): real
    decreases xs
  {
    if xs == [] then 0.0 else Total(xs[..|xs|-1]) + xs[|xs|-1]
  }

  /** The samples of a proxy in which no rate is negative. */
  function SamplesOf(history: seq<Point>, proxy: string): seq<Point>
    decreases history
  {
    if history == [] then []
    else
      var front, h := SamplesOf(history[..|history|-1], proxy), history[|history|-1];
      if h.proxy == proxy && !(h.rateIn < 0.0) && !(h.rateOut < 0.0) then front + [h] else front
  }

  function InRates(points: seq<Point>): seq<real> {
    seq(|points|, i requires 0 <= i < |points| => points[i].rateIn)
  }

  function OutRates(points: seq<Point>): seq<real> {
    seq(|points|, i requires 0 <= i < |points| => points[i].rateOut)
  }

  lemma TotalMore(points: seq<Point>, h: Point)
    ensures Total(InRates(points + [h])) == Total(InRates(points)) + h.rateIn
    ensures Total(OutRates(points + [h])) == Total(OutRates(points)) + h.rateOut
  {
    assert InRates(points + [h])[..|points|] == InRates(points);
    assert OutRates(points + [h])[..|points|] == OutRates(points);
  }

  lemma {:induction false} SumsAreTotals(history: seq<Point>, proxy: string)
    ensures Count(history, proxy) == |SamplesOf(history, proxy)|
    ensures SumIn(history, proxy) == Total(InRates(SamplesOf(history, proxy)))
    ensures SumOut(history, proxy) == Total(OutRates(SamplesOf(history, proxy)))
    decreases history
  {
    if history == [] {
    } else {
      var front, h := history[..|history|-1], history[|history|-1];
      SumsAreTotals(front, proxy);
      TotalMore(SamplesOf(front, proxy), h);
    }
  }

  /** The rate is over five times a mean of more than 100 kB/s, multiplied out by the number of samples. */
  predicate Surges(rate: real, total: real, n: nat) {
    total > 100000.0 * n as real && rate * n as real > 5.0 * total
  }

  lemma MeanOver(total: real, n: nat, x: real)
    requires n > 0
    ensures total / n as real > x <==> total > x * n as real
  {
    var m := n as real;
    var q := total / m;
    assert q * m == total;
    assert (q - x) * m == total - x * m;
  }

  lemma SpikeSurges(rate: real, total: real, n: nat)
    requires n > 0
    ensures Spike(rate, total / n as real) <==> Surges(rate, total, n)
  {
    var m := n as real;
    var mean := total / m;
    assert mean * m == total;
    MeanOver(total, n, 100000.0);
    MeanOver(mean * 5.0 * m, n, rate);
    assert mean * 5.0 * m == 5.0 * total;
    assert (rate - mean * 5.0) * m == rate * m - 5.0 * total;
  }

  /** A flow is flagged exactly if there are at least three usable samples of its proxy and, in one of the
      two directions, its rate is over five times their mean and that is over 100 kB/s. */
  lemma FlaggedExact(history: seq<Point>, proxy: string, rateIn: real, rateOut: real)
    ensures var points := SamplesOf(history, proxy);
      Flagged(history, proxy, rateIn, rateOut) <==>
        && |points| >= 3
        && (Surges(rateIn, Total(InRates(points)), |points|) || Surges(rateOut, Total(OutRates(points)), |points|))
  {
    SumsAreTotals(history, proxy);
    var n := Count(history, proxy);
    if n >= 3 {
      SpikeSurges(rateIn, SumIn(history, proxy), n);
      SpikeSurges(rateOut, SumOut(history, proxy), n);
    }
  }

  /** What is flagged in a poll, and in the table of flags: each of its flows by its own samples. With no
      samples nothing is judged. */
  ghost predicate FlagSays(flag: bool, recent: seq<Point>, f: Flow) {
    var points := SamplesOf(recent, f.proxy);
    flag <==>
      && |points| >= 3
      && (Surges(f.rateIn, Total(InRates(points)), |points|) || Surges(f.rateOut, Total(OutRates(points)), |points|))
  }

  ghost predicate DistinctFlows(flows: seq<Flow>) {
    forall i, j :: 0 <= i < j < |flows| ==> flows[i].proxy != flows[j].proxy
  }

  lemma JudgedExact(recent: seq<Point>, f: Flow)
    ensures Judged(recent, f) == f.(anomaly := Judged(recent, f).anomaly)
    ensures if recent == [] then Judged(recent, f) == f else FlagSays(Judged(recent, f).anomaly, recent, f)
  {
    FlaggedExact(recent, f.proxy, f.rateIn, f.rateOut);
  }

  lemma {:induction false} MarksExact(marks: map<string, bool>, recent: seq<Point>, flows: seq<Flow>)
    requires DistinctFlows(flows)
    ensures recent == [] ==> Marks(marks, recent, flows) == marks
    ensures recent != [] ==> forall f :: f in flows ==>
      f.proxy in Marks(marks, recent, flows) && FlagSays(Marks(marks, recent, flows)[f.proxy], recent, f)
    ensures forall name :: (forall f :: f in flows ==> f.proxy != name) ==>
      && (name in Marks(marks, recent, flows) <==> name in marks)
      && (name in marks ==> Marks(marks, recent, flows)[name] == marks[name])
    decreases flows
  {
    if recent == [] || flows == [] {
    } else {
      var front, last := flows[..|flows|-1], flows[|flows|-1];
      MarksExact(marks, recent, front);
      JudgedExact(recent, last);
      assert forall f :: f in flows <==> f in front || f == last;
      assert forall f :: f in front ==> f.proxy != last.proxy;
    }
  }

  /** The detector looks back one hour. */
  lemma LooksBackAnHour(history: seq<Point>, readAt: int)
    ensures forall h :: h in Since(history, readAt - HOUR) <==> h in history && readAt - h.ts <= 3600000000000
  {
    SinceShape(history, readAt - HOUR);
  }

  // ---- The report ----

  function Sum(xs: seq<int>): int
    decreases xs
  {
    if xs == [] then 0 else Sum(xs[..|xs|-1]) + xs[|xs|-1]
  }

  ghost predicate SumsOf(flows: seq<Flow>) {
    && TotalIn(flows) == Sum(seq(|flows|, i requires 0 <= i < |flows| => flows[i].inBytes))
    && TotalOut(flows) == Sum(seq(|flows|, i requires 0 <= i < |flows| => flows[i].outBytes))
    && RateInSum(flows) == Total(seq(|flows|, i requires 0 <= i < |flows| => flows[i].rateIn))
    && RateOutSum(flows) == Total(seq(|flows|, i requires 0 <= i < |flows| => flows[i].rateOut))
  }

  /** The totals of a report are the sums over its flows. */
  lemma {:induction false} TotalsExact(flows: seq<Flow>)
    ensures SumsOf(flows)
    decreases flows
  {
    if flows == [] {
    } else {
      var front := flows[..|flows|-1];
      TotalsExact(front);
      var a := seq(|flows|, i requires 0 <= i < |flows| => flows[i].inBytes);
      var b := seq(|flows|, i requires 0 <= i < |flows| => flows[i].outBytes);
      var c := seq(|flows|, i requires 0 <= i < |flows| => flows[i].rateIn);
      var d := seq(|flows|, i requires 0 <= i < |flows| => flows[i].rateOut);
      assert a[..|a|-1] == seq(|front|, i requires 0 <= i < |front| => front[i].inBytes);
      assert b[..|b|-1] == seq(|front|, i requires 0 <= i < |front| => front[i].outBytes);
      assert c[..|c|-1] == seq(|front|, i requires 0 <= i < |front| => front[i].rateIn);
      assert d[..|d|-1] == seq(|front|, i requires 0 <= i < |front| => front[i].rateOut);
    }
  }

  ghost function Moving(flows: seq<Flow>): set<int> {
    set i | 0 <= i < |flows| && (flows[i].rateIn + flows[i].rateOut > 0.0 || flows[i].inBytes > 0)
  }

  /** The busy count is the number of flows that have a rate, or have received anything at all. */
  lemma {:induction false} BusyCountExact(flows: seq<Flow>)
    ensures BusyCount(flows) == |Moving(flows)|
    decreases flows
  {
    if flows == [] {
    } else {
      var front, last := flows[..|flows|-1], |flows| - 1;
      BusyCountExact(front);
      assert Moving(flows) == Moving(front) + (if last in Moving(flows) then {last} else {});
    }
  }

  /** Each percentage is the flow's part of its direction's total, to within half a tenth. */
  lemma PercentagesExact(f: Flow, totalIn: int, totalOut: int)
    ensures totalIn > 0 ==>
      -0.05 <= Shared(f, totalIn, totalOut).pctIn - f.inBytes as real / totalIn as real * 100.0 <= 0.05
    ensures totalOut > 0 ==>
      -0.05 <= Shared(f, totalIn, totalOut).pctOut - f.outBytes as real / totalOut as real * 100.0 <= 0.05
  {
    if totalIn > 0 {
      Round1Error(f.inBytes as real / totalIn as real * 100.0);
    }
    if totalOut > 0 {
      Round1Error(f.outBytes as real / totalOut as real * 100.0);
    }
  }
}
