/**
  Per-proxy traffic rates from cumulative counters, the spike detector over the last hour of stored
  samples, and the share report. Rates are in bytes per second, times in nanoseconds.
 */
module Traffic {
  import opened Basics

  const HOUR := 3600000000000
  const ELAPSED := 30.0
  const SPIKE_FACTOR := 5.0
  const QUIET := 100000.0

  datatype Proxy = Proxy(name: string, inBytes: int, outBytes: int, online: bool)

  datatype Point = Point(ts: int, proxy: string, rateIn: real, rateOut: real)

  /** A flow as a value: what one `ProxyFlow` object holds. */
  datatype Flow = Flow(proxy: string, inBytes: int, outBytes: int, rateIn: real, rateOut: real, pctIn: real,
                       pctOut: real, anomaly: bool)

  type Totals = map<string, (int, int)>

  /** Rates since the last poll; a counter that went back resets both. */
  function Rates(prev: Totals, p: Proxy): (real, real) {
    if p.name !in prev then (0.0, 0.0)
    else
      var rateIn := (p.inBytes - prev[p.name].0) as real / ELAPSED;
      var rateOut := (p.outBytes - prev[p.name].1) as real / ELAPSED;
      if rateIn < 0.0 || rateOut < 0.0 then (0.0, 0.0) else (rateIn, rateOut)
  }

  datatype Sampling = Sampling(prev: Totals, flows: seq<Flow>)

  /** One pass over the dashboard's proxies. */
  function Sample(prev: Totals, proxies: seq<Proxy>): Sampling
    decreases proxies
  {
    if proxies == [] then Sampling(prev, [])
    else
      var s, p := Sample(prev, proxies[..|proxies|-1]), proxies[|proxies|-1];
      if !p.online then s
      else
        var (rateIn, rateOut) := Rates(s.prev, p);
        Sampling(s.prev[p.name := (p.inBytes, p.outBytes)],
                 s.flows + [Flow(p.name, p.inBytes, p.outBytes, rateIn, rateOut, 0.0, 0.0, false)])
  }

  function PointOf(f: Flow, now: int): Point {
    Point(now, f.proxy, f.rateIn, f.rateOut)
  }

  function PointsOf(flows: seq<Flow>, now: int): seq<Point> {
    seq(|flows|, i requires 0 <= i < |flows| => PointOf(flows[i], now))
  }

  // ---- The spike detector ----

  /** The samples the detector looks at. */
  function Since(history: seq<Point>, from: int): seq<Point>
    decreases history
  {
    if history == [] then []
    else
      var front, h := Since(history[..|history|-1], from), history[|history|-1];
      if h.ts >= from then front + [h] else front
  }

  predicate Usable(h: Point, proxy: string) {
    h.proxy == proxy && h.rateIn >= 0.0 && h.rateOut >= 0.0
  }

  function SumIn(history: seq<Point>, proxy: string): real
    decreases history
  {
    if history == [] then 0.0
    else
      var h := history[|history|-1];
      SumIn(history[..|history|-1], proxy) + if Usable(h, proxy) then h.rateIn else 0.0
  }

  function SumOut(history: seq<Point>, proxy: string): real
    decreases history
  {
    if history == [] then 0.0
    else
      var h := history[|history|-1];
      SumOut(history[..|history|-1], proxy) + if Usable(h, proxy) then h.rateOut else 0.0
  }

  function Count(history: seq<Point>, proxy: string): nat
    decreases history
  {
    if history == [] then 0
    else Count(history[..|history|-1], proxy) + if Usable(history[|history|-1], proxy) then 1 else 0
  }

  predicate Spike(rate: real, mean: real) {
    mean > QUIET && rate > mean * SPIKE_FACTOR
  }

  predicate Flagged(history: seq<Point>, proxy: string, rateIn: real, rateOut: real) {
    var n := Count(history, proxy);
    n >= 3 && (Spike(rateIn, SumIn(history, proxy) / n as real) || Spike(rateOut, SumOut(history, proxy) / n as real))
  }

  /** A flow after it was judged; with no samples to judge by it stays as it is. */
  function Judged(recent: seq<Point>, f: Flow): Flow {
    if recent == [] then f else f.(anomaly := Flagged(recent, f.proxy, f.rateIn, f.rateOut))
  }

  /** The table of flags after a poll's flows were judged by the samples in `recent`. */
  function Marks(marks: map<string, bool>, recent: seq<Point>, flows: seq<Flow>): map<string, bool>
    decreases flows
  {
    if recent == [] || flows == [] then marks
    else
      var f := flows[|flows|-1];
      Marks(marks, recent, flows[..|flows|-1])[f.proxy := Judged(recent, f).anomaly]
  }

  // ---- The share report ----

  /** Half away from zero, as `math.Round`. */
  function RoundAway(x: real): int {
    if x >= 0.0 then (x + 0.5).Floor else -((-x + 0.5).Floor)
  }

  function Round1(x: real): real {
    RoundAway(x * 10.0) as real / 10.0
  }

  function TotalIn(flows: seq<Flow>): int
    decreases flows
  {
    if flows == [] then 0 else TotalIn(flows[..|flows|-1]) + flows[|flows|-1].inBytes
  }

  function TotalOut(flows: seq<Flow>): int
    decreases flows
  {
    if flows == [] then 0 else TotalOut(flows[..|flows|-1]) + flows[|flows|-1].outBytes
  }

  function RateInSum(flows: seq<Flow>): real
    decreases flows
  {
    if flows == [] then 0.0 else RateInSum(flows[..|flows|-1]) + flows[|flows|-1].rateIn
  }

  function RateOutSum(flows: seq<Flow>): real
    decreases flows
  {
    if flows == [] then 0.0 else RateOutSum(flows[..|flows|-1]) + flows[|flows|-1].rateOut
  }

  predicate Busy(f: Flow) {
    f.rateIn + f.rateOut > 0.0 || f.inBytes > 0
  }

  function BusyCount(flows: seq<Flow>): int
    decreases flows
  {
    if flows == [] then 0 else BusyCount(flows[..|flows|-1]) + if Busy(flows[|flows|-1]) then 1 else 0
  }

  function PctIn(f: Flow, total: int): real {
    if total > 0 then Round1(f.inBytes as real / total as real * 100.0) else f.pctIn
  }

  function PctOut(f: Flow, total: int): real {
    if total > 0 then Round1(f.outBytes as real / total as real * 100.0) else f.pctOut
  }

  function Shared(f: Flow, totalIn: int, totalOut: int): Flow {
    f.(pctIn := PctIn(f, totalIn), pctOut := PctOut(f, totalOut))
  }

  /** A flow object, shared between the table of last samples and the reports made from it. */
  class ProxyFlow {
    const proxy: string
    const inBytes: int
    const outBytes: int
    const rateIn: real
    const rateOut: real
    var pctIn: real
    var pctOut: real
    var anomaly: bool

    function Value(): Flow
      reads this
    {
      Flow(proxy, inBytes, outBytes, rateIn, rateOut, pctIn, pctOut, anomaly)
    }

    constructor (proxy: string, inBytes: int, outBytes: int, rateIn: real, rateOut: real)
      ensures Value() == Flow(proxy, inBytes, outBytes, rateIn, rateOut, 0.0, 0.0, false)
    {
      this.proxy, this.inBytes, this.outBytes := proxy, inBytes, outBytes;
      this.rateIn, this.rateOut := rateIn, rateOut;
      pctIn, pctOut, anomaly := 0.0, 0.0, false;
    }
  }

  ghost function Values(flows: seq<ProxyFlow>): seq<Flow>
    reads flows
  {
    seq(|flows|, i requires 0 <= i < |flows| reads flows => flows[i].Value())
  }

  /** `sums` and `cnt` are the detector's running sums over `recent`, per proxy. */
  ghost predicate Averaged(recent: seq<Point>, sums: map<string, (real, real)>, cnt: map<string, int>) {
    && sums.Keys == cnt.Keys
    && (forall p :: p in cnt ==> cnt[p] == Count(recent, p) && sums[p] == (SumIn(recent, p), SumOut(recent, p)))
    && (forall p :: p !in cnt ==> Count(recent, p) == 0 && SumIn(recent, p) == SumOut(recent, p) == 0.0)
  }

  /** The table of last samples after some flows were filed in turn. */
  function Filed(table: map<string, ProxyFlow>, flows: seq<ProxyFlow>): map<string, ProxyFlow>
    decreases flows
  {
    if flows == [] then table else Filed(table, flows[..|flows|-1])[flows[|flows|-1].proxy := flows[|flows|-1]]
  }

  datatype Snapshot = Snapshot(totalIn: int, totalOut: int, rateInSum: real, rateOutSum: real,
                               flows: seq<ProxyFlow>, top: ProxyFlow, anomalies: seq<ProxyFlow>, online: int)

  lemma {:induction false} SharingKeepsTotals(was: seq<Flow>, now: seq<Flow>, totalIn: int, totalOut: int)
    requires |was| == |now| && forall i :: 0 <= i < |was| ==> now[i] == Shared(was[i], totalIn, totalOut)
    ensures TotalIn(now) == TotalIn(was) && TotalOut(now) == TotalOut(was)
    ensures RateInSum(now) == RateInSum(was) && RateOutSum(now) == RateOutSum(was) && BusyCount(now) == BusyCount(was)
    decreases was
  {
    if was == [] {
    } else {
      SharingKeepsTotals(was[..|was|-1], now[..|now|-1], totalIn, totalOut);
    }
  }

  class Service {
    var prevTotals: Totals
    var lastSample: map<string, ProxyFlow>
    var anomaly: map<string, bool>
    var history: seq<Point>

    /** Every flow is filed under its own name, so no object is filed twice. */
    ghost predicate Valid()
      reads this, lastSample.Values
    {
      forall name :: name in lastSample ==> lastSample[name].proxy == name
    }

    constructor ()
      ensures Valid() && prevTotals == map[] && lastSample == map[] && anomaly == map[] && history == []
    {
      prevTotals, lastSample, anomaly, history := map[], map[], map[], [];
    }

    /** A new flow for one online proxy, measured against its last totals, and filed. */
    method MeasureProxy(p: Proxy) returns (f: ProxyFlow)
      modifies this`prevTotals, this`lastSample
      ensures fresh(f)
      ensures var (rateIn, rateOut) := Rates(old(prevTotals), p);
        f.Value() == Flow(p.name, p.inBytes, p.outBytes, rateIn, rateOut, 0.0, 0.0, false)
      ensures prevTotals == old(prevTotals)[p.name := (p.inBytes, p.outBytes)]
      ensures lastSample == old(lastSample)[p.name := f]
    {
      var rateIn, rateOut := 0.0, 0.0;
      if p.name in prevTotals {
        rateIn := (p.inBytes - prevTotals[p.name].0) as real / ELAPSED;
        rateOut := (p.outBytes - prevTotals[p.name].1) as real / ELAPSED;
        if rateIn < 0.0 || rateOut < 0.0 {
          rateIn, rateOut := 0.0, 0.0;
        }
      }
      prevTotals := prevTotals[p.name := (p.inBytes, p.outBytes)];
      f := new ProxyFlow(p.name, p.inBytes, p.outBytes, rateIn, rateOut);
      lastSample := lastSample[p.name := f];
    }

    /** The sampling pass; makes a new object for every online proxy and files it. */
    method SampleProxies(proxies: seq<Proxy>, now: int) returns (flows: seq<ProxyFlow>, points: seq<Point>)
      requires Valid()
      modifies this`prevTotals, this`lastSample
      ensures Valid()
      ensures forall f :: f in flows ==> fresh(f)
      ensures var s := Sample(old(prevTotals), proxies);
        prevTotals == s.prev && Values(flows) == s.flows && points == PointsOf(s.flows, now)
      ensures forall i, j :: 0 <= i < j < |flows| ==> flows[i] != flows[j]
      ensures lastSample == Filed(old(lastSample), flows)
      ensures forall name :: name in lastSample ==>
        lastSample[name] in flows || (name in old(lastSample) && lastSample[name] == old(lastSample)[name])
    {
      flows, points := [], [];
      for i := 0 to |proxies|
        invariant Valid()
        invariant forall f :: f in flows ==> fresh(f)
        invariant var s := Sample(old(prevTotals), proxies[..i]);
          prevTotals == s.prev && Values(flows) == s.flows && points == PointsOf(s.flows, now)
        invariant forall j, k :: 0 <= j < k < |flows| ==> flows[j] != flows[k]
        invariant lastSample == Filed(old(lastSample), flows)
        invariant forall name :: name in lastSample ==>
          lastSample[name] in flows || (name in old(lastSample) && lastSample[name] == old(lastSample)[name])
      {
        assert proxies[..i+1][..i] == proxies[..i];
        var p := proxies[i];
        if p.online {
          var f := MeasureProxy(p);
          assert (flows + [f])[..|flows|] == flows;
          flows := flows + [f];
          points := points + [Point(now, p.name, f.rateIn, f.rateOut)];
        }
      }
      assert proxies[..|proxies|] == proxies;
    }

    method Judge(ghost recent: seq<Point>, sums: map<string, (real, real)>, cnt: map<string, int>, proxy: string,
                 rateIn: real, rateOut: real)
      returns (flagged: bool)
      requires Averaged(recent, sums, cnt)
      ensures flagged == Flagged(recent, proxy, rateIn, rateOut)
    {
      flagged := false;
      var n := if proxy in cnt then cnt[proxy] else 0;
      if n >= 3 {
        var meanIn, meanOut := sums[proxy].0 / n as real, sums[proxy].1 / n as real;
        if (meanIn > QUIET && rateIn > meanIn * SPIKE_FACTOR) || (meanOut > QUIET && rateOut > meanOut * SPIKE_FACTOR) {
          flagged := true;
        }
      }
    }

    method MarkFlow(f: ProxyFlow, ghost recent: seq<Point>, sums: map<string, (real, real)>, cnt: map<string, int>)
      requires recent != [] && Averaged(recent, sums, cnt)
      modifies this`anomaly, f
      ensures f.Value() == Judged(recent, old(f.Value()))
      ensures anomaly == old(anomaly)[f.proxy := f.anomaly]
    {
      var flagged := Judge(recent, sums, cnt, f.proxy, f.rateIn, f.rateOut);
      anomaly := anomaly[f.proxy := flagged];
      f.anomaly := flagged;
    }

    method MarkFlows(flows: seq<ProxyFlow>, ghost recent: seq<Point>, sums: map<string, (real, real)>,
                     cnt: map<string, int>)
      requires recent != [] && Averaged(recent, sums, cnt)
      requires forall i, j :: 0 <= i < j < |flows| ==> flows[i] != flows[j]
      modifies this`anomaly, flows
      ensures anomaly == Marks(old(anomaly), recent, old(Values(flows)))
      ensures forall i :: 0 <= i < |flows| ==> flows[i].Value() == Judged(recent, old(flows[i].Value()))
    {
      ghost var values := Values(flows);
      for i := 0 to |flows|
        invariant anomaly == Marks(old(anomaly), recent, values[..i])
        invariant forall j :: 0 <= j < i ==> flows[j].Value() == Judged(recent, values[j])
        invariant forall j :: i <= j < |flows| ==> flows[j].Value() == values[j]
      {
        assert values[..i+1][..i] == values[..i];
        MarkFlow(flows[i], recent, sums, cnt);
      }
      assert values[..|flows|] == values;
    }

    method ReadHistory(from: int) returns (recent: seq<Point>)
      ensures recent == Since(history, from)
    {
      recent := [];
      for i := 0 to |history|
        invariant recent == Since(history[..i], from)
      {
        assert history[..i+1][..i] == history[..i];
        if history[i].ts >= from {
          recent := recent + [history[i]];
        }
      }
      assert history[..|history|] == history;
    }

    /** Sums and counts per proxy, over the samples whose rates are not negative. */
    method Averages(recent: seq<Point>) returns (sums: map<string, (real, real)>, cnt: map<string, int>)
      ensures Averaged(recent, sums, cnt)
    {
      sums, cnt := map[], map[];
      for i := 0 to |recent|
        invariant Averaged(recent[..i], sums, cnt)
      {
        assert recent[..i+1][..i] == recent[..i];
        var h := recent[i];
        if !(h.rateIn < 0.0 || h.rateOut < 0.0) {
          var a := if h.proxy in sums then sums[h.proxy] else (0.0, 0.0);
          sums := sums[h.proxy := (a.0 + h.rateIn, a.1 + h.rateOut)];
          cnt := cnt[h.proxy := (if h.proxy in cnt then cnt[h.proxy] else 0) + 1];
        }
      }
      assert recent[..|recent|] == recent;
    }

    /** Marks each polled flow, in place, by comparing it with the last hour's mean. `readable` tells
        whether the hour can be read back. */
    method DetectAnomalies(flows: seq<ProxyFlow>, readAt: int, readable: bool)
      requires forall i, j :: 0 <= i < j < |flows| ==> flows[i] != flows[j]
      modifies this`anomaly, flows
      ensures var recent := if readable then Since(history, readAt - HOUR) else [];
        && anomaly == Marks(old(anomaly), recent, old(Values(flows)))
        && forall i :: 0 <= i < |flows| ==> flows[i].Value() == Judged(recent, old(flows[i].Value()))
    {
      if !readable {
        return;
      }
      var recent := ReadHistory(readAt - HOUR);
      if recent == [] {
        return;
      }
      var sums, cnt := Averages(recent);
      MarkFlows(flows, recent, sums, cnt);
    }

    /** One poll. `stored` tells whether the samples could be saved, `readAt` when the hour is read
        back, and `readable` whether it can be. */
    method Poll(proxies: seq<Proxy>, now: int, stored: bool, readAt: int, readable: bool)
      returns (flows: seq<ProxyFlow>)
      requires Valid()
      modifies this
      ensures Valid()
      ensures var s := Sample(old(prevTotals), proxies);
        var recent := if readable then Since(history, readAt - HOUR) else [];
        && prevTotals == s.prev
        && history == old(history) + (if stored then PointsOf(s.flows, now) else [])
        && anomaly == Marks(old(anomaly), recent, s.flows)
        && |flows| == |s.flows|
        && forall i :: 0 <= i < |flows| ==> flows[i].Value() == Judged(recent, s.flows[i])
      ensures forall f :: f in flows ==> fresh(f)
      ensures forall i, j :: 0 <= i < j < |flows| ==> flows[i] != flows[j]
      ensures lastSample == Filed(old(lastSample), flows)
    {
      var points;
      flows, points := SampleProxies(proxies, now);
      ghost var values := Values(flows);
      if |points| > 0 && stored {
        history := history + points;
      }
      assert forall i :: 0 <= i < |flows| ==> flows[i] in flows && flows[i].Value() == values[i];
      DetectAnomalies(flows, readAt, readable);
    }

    /** Writes each flow's percentages into it, and picks out the flagged ones. */
    method ShareOut(flows: seq<ProxyFlow>, totalIn: int, totalOut: int) returns (anomalies: seq<ProxyFlow>)
      requires forall i, j :: 0 <= i < j < |flows| ==> flows[i] != flows[j]
      modifies flows
      ensures forall i :: 0 <= i < |flows| ==> flows[i].Value() == Shared(old(flows[i].Value()), totalIn, totalOut)
      ensures forall f :: f in anomalies <==> f in flows && f.anomaly
    {
      anomalies := [];
      for i := 0 to |flows|
        invariant forall j :: 0 <= j < i ==> flows[j].Value() == Shared(old(flows[j].Value()), totalIn, totalOut)
        invariant forall j :: i <= j < |flows| ==> flows[j].Value() == old(flows[j].Value())
        invariant forall f :: f in anomalies <==> f in flows[..i] && f.anomaly
      {
        assert forall f :: f in flows[..i+1] <==> f in flows[..i] || f == flows[i];
        if totalIn > 0 {
          flows[i].pctIn := Round1(flows[i].inBytes as real / totalIn as real * 100.0);
        }
        if totalOut > 0 {
          flows[i].pctOut := Round1(flows[i].outBytes as real / totalOut as real * 100.0);
        }
        if flows[i].anomaly {
          anomalies := anomalies + [flows[i]];
        }
      }
      assert flows[..|flows|] == flows;
    }

    /** The first of the flows with the largest total rate. */
    method Best(flows: seq<ProxyFlow>) returns (best: ProxyFlow)
      requires flows != []
      ensures best in flows && forall f :: f in flows ==> f.rateIn + f.rateOut <= best.rateIn + best.rateOut
    {
      best := flows[0];
      for i := 1 to |flows|
        invariant best in flows
        invariant forall j :: 0 <= j < i ==> flows[j].rateIn + flows[j].rateOut <= best.rateIn + best.rateOut
      {
        if flows[i].rateIn + flows[i].rateOut > best.rateIn + best.rateOut {
          best := flows[i];
        }
      }
    }

    /** The filed flows, in map order. */
    method FlowList() returns (flows: seq<ProxyFlow>)
      requires Valid() && lastSample != map[]
      ensures |flows| == |lastSample| > 0
      ensures forall f :: f in flows <==> f in lastSample.Values
      ensures forall i, j :: 0 <= i < j < |flows| ==> flows[i] != flows[j]
    {
      var names := RangeOver(lastSample.Keys);
      flows := [];
      for i := 0 to |names|
        invariant |flows| == i && forall j :: 0 <= j < i ==> names[j] in lastSample && flows[j] == lastSample[names[j]]
      {
        assert names[i] in lastSample.Keys;
        flows := flows + [lastSample[names[i]]];
      }
      EnumerationSize(names, lastSample.Keys);
      assert |lastSample| == |lastSample.Keys|;
      forall f | f in lastSample.Values
        ensures f in flows
      {
        var name :| name in lastSample && lastSample[name] == f;
        assert name in names;
        var j :| 0 <= j < |names| && names[j] == name;
        assert flows[j] == f;
      }
    }

    method Sums(flows: seq<ProxyFlow>)
      returns (totalIn: int, totalOut: int, rateInSum: real, rateOutSum: real, online: int)
      ensures totalIn == TotalIn(Values(flows)) && totalOut == TotalOut(Values(flows))
      ensures rateInSum == RateInSum(Values(flows)) && rateOutSum == RateOutSum(Values(flows))
        && online == BusyCount(Values(flows))
    {
      totalIn, totalOut, rateInSum, rateOutSum, online := 0, 0, 0.0, 0.0, 0;
      ghost var values := Values(flows);
      for i := 0 to |flows|
        invariant totalIn == TotalIn(values[..i]) && totalOut == TotalOut(values[..i])
        invariant rateInSum == RateInSum(values[..i]) && rateOutSum == RateOutSum(values[..i])
          && online == BusyCount(values[..i])
      {
        assert values[..i+1][..i] == values[..i];
        totalIn, totalOut := totalIn + flows[i].inBytes, totalOut + flows[i].outBytes;
        rateInSum, rateOutSum := rateInSum + flows[i].rateIn, rateOutSum + flows[i].rateOut;
        if flows[i].rateIn + flows[i].rateOut > 0.0 || flows[i].inBytes > 0 {
          online := online + 1;
        }
      }
      assert values[..|flows|] == values;
    }

    /** The share report; null when nothing was sampled yet. Percentages are written into the flows. */
    method Latest() returns (snap: Option<Snapshot>)
      requires Valid()
      modifies lastSample.Values
      ensures Valid()
      ensures snap.None? <==> lastSample == map[]
      ensures snap.Some? ==>
        var s := snap.value;
        && (forall f :: f in s.flows <==> f in lastSample.Values) && |s.flows| == |lastSample|
        && s.totalIn == TotalIn(Values(s.flows)) && s.totalOut == TotalOut(Values(s.flows))
        && s.rateInSum == Round1(RateInSum(Values(s.flows))) && s.rateOutSum == Round1(RateOutSum(Values(s.flows)))
        && s.online == BusyCount(Values(s.flows))
        && (forall f :: f in s.flows ==> f.Value() == Shared(old(f.Value()), s.totalIn, s.totalOut))
        && s.top in s.flows && (forall f :: f in s.flows ==> f.rateIn + f.rateOut <= s.top.rateIn + s.top.rateOut)
        && (forall f :: f in s.anomalies <==> f in s.flows && f.anomaly)
    {
      if lastSample == map[] {
        return None;
      }
      var flows := FlowList();
      var totalIn, totalOut, rateInSum, rateOutSum, online := Sums(flows);
      ghost var was := Values(flows);
      var anomalies := ShareOut(flows, totalIn, totalOut);
      var best := Best(flows);
      SharingKeepsTotals(was, Values(flows), totalIn, totalOut);
      snap := Some(Snapshot(totalIn, totalOut, Round1(rateInSum), Round1(rateOutSum), flows, best, anomalies, online));
    }
  }

  /** A new flow is unflagged, has no shares yet, and never a negative rate. */
  lemma {:induction false} SampledFlows(prev: Totals, proxies: seq<Proxy>)
    ensures forall f :: f in Sample(prev, proxies).flows ==>
      !f.anomaly && f.pctIn == f.pctOut == 0.0 && f.rateIn >= 0.0 && f.rateOut >= 0.0
    decreases proxies
  {
    if proxies == [] {
    } else {
      SampledFlows(prev, proxies[..|proxies|-1]);
    }
  }
}
