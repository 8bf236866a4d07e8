/**
  Where a round's samples come from: the dashboard's list of proxies with their cumulative counters,
  and the counters of the list before.
 */
module QosSampling {
  import opened Basics
  import opened TrafficControl
  import opened QosActivity
  import opened QosModel
  import opened QosRuns

  const POLL_SECONDS := 15.0

  /** One proxy on the dashboard; `remotePort` is not positive for those without a port of their own. */
  datatype Listing = Listing(name: string, remotePort: int, online: bool, inBytes: int, outBytes: int)

  type Totals = map<string, (int, int)>

  /** Rates since the counters before; none at first sight, while offline, or when a counter went back. */
  function Measure(prev: Totals, l: Listing): (real, real) {
    if l.name !in prev || !l.online then (0.0, 0.0)
    else
      var rateIn := (l.inBytes - prev[l.name].0) as real / POLL_SECONDS;
      var rateOut := (l.outBytes - prev[l.name].1) as real / POLL_SECONDS;
      if rateIn < 0.0 || rateOut < 0.0 then (0.0, 0.0) else (rateIn, rateOut)
  }

  function SampleOf(prev: Totals, l: Listing): MachineSample {
    var (rateIn, rateOut) := Measure(prev, l);
    MachineSample(l.name, l.remotePort, l.online, rateIn, rateOut, false)
  }

  /** The rates by the counters: bytes per second over the 15 seconds since the list before, in each
      direction, unless one of the two counters went back. */
  lemma SampleByCounters(prev: Totals, l: Listing)
    ensures var m := SampleOf(prev, l);
      && m.name == l.name && m.port == l.remotePort && m.online == l.online && !m.active
      && (if l.name in prev && l.online && l.inBytes >= prev[l.name].0 && l.outBytes >= prev[l.name].1
          then m.rateIn * 15.0 == (l.inBytes - prev[l.name].0) as real
               && m.rateOut * 15.0 == (l.outBytes - prev[l.name].1) as real
          else m.rateIn == m.rateOut == 0.0)
  {
  }

  datatype Sampling = Sampling(prev: Totals, samples: seq<MachineSample>)

  /** One pass over the dashboard's list. */
  function Sample(prev: Totals, listings: seq<Listing>): Sampling
    decreases listings
  {
    if listings == [] then Sampling(prev, [])
    else
      var s, l := Sample(prev, listings[..|listings|-1]), listings[|listings|-1];
      if l.remotePort <= 0 then s
      else Sampling(s.prev[l.name := (l.inBytes, l.outBytes)], s.samples + [SampleOf(s.prev, l)])
  }

  ghost predicate ListedOnce(listings: seq<Listing>) {
    forall i, j :: 0 <= i < j < |listings| ==> listings[i].name != listings[j].name
  }

  lemma OneMoreName(samples: seq<MachineSample>, m: MachineSample)
    requires UniqueNames(samples) && forall x :: x in samples ==> x.name != m.name
    ensures UniqueNames(samples + [m])
  {
    assert forall i :: 0 <= i < |samples| ==> samples[i] in samples;
  }

  /** The samples are those of the proxies with a port, measured against the counters before. */
  ghost predicate SamplesSay(samples: seq<MachineSample>, prev: Totals, listings: seq<Listing>) {
    && (forall m :: m in samples ==> exists l :: l in listings && l.remotePort > 0 && m == SampleOf(prev, l))
    && (forall l :: l in listings && l.remotePort > 0 ==> SampleOf(prev, l) in samples)
    && UniqueNames(samples)
  }

  /** Their counters are the new ones; the others keep theirs. */
  ghost predicate CountersSay(now: Totals, prev: Totals, listings: seq<Listing>) {
    && (forall name :: name in now <==>
      name in prev || exists l :: l in listings && l.remotePort > 0 && l.name == name)
    && (forall l :: l in listings && l.remotePort > 0 ==> now[l.name] == (l.inBytes, l.outBytes))
    && (forall name :: name in prev && (forall l :: l in listings && l.remotePort > 0 ==> l.name != name) ==>
      now[name] == prev[name])
  }

  ghost predicate Measures(s: Sampling, prev: Totals, listings: seq<Listing>) {
    SamplesSay(s.samples, prev, listings) && CountersSay(s.prev, prev, listings)
  }

  lemma SampleStep(s: Sampling, prev: Totals, front: seq<Listing>, last: Listing)
    requires ListedOnce(front + [last]) && Measures(s, prev, front)
    ensures SampleOf(s.prev, last) == SampleOf(prev, last)
    ensures forall l :: l in front ==> l.name != last.name
  {
    forall l | l in front
      ensures l.name != last.name
    {
      var i :| 0 <= i < |front| && front[i] == l;
      assert (front + [last])[i] == l && (front + [last])[|front|] == last;
    }
  }

  lemma NoPort(s: Sampling, prev: Totals, front: seq<Listing>, last: Listing)
    requires Measures(s, prev, front) && last.remotePort <= 0
    ensures Measures(s, prev, front + [last])
  {
    assert forall l :: l in front + [last] <==> l in front || l == last;
  }

  lemma OneMoreSample(samples: seq<MachineSample>, prev: Totals, front: seq<Listing>, last: Listing)
    requires SamplesSay(samples, prev, front) && last.remotePort > 0
    requires forall l :: l in front ==> l.name != last.name
    ensures SamplesSay(samples + [SampleOf(prev, last)], prev, front + [last])
  {
    forall m | m in samples
      ensures m.name != last.name
    {
      var l :| l in front && l.remotePort > 0 && m == SampleOf(prev, l);
    }
    OneMoreName(samples, SampleOf(prev, last));
    assert forall l :: l in front + [last] <==> l in front || l == last;
    assert SampleOf(prev, last) in samples + [SampleOf(prev, last)];
  }

  lemma OneMoreCounter(now: Totals, prev: Totals, front: seq<Listing>, last: Listing)
    requires CountersSay(now, prev, front) && last.remotePort > 0
    requires forall l :: l in front ==> l.name != last.name
    ensures CountersSay(now[last.name := (last.inBytes, last.outBytes)], prev, front + [last])
  {
    assert forall l :: l in front + [last] <==> l in front || l == last;
  }

  /** With every name listed once, a pass over the list measures every proxy against the counters before. */
  lemma {:induction false} SampleShape(prev: Totals, listings: seq<Listing>)
    requires ListedOnce(listings)
    ensures Measures(Sample(prev, listings), prev, listings)
    decreases listings
  {
    if listings == [] {
    } else {
      var front, last := listings[..|listings|-1], listings[|listings|-1];
      SampleShape(prev, front);
      assert listings == front + [last];
      if last.remotePort > 0 {
        SampleStep(Sample(prev, front), prev, front, last);
        OneMoreSample(Sample(prev, front).samples, prev, front, last);
        OneMoreCounter(Sample(prev, front).prev, prev, front, last);
      } else {
        NoPort(Sample(prev, front), prev, front, last);
      }
    }
  }

  lemma MeasuredAlone(prev: Totals, front: seq<Listing>, last: Listing)
    requires ListedOnce(front) && ListedOnce(front + [last])
    ensures SampleOf(Sample(prev, front).prev, last) == SampleOf(prev, last)
  {
    SampleShape(prev, front);
    SampleStep(Sample(prev, front), prev, front, last);
  }

  /** With a port of its own for everyone, the samples are those of the list, one by one. */
  lemma {:induction false} SampleEach(prev: Totals, listings: seq<Listing>)
    requires ListedOnce(listings) && forall i :: 0 <= i < |listings| ==> listings[i].remotePort > 0
    ensures var samples := Sample(prev, listings).samples;
      |samples| == |listings| && forall i :: 0 <= i < |listings| ==> samples[i] == SampleOf(prev, listings[i])
    decreases listings
  {
    if listings == [] {
    } else {
      var front, last := listings[..|listings|-1], listings[|listings|-1];
      SampleEach(prev, front);
      assert listings == front + [last];
      MeasuredAlone(prev, front, last);
    }
  }

  // ---- Runs that are fed by a dashboard ----

  /** What reaches the control loop: the configuration, the detected interface, the dashboard's list if it
      can be read, and the clock; or a stop. */
  datatype Poll = Poll(cfg: QosConfig, detected: string, dashboard: Option<seq<Listing>>, now: int) | Halt

  function RoundOf(prev: Totals, p: Poll): QosModel.Round
    requires p.Poll?
  {
    QosModel.Round.Round(p.cfg, p.detected,
                         if p.dashboard.Some? then Some(Sample(prev, p.dashboard.value).samples) else None, p.now)
  }

  /** The counters after a poll: the list is only read once there is an interface and the mode is not off. */
  function TotalsAfter(s: State, prev: Totals, p: Poll): Totals {
    if p.Poll? && Shapes(s, RoundOf(prev, p)) then Sample(prev, p.dashboard.value).prev else prev
  }

  ghost function TotalsOf(k: Kernel, turns: seq<Turn>, polls: seq<Poll>): Totals
    requires ValidRun(k, turns) && |polls| == |turns|
    decreases turns
  {
    if turns == [] then map[]
    else
      var front, before := turns[..|turns|-1], polls[..|polls|-1];
      TotalsAfter(After(k, front), TotalsOf(k, front, before), polls[|polls|-1])
  }

  ghost predicate TurnOf(t: Turn, prev: Totals, p: Poll) {
    if p.Halt? then t.Stop? else t.Tick? && t.round == RoundOf(prev, p)
  }

  /** The run is the one that these polls give, from a service that has just been started. */
  ghost predicate Received(k: Kernel, turns: seq<Turn>, polls: seq<Poll>)
    requires ValidRun(k, turns)
    decreases turns
  {
    |polls| == |turns| &&
    (turns == [] ||
     (Received(k, turns[..|turns|-1], polls[..|polls|-1])
      && TurnOf(turns[|turns|-1], TotalsOf(k, turns[..|turns|-1], polls[..|polls|-1]), polls[|polls|-1])))
  }

  // ---- Nothing is active at first sight ----

  ghost predicate Sane(p: Poll) {
    p.Poll? ==> p.cfg.activeKBps >= 0.0 && (p.dashboard.Some? ==> ListedOnce(p.dashboard.value))
  }

  lemma OverWasListed(prev: Totals, listings: seq<Listing>, threshold: real, window: int, now: int, name: string)
    requires ListedOnce(listings) && threshold >= 0.0
    requires OverIn(Event.Round(Sample(prev, listings).samples, threshold, window, now), name)
    ensures name in prev
  {
    SampleShape(prev, listings);
    var samples := Sample(prev, listings).samples;
    var m :| m in samples && m.name == name && m.online && Over(m, threshold);
    var l :| l in listings && l.remotePort > 0 && m == SampleOf(prev, l);
  }

  /** Who is recorded after a round was listed on an earlier dashboard, or recorded before. */
  lemma RecordedWasListed(a: Activity, prev: Totals, listings: seq<Listing>, threshold: real, window: int, now: int)
    requires ListedOnce(listings) && threshold >= 0.0
    ensures UpdateActive(a, Sample(prev, listings).samples, threshold, window, now).lastActive.Keys
            <= a.lastActive.Keys + prev.Keys
    ensures var b := UpdateActive(a, Sample(prev, listings).samples, threshold, window, now);
      b.active <= b.lastActive.Keys + a.lastActive.Keys
  {
    var e := Event.Round(Sample(prev, listings).samples, threshold, window, now);
    SampleShape(prev, listings);
    forall name: string
      ensures name in Step(a, e).lastActive ==> name in a.lastActive || name in prev
      ensures name in Step(a, e).active ==> name in Step(a, e).lastActive || name in a.lastActive
    {
      UpdateSeen(a, e, name);
      if OverIn(e, name) {
        OverWasListed(prev, listings, threshold, window, now, name);
      }
    }
  }
}
