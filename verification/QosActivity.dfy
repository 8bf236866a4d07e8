/**
  Which machines count as active: a rate above the threshold makes a machine active, and it stays
  so for a hysteresis window. The incremental bookkeeping is shown equal to a definition that looks
  at the whole history.
 */
module QosActivity {

  /** One machine as sampled from the dashboard; rates in bytes per second. */
  datatype MachineSample = MachineSample(name: string, port: int, online: bool, rateIn: real, rateOut: real,
                                         active: bool)

  datatype Activity = Activity(active: set<string>, lastActive: map<string, int>)

  const IDLE := Activity({}, map[])

  predicate Over(m: MachineSample, threshold: real) {
    m.rateIn + m.rateOut > threshold
  }

  /** The effect of one sample on the bookkeeping. */
  function Mark(a: Activity, m: MachineSample, threshold: real, window: int, now: int): Activity {
    if !m.online then a
    else if Over(m, threshold) then Activity(a.active + {m.name}, a.lastActive[m.name := now])
    else if m.name in a.lastActive && now - a.lastActive[m.name] <= window then a.(active := a.active + {m.name})
    else a.(active := a.active - {m.name})
  }

  function MarkAll(a: Activity, samples: seq<MachineSample>, threshold: real, window: int, now: int): Activity
    decreases samples
  {
    if samples == [] then a
    else Mark(MarkAll(a, samples[..|samples|-1], threshold, window, now), samples[|samples|-1], threshold, window, now)
  }

  /** The names whose last sample says online. */
  function OnlineNames(samples: seq<MachineSample>): set<string>
    decreases samples
  {
    if samples == [] then {}
    else
      var m := samples[|samples|-1];
      var names := OnlineNames(samples[..|samples|-1]);
      if m.online then names + {m.name} else names - {m.name}
  }

  function KeepOnline(a: Activity, online: set<string>): Activity {
    Activity(a.active * online, map n | n in a.lastActive && n in online :: a.lastActive[n])
  }

  function UpdateActive(a: Activity, samples: seq<MachineSample>, threshold: real, window: int, now: int): Activity {
    KeepOnline(MarkAll(a, samples, threshold, window, now), OnlineNames(samples))
  }

  function Flag(samples: seq<MachineSample>, active: set<string>): seq<MachineSample> {
    seq(|samples|, i requires 0 <= i < |samples| => samples[i].(active := samples[i].name in active))
  }

  // ---- Runs ----

  /** A control round that reached the activity update, or a cleanup. */
  datatype Event =
    | Round(samples: seq<MachineSample>, threshold: real, window: int, now: int)
    | Reset

  function Step(a: Activity, e: Event): Activity {
    match e
    case Round(samples, threshold, window, now) => UpdateActive(a, samples, threshold, window, now)
    case Reset => IDLE
  }

  function Run(events: seq<Event>): Activity
    decreases events
  {
    if events == [] then IDLE else Step(Run(events[..|events|-1]), events[|events|-1])
  }

  ghost predicate UniqueNames(samples: seq<MachineSample>) {
    forall i, j :: 0 <= i < j < |samples| ==> samples[i].name != samples[j].name
  }

  ghost predicate WellFormed(events: seq<Event>) {
    && (forall i :: 0 <= i < |events| && events[i].Round? ==> UniqueNames(events[i].samples))
    && (forall i, j :: 0 <= i <= j < |events| && events[i].Round? && events[j].Round? ==>
      events[i].now <= events[j].now)
  }

  ghost predicate OnlineIn(e: Event, name: string) {
    e.Round? && exists m :: m in e.samples && m.name == name && m.online
  }

  ghost predicate OverIn(e: Event, name: string) {
    e.Round? && exists m :: m in e.samples && m.name == name && m.online && m.rateIn + m.rateOut > e.threshold
  }

  /** The machine was over the threshold in round `j` and online from there through round `k`. */
  ghost predicate SeenSince(events: seq<Event>, name: string, j: int, k: int)
    requires 0 <= j <= k < |events|
  {
    OverIn(events[j], name) && forall i :: j <= i <= k ==> OnlineIn(events[i], name)
  }

  /** Active after round `k`, told from the history alone. */
  ghost predicate ActiveByHistory(events: seq<Event>, name: string, k: int)
    requires 0 <= k < |events|
  {
    exists j :: 0 <= j <= k && SeenSince(events, name, j, k)
                && (j == k || events[k].now - events[j].now <= events[k].window)
  }

  // ---- One update, one machine ----

  /** In a list of unique names at most one sample speaks about a machine. */
  lemma {:induction false} MarkAllAbsent(a: Activity, samples: seq<MachineSample>, threshold: real, window: int,
                                         now: int, name: string)
    requires forall m :: m in samples && m.online ==> m.name != name
    ensures var b := MarkAll(a, samples, threshold, window, now);
      && (name in b.active <==> name in a.active)
      && (name in b.lastActive <==> name in a.lastActive)
      && (name in a.lastActive ==> b.lastActive[name] == a.lastActive[name])
    ensures name !in OnlineNames(samples)
    decreases samples
  {
    if samples == [] {
    } else {
      MarkAllAbsent(a, samples[..|samples|-1], threshold, window, now, name);
    }
  }

  lemma {:induction false} MarkAllPresent(a: Activity, samples: seq<MachineSample>, threshold: real, window: int,
                                          now: int, m: MachineSample)
    requires UniqueNames(samples)
    requires m in samples && m.online
    ensures var b := MarkAll(a, samples, threshold, window, now);
      var c := Mark(a, m, threshold, window, now);
      && (m.name in b.active <==> m.name in c.active)
      && (m.name in b.lastActive <==> m.name in c.lastActive)
      && (m.name in c.lastActive ==> b.lastActive[m.name] == c.lastActive[m.name])
    ensures m.name in OnlineNames(samples)
    decreases samples
  {
    var front, last := samples[..|samples|-1], samples[|samples|-1];
    if last == m {
      MarkAllAbsent(a, front, threshold, window, now, m.name);
    } else {
      MarkAllPresent(a, front, threshold, window, now, m);
    }
  }

  /** One round as it looks to one machine. */
  lemma UpdateSeen(a: Activity, e: Event, name: string)
    requires e.Round? && UniqueNames(e.samples)
    ensures var b := Step(a, e);
      && (name in b.active ==> OnlineIn(e, name))
      && (name in b.lastActive ==> OnlineIn(e, name))
      && (OverIn(e, name) ==> name in b.active && name in b.lastActive && b.lastActive[name] == e.now)
      && (OnlineIn(e, name) && !OverIn(e, name) ==>
            && (name in b.lastActive <==> name in a.lastActive)
            && (name in a.lastActive ==> b.lastActive[name] == a.lastActive[name])
            && (name in b.active <==> name in a.lastActive && e.now - a.lastActive[name] <= e.window))
  {
    if OnlineIn(e, name) {
      var m :| m in e.samples && m.name == name && m.online;
      MarkAllPresent(a, e.samples, e.threshold, e.window, e.now, m);
      assert OverIn(e, name) <==> Over(m, e.threshold) by {
        if OverIn(e, name) {
          var o :| o in e.samples && o.name == name && o.online && Over(o, e.threshold);
          assert o == m;
        }
      }
    } else {
      MarkAllAbsent(a, e.samples, e.threshold, e.window, e.now, name);
    }
  }

  // ---- The incremental state against the history ----

  ghost predicate SeenToEnd(events: seq<Event>, name: string, j: int) {
    0 <= j < |events| && SeenSince(events, name, j, |events| - 1)
  }

  /** `j` is the last round up to the end in which the machine was over, with no gap since. */
  ghost predicate LatestSeen(events: seq<Event>, name: string, j: int) {
    && SeenToEnd(events, name, j)
    && forall i :: j < i < |events| ==> !OverIn(events[i], name)
  }

  /** A further round, online but not over, keeps the latest round in which the machine was over. */
  lemma SeenOneMore(events: seq<Event>, name: string)
    requires events != []
    requires OnlineIn(events[|events|-1], name) && !OverIn(events[|events|-1], name)
    ensures var front := events[..|events|-1];
      && (forall j :: SeenToEnd(events, name, j) <==> SeenToEnd(front, name, j))
      && (forall j :: LatestSeen(events, name, j) <==> LatestSeen(front, name, j))
  {
    var front, k := events[..|events|-1], |events| - 1;
    forall j
      ensures SeenToEnd(events, name, j) <==> SeenToEnd(front, name, j)
    {
      if SeenToEnd(front, name, j) {
        assert forall i :: j <= i < k ==> OnlineIn(front[i], name);
      }
      if SeenToEnd(events, name, j) {
        assert j != k;
      }
    }
    forall j
      ensures LatestSeen(events, name, j) <==> LatestSeen(front, name, j)
    {
      if LatestSeen(events, name, j) {
        forall i | j < i < |front|
          ensures !OverIn(front[i], name)
        {
          assert !OverIn(events[i], name);
        }
      }
      if LatestSeen(front, name, j) {
        forall i | j < i < |events|
          ensures !OverIn(events[i], name)
        {
          if i < k {
            assert !OverIn(front[i], name);
          }
        }
      }
    }
  }

  /** `lastActive` holds the time of exactly that round. */
  lemma {:induction false} LastActiveIsLatest(events: seq<Event>, name: string)
    requires WellFormed(events)
    ensures name in Run(events).lastActive ==>
              exists j :: LatestSeen(events, name, j) && events[j].now == Run(events).lastActive[name]
    ensures (exists j :: SeenToEnd(events, name, j)) ==> name in Run(events).lastActive
    decreases events
  {
    if events == [] {
    } else {
      var front, e := events[..|events|-1], events[|events|-1];
      LastActiveIsLatest(front, name);
      var k := |events| - 1;
      if e.Round? {
        UpdateSeen(Run(front), e, name);
        if OverIn(e, name) {
          assert OnlineIn(e, name);
          assert LatestSeen(events, name, k);
        } else if OnlineIn(e, name) {
          SeenOneMore(events, name);
        } else {
          forall j
            ensures !SeenToEnd(events, name, j)
          {
            assert !OnlineIn(events[k], name);
          }
        }
      } else {
        forall j
          ensures !SeenToEnd(events, name, j)
        {
          assert !OnlineIn(events[k], name);
        }
      }
    }
  }

  /** Every active machine has a recorded time, and every recorded machine is online. */
  lemma LastActiveIsHistory(events: seq<Event>, name: string)
    requires WellFormed(events) && events != []
    ensures name in Run(events).active ==> name in Run(events).lastActive
    ensures name in Run(events).lastActive ==> OnlineIn(events[|events|-1], name)
  {
    if events[|events|-1].Round? {
      UpdateSeen(Run(events[..|events|-1]), events[|events|-1], name);
    }
  }

  /** The incremental `active` set is the history's. */
  lemma ActiveIsHistory(events: seq<Event>, name: string)
    requires WellFormed(events) && events != []
    ensures name in Run(events).active <==> ActiveByHistory(events, name, |events| - 1)
  {
    var front, k := events[..|events|-1], |events| - 1;
    var e := events[k];
    if e.Round? {
      UpdateSeen(Run(front), e, name);
      LastActiveIsLatest(events, name);
      if name in Run(events).active {
        LastActiveIsHistory(events, name);
        var j :| LatestSeen(events, name, j) && events[j].now == Run(events).lastActive[name];
        assert SeenSince(events, name, j, k);
      }
      if ActiveByHistory(events, name, k) {
        var j :| 0 <= j <= k && SeenSince(events, name, j, k) && (j == k || e.now - events[j].now <= e.window);
        assert OnlineIn(events[k], name) && SeenToEnd(events, name, j);
        var l :| LatestSeen(events, name, l) && events[l].now == Run(events).lastActive[name];
        assert j <= l;
      }
    }
  }

  /** After any run: active machines are recorded, recorded machines are online. */
  lemma ActiveWithinOnline(events: seq<Event>)
    requires WellFormed(events) && events != []
    ensures Run(events).active <= Run(events).lastActive.Keys
    ensures forall name :: name in Run(events).lastActive ==> OnlineIn(events[|events|-1], name)
  {
    forall name {
      LastActiveIsHistory(events, name);
    }
  }

  // ---- Anti-flapping ----

  /** Round `k` turns the machine from active to inactive. */
  ghost predicate Drops(events: seq<Event>, name: string, k: int) {
    && 1 <= k < |events|
    && name in Run(events[..k]).active
    && name !in Run(events[..k+1]).active
  }

  /** Rounds `lo`..`hi` all happened with window `h` and the machine online. */
  ghost predicate Steady(events: seq<Event>, name: string, lo: int, hi: int, h: int) {
    && 0 <= lo <= hi < |events|
    && forall i :: lo <= i <= hi ==> events[i].Round? && events[i].window == h && OnlineIn(events[i], name)
  }

  lemma ActiveAfter(events: seq<Event>, name: string, k: int)
    requires WellFormed(events) && 0 <= k < |events|
    ensures name in Run(events[..k+1]).active <==> ActiveByHistory(events, name, k)
  {
    var cut := events[..k+1];
    ActiveIsHistory(cut, name);
    if ActiveByHistory(events, name, k) {
      var j :| 0 <= j <= k && SeenSince(events, name, j, k)
               && (j == k || events[k].now - events[j].now <= events[k].window);
      assert SeenSince(cut, name, j, k);
    }
    if ActiveByHistory(cut, name, k) {
      var j :| 0 <= j <= k && SeenSince(cut, name, j, k)
               && (j == k || cut[k].now - cut[j].now <= cut[k].window);
      assert forall i :: j <= i <= k ==> OnlineIn(cut[i], name);
      assert SeenSince(events, name, j, k);
    }
  }

  /** A round that keeps the machine active at `k` kept it active before, under the same window. */
  lemma EarlierToo(events: seq<Event>, name: string, j: int, k1: int, k: int)
    requires WellFormed(events) && 0 <= j <= k1 <= k < |events|
    requires SeenSince(events, name, j, k)
    requires j == k || events[k].now - events[j].now <= events[k].window
    requires OnlineIn(events[k1], name) && events[k1].window == events[k].window
    ensures ActiveByHistory(events, name, k1)
  {
    assert OnlineIn(events[k], name);
    assert SeenSince(events, name, j, k1);
    assert events[k1].now <= events[k].now;
  }

  /** The round that keeps an active machine active. */
  lemma KeptBy(events: seq<Event>, name: string, k: int) returns (j: int)
    requires 0 <= k < |events| && ActiveByHistory(events, name, k)
    ensures 0 <= j <= k && SeenSince(events, name, j, k)
    ensures j == k || events[k].now - events[j].now <= events[k].window
  {
    j :| 0 <= j <= k && SeenSince(events, name, j, k)
      && (j == k || events[k].now - events[j].now <= events[k].window);
  }

  /** Where one more round online drops it, that round has gone beyond the window. */
  lemma BeyondWindow(events: seq<Event>, name: string, j: int, k: int)
    requires 0 <= j < k < |events| && SeenSince(events, name, j, k - 1) && OnlineIn(events[k], name)
    requires !ActiveByHistory(events, name, k)
    ensures events[k].now - events[j].now > events[k].window
  {
    assert SeenSince(events, name, j, k);
  }

  lemma DropIsHistory(events: seq<Event>, name: string, k: int)
    requires WellFormed(events) && Drops(events, name, k)
    ensures ActiveByHistory(events, name, k - 1) && !ActiveByHistory(events, name, k)
  {
    ActiveAfter(events, name, k - 1);
    ActiveAfter(events, name, k);
  }

  /** Two drops of a machine that stays online are more than the window apart. */
  lemma DropsApart(events: seq<Event>, name: string, k1: int, k2: int, h: int)
    requires WellFormed(events)
    requires k1 < k2 && Drops(events, name, k1) && Drops(events, name, k2)
    requires Steady(events, name, k1, k2, h)
    ensures events[k2].now - events[k1].now > h
  {
    DropIsHistory(events, name, k1);
    DropIsHistory(events, name, k2);
    var j := KeptBy(events, name, k2 - 1);
    if j <= k1 {
      EarlierToo(events, name, j, k1, k2 - 1);
    }
    BeyondWindow(events, name, j, k2);
  }

  lemma AtLeastOnce(d: int, h: int)
    requires d >= 1 && h > 0
    ensures d * h >= h
  {
  }

  lemma Quotient(n: int, h: int, t: int)
    requires h > 0 && n * h <= t
    ensures n <= t / h
  {
    var d := n - t / h;
    assert d * h == n * h - t / h * h < h;
    if d >= 1 {
      AtLeastOnce(d, h);
    }
  }

  lemma {:induction false} DropsSpan(events: seq<Event>, name: string, drops: seq<int>, h: int)
    requires WellFormed(events) && h > 0 && drops != []
    requires forall i :: 0 <= i < |drops| ==> Drops(events, name, drops[i])
    requires forall i, j :: 0 <= i < j < |drops| ==> drops[i] < drops[j]
    requires Steady(events, name, drops[0], drops[|drops|-1], h)
    ensures events[drops[|drops|-1]].now - events[drops[0]].now >= (|drops| - 1) * h
    decreases drops
  {
    if |drops| == 1 {
    } else {
      var front := drops[..|drops|-1];
      DropsSpan(events, name, front, h);
      DropsApart(events, name, drops[|drops|-2], drops[|drops|-1], h);
      assert (|drops| - 1) * h == (|front| - 1) * h + h;
    }
  }

  /** So within a duration `t` a machine drops at most `t / h + 1` times. */
  lemma {:induction false} FewDrops(events: seq<Event>, name: string, drops: seq<int>, h: int, t: int)
    requires WellFormed(events) && h > 0 && drops != []
    requires forall i :: 0 <= i < |drops| ==> Drops(events, name, drops[i])
    requires forall i, j :: 0 <= i < j < |drops| ==> drops[i] < drops[j]
    requires Steady(events, name, drops[0], drops[|drops|-1], h)
    requires events[drops[|drops|-1]].now - events[drops[0]].now <= t
    ensures |drops| <= t / h + 1
  {
    DropsSpan(events, name, drops, h);
    var n := |drops| - 1;
    assert n * h <= t;
    Quotient(n, h, t);
  }
}
