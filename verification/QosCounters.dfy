/** The controller's active set, told from the counters on the dashboard alone. */
module QosCounters {
  import opened TrafficControl
  import opened QosActivity
  import opened QosModel
  import opened QosRuns
  import opened QosSampling
  import opened QosHistory

  // ---- One list ----

  /** The list has the proxy, with a port and online. */
  ghost predicate ListedOnline(p: Poll, name: string) {
    p.Poll? && p.dashboard.Some? &&
    exists l :: l in p.dashboard.value && l.name == name && l.remotePort > 0 && l.online
  }

  /** What it has moved since the list before, both ways together, is over 15 seconds of the threshold, and
      neither counter went back. */
  ghost predicate MovedEnough(prev: Totals, l: Listing, activeKBps: real) {
    && l.name in prev && l.inBytes >= prev[l.name].0 && l.outBytes >= prev[l.name].1
    && (l.inBytes - prev[l.name].0 + l.outBytes - prev[l.name].1) as real > 15.0 * 1024.0 * activeKBps
  }

  ghost predicate ListedBusy(prev: Totals, p: Poll, name: string) {
    p.Poll? && p.dashboard.Some? &&
    exists l :: l in p.dashboard.value && l.name == name && l.remotePort > 0 && l.online
                && MovedEnough(prev, l, p.cfg.activeKBps)
  }

  lemma BusyByCounters(prev: Totals, l: Listing, activeKBps: real)
    requires activeKBps >= 0.0 && l.online
    ensures SampleOf(prev, l).rateIn + SampleOf(prev, l).rateOut > activeKBps * 1024.0 <==>
      MovedEnough(prev, l, activeKBps)
  {
    SampleByCounters(prev, l);
  }

  /** The event of a poll that is read. */
  function EventOfPoll(prev: Totals, p: Poll): Event
    requires p.Poll? && p.dashboard.Some?
  {
    Event.Round(Sample(prev, p.dashboard.value).samples, p.cfg.activeKBps * 1024.0, p.cfg.hysteresisSec * SECOND, p.now)
  }

  lemma OnlineByList(prev: Totals, p: Poll, name: string)
    requires p.Poll? && p.dashboard.Some? && ListedOnce(p.dashboard.value)
    ensures OnlineIn(EventOfPoll(prev, p), name) <==> ListedOnline(p, name)
  {
    SampleShape(prev, p.dashboard.value);
    if OnlineIn(EventOfPoll(prev, p), name) {
      var m :| m in EventOfPoll(prev, p).samples && m.name == name && m.online;
      var l :| l in p.dashboard.value && l.remotePort > 0 && m == SampleOf(prev, l);
    }
    if ListedOnline(p, name) {
      var l :| l in p.dashboard.value && l.name == name && l.remotePort > 0 && l.online;
      assert SampleOf(prev, l) in EventOfPoll(prev, p).samples;
    }
  }

  lemma OverByList(prev: Totals, p: Poll, name: string)
    requires p.Poll? && p.dashboard.Some? && ListedOnce(p.dashboard.value) && p.cfg.activeKBps >= 0.0
    ensures OverIn(EventOfPoll(prev, p), name) <==> ListedBusy(prev, p, name)
  {
    SampleShape(prev, p.dashboard.value);
    if OverIn(EventOfPoll(prev, p), name) {
      var m :| m in EventOfPoll(prev, p).samples && m.name == name && m.online
               && m.rateIn + m.rateOut > p.cfg.activeKBps * 1024.0;
      var l :| l in p.dashboard.value && l.remotePort > 0 && m == SampleOf(prev, l);
      BusyByCounters(prev, l, p.cfg.activeKBps);
    }
    if ListedBusy(prev, p, name) {
      var l :| l in p.dashboard.value && l.name == name && l.remotePort > 0 && l.online
               && MovedEnough(prev, l, p.cfg.activeKBps);
      BusyByCounters(prev, l, p.cfg.activeKBps);
      assert SampleOf(prev, l) in EventOfPoll(prev, p).samples;
    }
  }

  // ---- Whole runs ----

  lemma ReceivedLast(k: Kernel, turns: seq<Turn>, polls: seq<Poll>)
    requires ValidRun(k, turns) && Received(k, turns, polls) && turns != []
    ensures |polls| == |turns|
    ensures var n := |turns| - 1;
      && ValidRun(k, turns[..n]) && Received(k, turns[..n], polls[..n])
      && TurnOf(turns[n], TotalsOf(k, turns[..n], polls[..n]), polls[n])
  {
  }

  ghost predicate ReceivedThen(k: Kernel, before: seq<Turn>, t: Turn, polls: seq<Poll>, p: Poll) {
    ValidRun(k, before) && Received(k, before, polls) && |polls| == |before| && TurnOf(t, TotalsOf(k, before, polls), p)
  }

  lemma {:induction false} ReceivedUpTo(k: Kernel, turns: seq<Turn>, polls: seq<Poll>, i: int)
    requires ValidRun(k, turns) && Received(k, turns, polls) && 0 <= i < |turns|
    ensures |polls| == |turns| && ReceivedThen(k, turns[..i], turns[i], polls[..i], polls[i])
    decreases turns
  {
    ReceivedLast(k, turns, polls);
    var front, before := turns[..|turns|-1], polls[..|polls|-1];
    if i < |front| {
      ReceivedUpTo(k, front, before, i);
      assert front[..i] == turns[..i] && before[..i] == polls[..i];
    }
  }

  lemma ReceivedAt(k: Kernel, turns: seq<Turn>, polls: seq<Poll>, i: int)
    requires ValidRun(k, turns) && Received(k, turns, polls) && 0 <= i < |turns|
    ensures ValidRun(k, turns[..i]) && |polls| == |turns|
    ensures Received(k, turns[..i], polls[..i]) && TurnOf(turns[i], TotalsOf(k, turns[..i], polls[..i]), polls[i])
  {
    ReceivedUpTo(k, turns, polls, i);
  }

  /** Turn `i` is a round that shapes. */
  ghost predicate ShapesAt(k: Kernel, turns: seq<Turn>, i: int) {
    && 0 <= i < |turns| && ValidRun(k, turns[..i])
    && turns[i].Tick? && Shapes(After(k, turns[..i]), turns[i].round)
  }

  /** Turn `i` shapes, and its list has the proxy online. */
  ghost predicate OnlineAt(k: Kernel, turns: seq<Turn>, polls: seq<Poll>, name: string, i: int) {
    ShapesAt(k, turns, i) && |polls| == |turns| && ListedOnline(polls[i], name)
  }

  /** Turn `i` shapes, and its list shows the proxy to have moved enough since the list read before it. */
  ghost predicate BusyAt(k: Kernel, turns: seq<Turn>, polls: seq<Poll>, name: string, i: int) {
    ShapesAt(k, turns, i) && |polls| == |turns| && ListedBusy(TotalsOf(k, turns[..i], polls[..i]), polls[i], name)
  }

  lemma PollEvent(s: State, t: Turn, prev: Totals, p: Poll)
    requires t.Tick? && Shapes(s, t.round) && TurnOf(t, prev, p)
    ensures p.Poll? && p.dashboard.Some? && EventOf(s, t) == EventOfPoll(prev, p)
  {
  }

  lemma EventByCounters(k: Kernel, turns: seq<Turn>, polls: seq<Poll>, name: string, i: int)
    requires ValidRun(k, turns) && Received(k, turns, polls) && 0 <= i < |turns|
    requires |polls| == |turns| && Sane(polls[i])
    ensures |EventsOf(k, turns)| == |turns|
    ensures EventsOf(k, turns)[i].Round? <==> ShapesAt(k, turns, i)
    ensures OnlineIn(EventsOf(k, turns)[i], name) <==> OnlineAt(k, turns, polls, name, i)
    ensures OverIn(EventsOf(k, turns)[i], name) <==> BusyAt(k, turns, polls, name, i)
    ensures ShapesAt(k, turns, i) ==>
      && polls[i].Poll? && EventsOf(k, turns)[i].now == polls[i].now
      && EventsOf(k, turns)[i].window == polls[i].cfg.hysteresisSec * 1000000000
  {
    EventAt(k, turns, i);
    ReceivedAt(k, turns, polls, i);
    if ShapesAt(k, turns, i) {
      var prev := TotalsOf(k, turns[..i], polls[..i]);
      PollEvent(After(k, turns[..i]), turns[i], prev, polls[i]);
      OnlineByList(prev, polls[i], name);
      OverByList(prev, polls[i], name);
    }
  }

  /** Busy in round `j`, in every list since, and not longer ago than the last round's window. */
  ghost predicate KeptSince(k: Kernel, turns: seq<Turn>, polls: seq<Poll>, name: string, j: int) {
    && 0 <= j < |turns| == |polls| && BusyAt(k, turns, polls, name, j)
    && (forall i :: j <= i < |turns| ==> OnlineAt(k, turns, polls, name, i))
    && polls[j].Poll? && polls[|turns|-1].Poll?
    && (j == |turns| - 1 || polls[|turns|-1].now - polls[j].now <= polls[|turns|-1].cfg.hysteresisSec * 1000000000)
  }

  /** The events tell of each round what its poll does. */
  ghost predicate EventsTell(events: seq<Event>, k: Kernel, turns: seq<Turn>, polls: seq<Poll>, name: string) {
    && |events| == |turns| == |polls|
    && (forall i :: 0 <= i < |turns| ==> (OnlineIn(events[i], name) <==> OnlineAt(k, turns, polls, name, i)))
    && (forall i :: 0 <= i < |turns| ==> (OverIn(events[i], name) <==> BusyAt(k, turns, polls, name, i)))
  }

  lemma RunTells(k: Kernel, turns: seq<Turn>, polls: seq<Poll>, name: string)
    requires ValidRun(k, turns) && Received(k, turns, polls) && |turns| == |polls|
    requires forall i :: 0 <= i < |polls| ==> Sane(polls[i])
    ensures EventsTell(EventsOf(k, turns), k, turns, polls, name)
  {
    ActivityOfRun(k, turns);
    forall i | 0 <= i < |turns|
      ensures OnlineIn(EventsOf(k, turns)[i], name) <==> OnlineAt(k, turns, polls, name, i)
      ensures OverIn(EventsOf(k, turns)[i], name) <==> BusyAt(k, turns, polls, name, i)
    {
      EventByCounters(k, turns, polls, name, i);
    }
  }

  lemma SeenIsOnline(events: seq<Event>, k: Kernel, turns: seq<Turn>, polls: seq<Poll>, name: string, j: int)
    requires EventsTell(events, k, turns, polls, name) && 0 <= j < |turns|
    ensures SeenSince(events, name, j, |turns| - 1) <==>
      BusyAt(k, turns, polls, name, j) && forall i :: j <= i < |turns| ==> OnlineAt(k, turns, polls, name, i)
  {
  }

  predicate TimeTells(e: Event, p: Poll) {
    e.Round? && p.Poll? && e.now == p.now && e.window == p.cfg.hysteresisSec * 1000000000
  }

  lemma OnlineTimes(k: Kernel, turns: seq<Turn>, polls: seq<Poll>, name: string, i: int)
    requires ValidRun(k, turns) && Received(k, turns, polls) && 0 <= i < |turns| == |polls| && Sane(polls[i])
    ensures |EventsOf(k, turns)| == |turns|
    ensures OnlineAt(k, turns, polls, name, i) ==> TimeTells(EventsOf(k, turns)[i], polls[i])
  {
    EventByCounters(k, turns, polls, name, i);
  }

  lemma KeptByTimes(events: seq<Event>, k: Kernel, turns: seq<Turn>, polls: seq<Poll>, name: string, j: int, n: int)
    requires EventsTell(events, k, turns, polls, name) && 0 <= j < |turns| && n == |turns| - 1
    requires OnlineAt(k, turns, polls, name, j) ==> TimeTells(events[j], polls[j])
    requires OnlineAt(k, turns, polls, name, n) ==> TimeTells(events[n], polls[n])
    ensures KeptSince(k, turns, polls, name, j) <==>
      SeenSince(events, name, j, n) && (j == n || events[n].now - events[j].now <= events[n].window)
  {
    SeenIsOnline(events, k, turns, polls, name, j);
  }

  lemma KeptIsSeen(k: Kernel, turns: seq<Turn>, polls: seq<Poll>, name: string, j: int)
    requires ValidRun(k, turns) && Received(k, turns, polls) && 0 <= j < |turns| == |polls|
    requires forall i :: 0 <= i < |polls| ==> Sane(polls[i])
    ensures |EventsOf(k, turns)| == |turns|
    ensures var events, n := EventsOf(k, turns), |turns| - 1;
      KeptSince(k, turns, polls, name, j) <==>
        SeenSince(events, name, j, n) && (j == n || events[n].now - events[j].now <= events[n].window)
  {
    RunTells(k, turns, polls, name);
    OnlineTimes(k, turns, polls, name, j);
    OnlineTimes(k, turns, polls, name, |turns| - 1);
    KeptByTimes(EventsOf(k, turns), k, turns, polls, name, j, |turns| - 1);
  }

  lemma SaneIsWellFormed(k: Kernel, turns: seq<Turn>, polls: seq<Poll>)
    requires ValidRun(k, turns) && Received(k, turns, polls)
    requires forall i :: 0 <= i < |polls| ==> Sane(polls[i])
    requires forall i, j :: 0 <= i <= j < |polls| && polls[i].Poll? && polls[j].Poll? ==> polls[i].now <= polls[j].now
    ensures WellFormed(EventsOf(k, turns))
  {
    ActivityOfRun(k, turns);
    forall i | 0 <= i < |turns| && EventsOf(k, turns)[i].Round?
      ensures polls[i].Poll? && EventsOf(k, turns)[i].now == polls[i].now && UniqueNames(EventsOf(k, turns)[i].samples)
    {
      EventAt(k, turns, i);
      ReceivedAt(k, turns, polls, i);
      var prev := TotalsOf(k, turns[..i], polls[..i]);
      PollEvent(After(k, turns[..i]), turns[i], prev, polls[i]);
      SampleShape(prev, polls[i].dashboard.value);
    }
  }

  /** On every run that a dashboard feeds, a machine is active after the last round exactly if some round
      found its counters to have moved, in and out together, by more than 15 seconds of the threshold since
      the list before, every list since has it online, and that was not longer ago than the last round's
      hysteresis. */
  lemma ActiveByCounters(k: Kernel, turns: seq<Turn>, polls: seq<Poll>, name: string)
    requires ValidRun(k, turns) && Received(k, turns, polls) && turns != []
    requires forall i :: 0 <= i < |polls| ==> Sane(polls[i])
    requires forall i, j :: 0 <= i <= j < |polls| && polls[i].Poll? && polls[j].Poll? ==> polls[i].now <= polls[j].now
    ensures name in After(k, turns).activity.active <==> exists j :: KeptSince(k, turns, polls, name, j)
  {
    SaneIsWellFormed(k, turns, polls);
    ControllerActiveIsHistory(k, turns, name);
    forall j | 0 <= j < |turns|
      ensures KeptSince(k, turns, polls, name, j) <==>
        var events, n := EventsOf(k, turns), |turns| - 1;
        SeenSince(events, name, j, n) && (j == n || events[n].now - events[j].now <= events[n].window)
    {
      KeptIsSeen(k, turns, polls, name, j);
    }
  }

  lemma BusyIsListed(prev: Totals, p: Poll, name: string)
    requires ListedBusy(prev, p, name)
    ensures ListedOnline(p, name)
  {
  }

  lemma BusyIsKept(k: Kernel, turns: seq<Turn>, polls: seq<Poll>, name: string, n: int)
    requires n == |turns| - 1 && BusyAt(k, turns, polls, name, n)
    ensures KeptSince(k, turns, polls, name, n)
  {
    BusyIsListed(TotalsOf(k, turns[..n], polls[..n]), polls[n], name);
  }

  /** So whoever moved enough in the last round is active, whichever way. */
  lemma BusyIsActive(k: Kernel, turns: seq<Turn>, polls: seq<Poll>, name: string)
    requires ValidRun(k, turns) && Received(k, turns, polls) && turns != []
    requires forall i :: 0 <= i < |polls| ==> Sane(polls[i])
    requires forall i, j :: 0 <= i <= j < |polls| && polls[i].Poll? && polls[j].Poll? ==> polls[i].now <= polls[j].now
    requires BusyAt(k, turns, polls, name, |turns| - 1)
    ensures name in After(k, turns).activity.active
  {
    ActiveByCounters(k, turns, polls, name);
    BusyIsKept(k, turns, polls, name, |turns| - 1);
  }

  /** And where no other was online in the last round, it is the only one. */
  lemma OnlyBusyIsActive(k: Kernel, turns: seq<Turn>, polls: seq<Poll>, last: Poll, name: string)
    requires ValidRun(k, turns) && Received(k, turns, polls) && turns != []
    requires forall i :: 0 <= i < |polls| ==> Sane(polls[i])
    requires forall i, j :: 0 <= i <= j < |polls| && polls[i].Poll? && polls[j].Poll? ==> polls[i].now <= polls[j].now
    requires BusyAt(k, turns, polls, name, |turns| - 1)
    requires last == polls[|turns|-1] && forall other :: ListedOnline(last, other) ==> other == name
    ensures After(k, turns).activity.active == {name}
  {
    BusyIsActive(k, turns, polls, name);
    forall other | other in After(k, turns).activity.active
      ensures other == name
    {
      ActiveByCounters(k, turns, polls, other);
      var j :| KeptSince(k, turns, polls, other, j);
      assert OnlineAt(k, turns, polls, other, |turns| - 1);
    }
  }
}
