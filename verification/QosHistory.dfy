/** The controller's active set, told from the history of a whole run. */
module QosHistory {
  import opened TrafficControl
  import opened QosActivity
  import opened QosModel
  import opened QosRuns
  import opened QosAgreement
  import S = QosSampling

  /** What a turn means for activity: a shaping round is an update, anything else a reset. */
  function EventOf(s: State, t: Turn): Event {
    if t.Tick? && Shapes(s, t.round)
    then Event.Round(t.round.samples.value, t.round.cfg.activeKBps * 1024.0, t.round.cfg.hysteresisSec * SECOND,
      t.round.now)
    else Reset
  }

  ghost function EventsOf(k: Kernel, turns: seq<Turn>): seq<Event>
    requires ValidRun(k, turns)
    decreases turns
  {
    if turns == [] then []
    else EventsOf(k, turns[..|turns|-1]) + [EventOf(After(k, turns[..|turns|-1]), turns[|turns|-1])]
  }

  lemma CarryActivity(s: State, dev: string, p: Plan, o: RoundOrders)
    requires IdsFine(s) && PlanOk(s, p) && ValidPlanOrders(s, p, o)
    ensures CarryOut(s, dev, p, o).activity == p.activity
  {
    var _, _ := CarryShape(s, dev, p, o);
  }

  lemma PlanActivity(s: State, r: Round)
    requires r.samples.Some?
    ensures PlanRound(s, r).activity ==
            UpdateActive(s.activity, r.samples.value, r.cfg.activeKBps * 1024.0, r.cfg.hysteresisSec * SECOND, r.now)
  {
    var _, _ := PlanParts(s, r);
  }

  lemma ActivityOfTurn(s: State, t: Turn)
    requires ValidTurn(s, t) && IdsFine(s)
    ensures Take(s, t).activity == QosActivity.Step(s.activity, EventOf(s, t))
  {
    if t.Tick? && Shapes(s, t.round) {
      PlanIsOk(s, t.round);
      CarryActivity(s, Iface(s, t.round), PlanRound(s, t.round), t.orders);
      PlanActivity(s, t.round);
    } else {
      TakeCleans(s, t);
    }
  }

  lemma RunAppend(events: seq<Event>, e: Event)
    ensures QosActivity.Run(events + [e]) == QosActivity.Step(QosActivity.Run(events), e)
  {
    assert (events + [e])[..|events|] == events;
  }

  lemma {:induction false} ActivityOfRun(k: Kernel, turns: seq<Turn>)
    requires ValidRun(k, turns)
    ensures |EventsOf(k, turns)| == |turns|
    ensures After(k, turns).activity == QosActivity.Run(EventsOf(k, turns))
    decreases turns
  {
    if turns == [] {
    } else {
      var front, t := turns[..|turns|-1], turns[|turns|-1];
      ActivityOfRun(k, front);
      NoCommandEverReports(k, front);
      ActivityOfTurn(After(k, front), t);
      RunAppend(EventsOf(k, front), EventOf(After(k, front), t));
    }
  }

  /** After any run of the controller, off periods, failures and stops included, a machine is active
      exactly if some round since the last of those saw it over the threshold, online ever since, and
      not longer ago than the last round's window. */
  lemma ControllerActiveIsHistory(k: Kernel, turns: seq<Turn>, name: string)
    requires ValidRun(k, turns) && turns != [] && WellFormed(EventsOf(k, turns))
    ensures |EventsOf(k, turns)| == |turns|
    ensures name in After(k, turns).activity.active <==> ActiveByHistory(EventsOf(k, turns), name, |turns| - 1)
  {
    ActivityOfRun(k, turns);
    ActiveIsHistory(EventsOf(k, turns), name);
  }

  // ---- Anti-flapping, for whole runs ----

  /** The clock never goes back, and no dashboard lists a name twice. */
  ghost predicate Clocked(turns: seq<Turn>) {
    && (forall i :: 0 <= i < |turns| && turns[i].Tick? && turns[i].round.samples.Some? ==>
      UniqueNames(turns[i].round.samples.value))
    && (forall i, j :: 0 <= i <= j < |turns| && turns[i].Tick? && turns[j].Tick? ==>
      turns[i].round.now <= turns[j].round.now)
  }

  lemma EventLast(k: Kernel, turns: seq<Turn>)
    requires ValidRun(k, turns) && turns != []
    ensures var front, t := turns[..|turns|-1], turns[|turns|-1];
      && |EventsOf(k, turns)| == |turns| && EventsOf(k, turns)[..|front|] == EventsOf(k, front)
      && EventsOf(k, turns)[|front|] == EventOf(After(k, front), t)
  {
    ActivityOfRun(k, turns[..|turns|-1]);
  }

  lemma EventEarlier(k: Kernel, turns: seq<Turn>, front: seq<Turn>, i: int)
    requires ValidRun(k, turns) && turns != [] && front == turns[..|turns|-1] && 0 <= i < |front|
    ensures |EventsOf(k, turns)| == |turns| && |EventsOf(k, front)| == |front|
    ensures EventsOf(k, turns)[i] == EventsOf(k, front)[i] && EventsOf(k, turns)[..i] == EventsOf(k, front)[..i]
  {
    EventLast(k, turns);
    assert EventsOf(k, turns)[..|front|][..i] == EventsOf(k, turns)[..i];
  }

  lemma {:induction false} EventAt(k: Kernel, turns: seq<Turn>, i: int)
    requires ValidRun(k, turns) && 0 <= i < |turns|
    ensures ValidRun(k, turns[..i]) && |EventsOf(k, turns)| == |turns|
    ensures EventsOf(k, turns)[i] == EventOf(After(k, turns[..i]), turns[i])
    ensures EventsOf(k, turns)[..i] == EventsOf(k, turns[..i])
    decreases turns
  {
    var front := turns[..|turns|-1];
    if i == |front| {
      EventLast(k, turns);
    } else {
      EventAt(k, front, i);
      assert front[..i] == turns[..i] && front[i] == turns[i];
      EventEarlier(k, turns, front, i);
    }
  }

  predicate FromTurn(e: Event, t: Turn) {
    e.Round? ==>
      t.Tick? && t.round.samples.Some? && e.samples == t.round.samples.value && e.now == t.round.now
  }

  lemma ClockedWellFormed(k: Kernel, turns: seq<Turn>)
    requires ValidRun(k, turns) && Clocked(turns)
    ensures WellFormed(EventsOf(k, turns))
  {
    ActivityOfRun(k, turns);
    forall i | 0 <= i < |turns|
      ensures FromTurn(EventsOf(k, turns)[i], turns[i])
    {
      EventAt(k, turns, i);
    }
  }

  /** Turn `i` turns the machine from active to inactive. */
  ghost predicate TurnDrops(k: Kernel, turns: seq<Turn>, name: string, i: int) {
    && 1 <= i < |turns| && ValidRun(k, turns[..i]) && ValidRun(k, turns[..i+1])
    && name in After(k, turns[..i]).activity.active && name !in After(k, turns[..i+1]).activity.active
  }

  /** Turn `i` is a shaping round with window `h` whose dashboard lists the machine as online. */
  ghost predicate SteadyTurn(k: Kernel, turns: seq<Turn>, name: string, i: int, h: int) {
    && 0 <= i < |turns| && ValidRun(k, turns[..i])
    && turns[i].Tick? && Shapes(After(k, turns[..i]), turns[i].round)
    && turns[i].round.cfg.hysteresisSec * SECOND == h
    && exists m :: m in turns[i].round.samples.value && m.name == name && m.online
  }

  lemma ActiveAt(k: Kernel, turns: seq<Turn>, i: int)
    requires ValidRun(k, turns) && 0 <= i <= |turns|
    ensures ValidRun(k, turns[..i]) && |EventsOf(k, turns)| == |turns|
    ensures After(k, turns[..i]).activity == QosActivity.Run(EventsOf(k, turns)[..i])
  {
    if i < |turns| {
      EventAt(k, turns, i);
    } else {
      ActivityOfRun(k, turns);
      assert turns[..i] == turns && EventsOf(k, turns)[..i] == EventsOf(k, turns);
    }
    ActivityOfRun(k, turns[..i]);
  }

  lemma DropsAreEvents(k: Kernel, turns: seq<Turn>, name: string, i: int)
    requires ValidRun(k, turns) && TurnDrops(k, turns, name, i)
    ensures Drops(EventsOf(k, turns), name, i)
  {
    ActiveAt(k, turns, i);
    ActiveAt(k, turns, i + 1);
  }

  lemma SteadyAreEvents(k: Kernel, turns: seq<Turn>, name: string, lo: int, hi: int, h: int)
    requires ValidRun(k, turns) && 0 <= lo <= hi < |turns|
    requires forall i :: lo <= i <= hi ==> SteadyTurn(k, turns, name, i, h)
    ensures Steady(EventsOf(k, turns), name, lo, hi, h)
    ensures forall i :: lo <= i <= hi ==> turns[i].Tick? && EventsOf(k, turns)[i].now == turns[i].round.now
  {
    ActivityOfRun(k, turns);
    forall i | lo <= i <= hi
      ensures var e := EventsOf(k, turns)[i];
        e.Round? && e.window == h && OnlineIn(e, name) && turns[i].Tick? && e.now == turns[i].round.now
    {
      EventAt(k, turns, i);
      assert SteadyTurn(k, turns, name, i, h);
    }
  }

  /** On any run of the controller: two turns that drop a machine which stays online in shaping rounds of
      one window are more than that window apart. */
  lemma ControllerDropsApart(k: Kernel, turns: seq<Turn>, name: string, i: int, j: int, h: int)
    requires ValidRun(k, turns) && Clocked(turns)
    requires i < j && TurnDrops(k, turns, name, i) && TurnDrops(k, turns, name, j)
    requires forall x :: i <= x <= j ==> SteadyTurn(k, turns, name, x, h)
    ensures turns[i].Tick? && turns[j].Tick? && turns[j].round.now - turns[i].round.now > h
  {
    ClockedWellFormed(k, turns);
    DropsAreEvents(k, turns, name, i);
    DropsAreEvents(k, turns, name, j);
    SteadyAreEvents(k, turns, name, i, j, h);
    DropsApart(EventsOf(k, turns), name, i, j, h);
  }

  predicate Lasts(turns: seq<Turn>, i: int, j: int, t: int) {
    0 <= i <= j < |turns| && turns[i].Tick? && turns[j].Tick? && turns[j].round.now - turns[i].round.now <= t
  }

  /** So within a duration `t` it is dropped at most `t / h + 1` times. */
  lemma ControllerFewDrops(k: Kernel, turns: seq<Turn>, name: string, drops: seq<int>, h: int, t: int)
    requires ValidRun(k, turns) && Clocked(turns) && h > 0 && drops != []
    requires forall i :: 0 <= i < |drops| ==> TurnDrops(k, turns, name, drops[i])
    requires forall i, j :: 0 <= i < j < |drops| ==> drops[i] < drops[j]
    requires forall x :: drops[0] <= x <= drops[|drops|-1] ==> SteadyTurn(k, turns, name, x, h)
    requires Lasts(turns, drops[0], drops[|drops|-1], t)
    ensures |drops| <= t / h + 1
  {
    ClockedWellFormed(k, turns);
    forall i | 0 <= i < |drops|
      ensures Drops(EventsOf(k, turns), name, drops[i])
    {
      DropsAreEvents(k, turns, name, drops[i]);
    }
    SteadyAreEvents(k, turns, name, drops[0], drops[|drops|-1], h);
    FewDrops(EventsOf(k, turns), name, drops, h, t);
  }

  // ---- Nothing is active at first sight ----

  lemma TotalsGrow(s: State, prev: S.Totals, p: S.Poll)
    requires S.Sane(p)
    ensures prev.Keys <= S.TotalsAfter(s, prev, p).Keys
  {
    if p.Poll? && p.dashboard.Some? {
      S.SampleShape(prev, p.dashboard.value);
    }
  }

  lemma EventWasListed(s: State, prev: S.Totals, t: Turn, p: S.Poll)
    requires S.TurnOf(t, prev, p) && S.Sane(p)
    ensures var b := QosActivity.Step(s.activity, EventOf(s, t));
      && b.lastActive.Keys <= s.activity.lastActive.Keys + prev.Keys
      && b.active <= s.activity.lastActive.Keys + prev.Keys
  {
    if t.Tick? && Shapes(s, t.round) {
      S.RecordedWasListed(s.activity, prev, p.dashboard.value, t.round.cfg.activeKBps * 1024.0,
                          t.round.cfg.hysteresisSec * SECOND, t.round.now);
    }
  }

  lemma ListedStep(s: State, prev: S.Totals, t: Turn, p: S.Poll)
    requires ValidTurn(s, t) && IdsFine(s) && S.TurnOf(t, prev, p) && S.Sane(p)
    ensures Take(s, t).activity.lastActive.Keys <= s.activity.lastActive.Keys + prev.Keys
    ensures Take(s, t).activity.active <= s.activity.lastActive.Keys + prev.Keys
  {
    ActivityOfTurn(s, t);
    EventWasListed(s, prev, t, p);
  }

  /** On every run that a dashboard feeds, a machine is active in a round only if an earlier list, read in an
      earlier round, had it. */
  lemma {:induction false} ActiveWasListed(k: Kernel, turns: seq<Turn>, polls: seq<S.Poll>)
    requires ValidRun(k, turns) && S.Received(k, turns, polls) && forall i :: 0 <= i < |polls| ==> S.Sane(polls[i])
    ensures if turns == [] then After(k, turns).activity == IDLE
            else
              var before := S.TotalsOf(k, turns[..|turns|-1], polls[..|polls|-1]).Keys;
              After(k, turns).activity.lastActive.Keys <= before && After(k, turns).activity.active <= before
    decreases turns
  {
    if turns == [] {
    } else {
      var front, before := turns[..|turns|-1], polls[..|polls|-1];
      ActiveWasListed(k, front, before);
      NoCommandEverReports(k, front);
      ListedStep(After(k, front), S.TotalsOf(k, front, before), turns[|turns|-1], polls[|polls|-1]);
      if front != [] {
        TotalsGrow(After(k, front[..|front|-1]), S.TotalsOf(k, front[..|front|-1], before[..|before|-1]),
                   before[|before|-1]);
      }
    }
  }

  /** So the first round after a start finds nothing active. */
  lemma FirstRoundIdle(k: Kernel, turns: seq<Turn>, polls: seq<S.Poll>)
    requires ValidRun(k, turns) && S.Received(k, turns, polls) && |turns| == 1 && S.Sane(polls[0])
    ensures After(k, turns).activity.active == {}
  {
    ActiveWasListed(k, turns, polls);
    assert S.TotalsOf(k, turns[..0], polls[..0]) == map[];
  }
}
