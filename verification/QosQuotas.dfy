/** Agreement in manual mode: who is applied is who has a quota and is online, at that quota. */
module QosQuotas {
  import opened Basics
  import opened TrafficControl
  import opened QosCompiler
  import opened QosAllocator
  import opened QosActivity
  import opened QosModel
  import opened QosRuns
  import opened QosAgreement

  // ---- What the quotas ask for ----

  /** The quota that an item gives in a direction, in Mbit/s. */
  function Given(it: ManualItem, dir: Direction): real {
    match dir
    case Out => it.outMbps
    case In => it.inMbps
  }

  predicate QuotaOn(it: ManualItem, name: string, dir: Direction) {
    it.name == name && Given(it, dir) > 0.0
  }

  /** The quota of a machine in bit/s: that of the last item which gives it a positive one. */
  function QuotaOf(items: seq<ManualItem>, name: string, dir: Direction): Option<real>
    decreases items
  {
    if items == [] then None
    else if QuotaOn(items[|items|-1], name, dir) then Some(Given(items[|items|-1], dir) * 1000000.0)
    else QuotaOf(items[..|items|-1], name, dir)
  }

  ghost predicate LastQuota(items: seq<ManualItem>, i: int, name: string, dir: Direction) {
    && 0 <= i < |items| && QuotaOn(items[i], name, dir)
    && forall j :: i < j < |items| ==> !QuotaOn(items[j], name, dir)
  }

  /** It is that of any item after which no other gives one. */
  lemma {:induction false} QuotaOfLast(items: seq<ManualItem>, i: int, name: string, dir: Direction)
    requires LastQuota(items, i, name, dir)
    ensures QuotaOf(items, name, dir) == Some(Given(items[i], dir) * 1000000.0)
    decreases items
  {
    if i == |items| - 1 {
    } else {
      QuotaOfLast(items[..|items|-1], i, name, dir);
    }
  }

  /** There is one exactly if some item gives one. */
  lemma {:induction false} QuotaOfExact(items: seq<ManualItem>, name: string, dir: Direction)
    ensures QuotaOf(items, name, dir).Some? <==> exists i :: 0 <= i < |items| && QuotaOn(items[i], name, dir)
    decreases items
  {
    if items == [] {
    } else {
      var front := items[..|items|-1];
      QuotaOfExact(front, name, dir);
      assert forall i :: 0 <= i < |front| ==> front[i] == items[i];
    }
  }

  ghost predicate Online(samples: seq<MachineSample>, name: string) {
    exists m :: m in samples && m.online && m.name == name
  }

  /** Exactly the online machines with a quota, each at its quota. */
  ghost predicate FollowsQuotas(samples: seq<MachineSample>, cfg: QosConfig, dir: Direction, cs: Classes) {
    && (forall n :: n in cs <==> Online(samples, n) && QuotaOf(cfg.manual, n, dir).Some?)
    && (forall n :: n in cs ==> QuotaOf(cfg.manual, n, dir) == Some(cs[n].rate))
  }

  // ---- What a manual round wants ----

  lemma {:induction false} OnlinePortsExact(samples: seq<MachineSample>)
    ensures forall n :: n in OnlinePorts(samples) <==> Online(samples, n)
    decreases samples
  {
    if samples == [] {
    } else {
      var front, last := samples[..|samples|-1], samples[|samples|-1];
      OnlinePortsExact(front);
      assert forall m :: m in samples <==> m in front || m == last;
      forall n
        ensures n in OnlinePorts(samples) <==> Online(samples, n)
      {
        if Online(front, n) {
          var m :| m in front && m.online && m.name == n;
          assert m in samples;
        }
      }
    }
  }

  /** The classes of the entries that the items give, for online machines. */
  ghost predicate WantsQuotas(cs: Classes, items: seq<ManualItem>, ports: map<string, int>, dir: Direction) {
    && (forall n :: n in cs <==> n in ports && QuotaOf(items, n, dir).Some?)
    && (forall n :: n in cs ==> QuotaOf(items, n, dir) == Some(cs[n].rate))
  }

  lemma OneMoreItem(cs: Classes, items: seq<ManualItem>, it: ManualItem, ports: map<string, int>, dir: Direction,
                    c: ClassState)
    requires WantsQuotas(cs, items, ports, dir) && c.rate == Given(it, dir) * 1000000.0
    ensures WantsQuotas(if it.name in ports && Given(it, dir) > 0.0 then cs[it.name := c] else cs,
      items + [it], ports, dir)
  {
    assert (items + [it])[..|items|] == items;
  }

  /** The entry of an online item with a quota. */
  function EntryOf(it: ManualItem, ports: map<string, int>, dir: Direction): Entry
    requires it.name in ports
  {
    Entry(it.name, Given(it, dir) * 1000000.0, ports[it.name])
  }

  lemma OneMoreEntry(items: seq<ManualItem>, it: ManualItem, ports: map<string, int>, dir: Direction)
    ensures var before := ManualEntries(items, ports, dir);
      ManualEntries(items + [it], ports, dir) ==
        if it.name in ports && Given(it, dir) > 0.0 then before + [EntryOf(it, ports, dir)] else before
  {
    assert (items + [it])[..|items|] == items;
  }

  lemma OneMoreClass(entries: seq<Entry>, e: Entry, ids: map<string, int>)
    requires forall x :: x in entries + [e] ==> x.name in ids
    ensures e.name in ids && forall x :: x in entries ==> x.name in ids
    ensures WantOf(entries + [e], ids) == WantOf(entries, ids)[e.name := ClassState(ids[e.name], e.rate, e.port)]
  {
    assert (entries + [e])[..|entries|] == entries && e in entries + [e];
    assert forall x :: x in entries ==> x in entries + [e];
  }

  lemma {:induction false} ManualWant(items: seq<ManualItem>, ports: map<string, int>, dir: Direction,
                                      ids: map<string, int>)
    requires forall e :: e in ManualEntries(items, ports, dir) ==> e.name in ids
    ensures WantsQuotas(WantOf(ManualEntries(items, ports, dir), ids), items, ports, dir)
    decreases items
  {
    if items == [] {
    } else {
      var front, it := items[..|items|-1], items[|items|-1];
      assert items == front + [it];
      var before := ManualEntries(front, ports, dir);
      OneMoreEntry(front, it, ports, dir);
      if it.name in ports && Given(it, dir) > 0.0 {
        var e := EntryOf(it, ports, dir);
        OneMoreClass(before, e, ids);
        ManualWant(front, ports, dir, ids);
        OneMoreItem(WantOf(before, ids), front, it, ports, dir, ClassState(ids[e.name], e.rate, e.port));
      } else {
        ManualWant(front, ports, dir, ids);
        OneMoreItem(WantOf(before, ids), front, it, ports, dir, ClassState(0, Given(it, dir) * 1000000.0, 0));
      }
    }
  }

  lemma ManualDesired(samples: seq<MachineSample>, dir: Direction, cfg: QosConfig, a: Alloc)
    requires cfg.mode == "manual"
    ensures var d := DesiredFor(samples, dir, cfg, a).0;
      WantsQuotas(d.want, cfg.manual, OnlinePorts(samples), dir) && d.rootRate == 100000000000.0
  {
    var entries := Entries(samples, dir, cfg);
    NamesHaveIds(a, entries);
    ManualWant(cfg.manual, OnlinePorts(samples), dir, AssignAll(a, Names(entries)).ids);
  }

  lemma QuotasFollowed(samples: seq<MachineSample>, cfg: QosConfig, dir: Direction, cs: Classes)
    requires WantsQuotas(cs, cfg.manual, OnlinePorts(samples), dir)
    ensures FollowsQuotas(samples, cfg, dir, cs)
  {
    OnlinePortsExact(samples);
  }

  lemma ManualPlan(s: State, r: Round)
    requires r.samples.Some? && r.cfg.mode == "manual"
    ensures var p := PlanRound(s, r);
      && FollowsQuotas(r.samples.value, r.cfg, Out, p.outward.want)
      && FollowsQuotas(r.samples.value, r.cfg, In, p.inward.want)
      && p.outward.rootRate == p.inward.rootRate == 100000000000.0
  {
    var flagged, a1 := PlanParts(s, r);
    FlagKeepsPorts(r.samples.value, PlanRound(s, r).activity.active);
    ManualDesired(flagged, Out, r.cfg, s.alloc);
    ManualDesired(flagged, In, r.cfg, a1);
    QuotasFollowed(r.samples.value, r.cfg, Out, PlanRound(s, r).outward.want);
    QuotasFollowed(r.samples.value, r.cfg, In, PlanRound(s, r).inward.want);
  }

  // ---- Whole runs ----

  /** In direction `dir` the kernel carries what is applied, under a root rate of 100 Gbit/s, and what is
      applied follows the quotas. */
  ghost predicate QuotasAgree(s: State, samples: seq<MachineSample>, cfg: QosConfig, dir: Direction) {
    && FollowsQuotas(samples, cfg, dir, Applied(s, dir))
    && TablesSay(s.kernel, s.iface, dir, 100000000000.0, Applied(s, dir))
  }

  /** The run's last turn is a successful manual round on an interface that exists and is not ifb0. */
  ghost predicate EndsManual(k: Kernel, turns: seq<Turn>)
    requires ValidRun(k, turns)
  {
    && "" !in k && turns != [] && turns[|turns|-1].Tick?
    && var s, r := After(k, turns[..|turns|-1]), turns[|turns|-1].round;
       Shapes(s, r) && r.cfg.mode == "manual" && Iface(s, r) != IFB_DEV && Iface(s, r) in k
  }

  lemma ManualStep(s: State, r: Round, o: RoundOrders, p: Plan, u: State)
    requires Shapes(s, r) && ValidRoundOrders(s, r, o) && IdsFine(s) && r.cfg.mode == "manual"
    requires Iface(s, r) != IFB_DEV && Iface(s, r) in s.kernel
    requires p == PlanRound(s, r) && u == Reconcile(s, r, o)
    ensures QuotasAgree(u, r.samples.value, r.cfg, Out) <==> Sayable(s.appliedOut, p.outward.want)
    ensures QuotasAgree(u, r.samples.value, r.cfg, In) <==> Sayable(s.appliedIn, p.inward.want)
    ensures u.appliedOut == p.outward.want && u.appliedIn == p.inward.want && u.lastErr == None
    ensures FollowsQuotas(r.samples.value, r.cfg, Out, u.appliedOut)
    ensures FollowsQuotas(r.samples.value, r.cfg, In, u.appliedIn)
    ensures WantSampled(r.samples.value, u.appliedOut) && WantSampled(r.samples.value, u.appliedIn)
  {
    PlanIsOk(s, r);
    PlanSampled(s, r);
    ManualPlan(s, r);
    var _, _ := CarryShape(s, Iface(s, r), p, o);
    CarriedTables(s, Iface(s, r), p, o);
  }

  /** After every successful manual round of every run, whatever has collided before, a direction has exactly
      the online machines with a quota applied, at that quota, and agrees with the kernel if and only if
      what the round wanted in it can be said. */
  lemma ManualAgreementExact(k: Kernel, turns: seq<Turn>, dir: Direction)
    requires ValidRun(k, turns) && EndsManual(k, turns)
    ensures var s, t, r := After(k, turns[..|turns|-1]), After(k, turns), turns[|turns|-1].round;
      && FollowsQuotas(r.samples.value, r.cfg, dir, Applied(t, dir))
      && (QuotasAgree(t, r.samples.value, r.cfg, dir) <==> Sayable(Applied(s, dir), Applied(t, dir)))
      && t.lastErr == None && WantSampled(r.samples.value, Applied(t, dir))
  {
    var front, t := turns[..|turns|-1], turns[|turns|-1];
    var s := After(k, front);
    NoCommandEverReports(k, front);
    RulesStayPut(k, front);
    ManualStep(s, t.round, t.orders, PlanRound(s, t.round), After(k, turns));
  }

  /** So after every successful manual round of a run that fits, with one online proxy per port, both
      directions agree with the kernel. */
  lemma ManualRunAgreement(k: Kernel, turns: seq<Turn>)
    requires ValidRun(k, turns) && RunFits(k, turns) && EndsManual(k, turns)
    requires CleanSamples(turns[|turns|-1].round.samples.value)
    ensures var t, r := After(k, turns), turns[|turns|-1].round;
      QuotasAgree(t, r.samples.value, r.cfg, Out) && QuotasAgree(t, r.samples.value, r.cfg, In)
  {
    var s, t := After(k, turns[..|turns|-1]), turns[|turns|-1];
    NoCommandEverReports(k, turns[..|turns|-1]);
    RulesStayPut(k, turns[..|turns|-1]);
    ManualStep(s, t.round, t.orders, PlanRound(s, t.round), After(k, turns));
    FittingTurnSays(k, turns);
  }
}
