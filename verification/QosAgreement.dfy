/**
  When the controller, its allocator and the kernel agree: exact conditions for one round, and
  agreement after every round of every run that meets them.
 */
module QosAgreement {
  import opened Basics
  import opened TrafficControl
  import opened QosCompiler
  import opened QosEffects
  import opened QosAllocator
  import opened QosActivity
  import opened QosShares
  import opened QosModel
  import opened QosRuns

  ghost predicate LinkedIn(cs: Classes, ids: map<string, int>) {
    forall n :: n in cs ==> n in ids && cs[n].id == ids[n]
  }

  /** Every applied machine still holds the id it was applied with. */
  ghost predicate Linked(s: State) {
    LinkedIn(s.appliedOut, s.alloc.ids) && LinkedIn(s.appliedIn, s.alloc.ids)
  }

  // ---- What a shaping round does to the allocator ----

  /** The names whose id carrying out a plan gives back. */
  ghost predicate Freed(s: State, p: Plan, n: string) {
    || (p.outward.enabled && n in s.appliedOut && n !in p.outward.want && n !in s.appliedIn)
    || (p.inward.enabled && n in s.appliedIn && n !in p.inward.want && n !in p.outward.want)
  }

  lemma {:induction false} ReleaseAllConcat(a: Alloc, x: seq<string>, y: seq<string>)
    ensures ReleaseAll(ReleaseAll(a, x), y) == ReleaseAll(a, x + y)
    decreases y
  {
    if y == [] {
      assert x + y == x;
    } else {
      ReleaseAllConcat(a, x, y[..|y|-1]);
      assert (x + y)[..|x+y|-1] == x + y[..|y|-1];
    }
  }

  lemma SteerAlloc(s: State, dir: Direction, d: Desired, o: Orders) returns (names: seq<string>)
    requires d.enabled ==> ValidOrders(o, Applied(s, dir), d.want)
    ensures SteerDirection(s, dir, d, o).alloc == ReleaseAll(s.alloc, names)
    ensures forall n :: n in names <==> d.enabled && n in Applied(s, dir) && n !in d.want && n !in Other(s, dir)
  {
    if d.enabled {
      names := UnusedNames(o.remove, d.want, Other(s, dir));
      UnusedShape(o.remove, d.want, Other(s, dir));
    } else {
      names := [];
    }
  }

  lemma FreedNames(s: State, p: Plan, first: seq<string>, second: seq<string>)
    requires forall n :: n in first <==>
        p.outward.enabled && n in s.appliedOut && n !in p.outward.want && n !in s.appliedIn
    requires forall n :: n in second <==>
        p.inward.enabled && n in s.appliedIn && n !in p.inward.want && n !in p.outward.want
    ensures forall n :: n in first + second <==> Freed(s, p, n)
  {
  }

  /** After a shaping round the applied sets are the wanted ones, and exactly the freed names have
      lost their ids. */
  lemma CarryAlloc(s: State, dev: string, p: Plan, o: RoundOrders) returns (names: seq<string>)
    requires IdsFine(s) && PlanOk(s, p) && ValidPlanOrders(s, p, o)
    ensures forall n :: n in names <==> Freed(s, p, n)
    ensures CarryOut(s, dev, p, o).alloc == ReleaseAll(p.alloc, names)
  {
    var t, u := CarryShape(s, dev, p, o);
    var first := SteerAlloc(t, Out, p.outward, o.outward);
    var second := SteerAlloc(u, In, p.inward, o.inward);
    ReleaseAllConcat(p.alloc, first, second);
    names := first + second;
    FreedNames(s, p, first, second);
  }

  /** A machine moves from outbound to inbound shaping within one round. */
  ghost predicate CrossRelease(s: State, p: Plan) {
    p.outward.enabled &&
    exists n :: n in s.appliedOut && n !in p.outward.want && n in p.inward.want && n !in s.appliedIn
  }

  /** A map whose ids are live keeps them through a release exactly if none of its names is released. */
  lemma LinkKept(want: Classes, ids: map<string, int>, gone: set<string>)
    requires LinkedIn(want, ids)
    ensures LinkedIn(want, ids - gone) <==> want.Keys !! gone
  {
    if want.Keys !! gone {
      forall n | n in want
        ensures n in ids - gone && want[n].id == (ids - gone)[n]
      {
      }
    } else {
      var n :| n in want.Keys && n in gone;
      assert n !in ids - gone;
    }
  }

  lemma WantsLost(s: State, p: Plan, names: seq<string>)
    requires PlanOk(s, p) && (forall n :: n in names <==> Freed(s, p, n))
    ensures p.outward.want.Keys !! Held(p.alloc, names)
    ensures p.inward.want.Keys !! Held(p.alloc, names) <==> !CrossRelease(s, p)
  {
    forall n | n in p.outward.want
      ensures n !in names
    {
      assert !Freed(s, p, n);
    }
    if CrossRelease(s, p) {
      var n :| n in s.appliedOut && n !in p.outward.want && n in p.inward.want && n !in s.appliedIn;
      assert Freed(s, p, n);
      assert n in p.inward.want.Keys && n in Held(p.alloc, names);
    } else {
      forall n | n in p.inward.want
        ensures n !in names
      {
        assert !Freed(s, p, n);
      }
    }
  }

  lemma LinkedAfterRelease(s: State, p: Plan, names: seq<string>, v: State)
    requires PlanOk(s, p) && (forall n :: n in names <==> Freed(s, p, n))
    requires v.appliedOut == p.outward.want && v.appliedIn == p.inward.want && v.alloc == ReleaseAll(p.alloc, names)
    ensures Linked(v) <==> !CrossRelease(s, p)
  {
    ReleaseAllShape(p.alloc, names);
    var gone := Held(p.alloc, names);
    LinkKept(p.outward.want, p.alloc.ids, gone);
    LinkKept(p.inward.want, p.alloc.ids, gone);
    WantsLost(s, p, names);
  }

  /** Applied classes keep their ids through a shaping round exactly when no machine makes that move. */
  lemma LinkedExact(s: State, dev: string, p: Plan, o: RoundOrders)
    requires IdsFine(s) && PlanOk(s, p) && ValidPlanOrders(s, p, o)
    ensures Linked(CarryOut(s, dev, p, o)) <==> !CrossRelease(s, p)
  {
    var _, _ := CarryShape(s, dev, p, o);
    var names := CarryAlloc(s, dev, p, o);
    LinkedAfterRelease(s, p, names, CarryOut(s, dev, p, o));
  }

  /** The flagged samples and the allocator between the two directions, from which a plan is made. */
  lemma PlanParts(s: State, r: Round) returns (flagged: seq<MachineSample>, a1: Alloc)
    requires r.samples.Some?
    ensures var p := PlanRound(s, r);
      && p.activity == UpdateActive(s.activity, r.samples.value, r.cfg.activeKBps * 1024.0,
        r.cfg.hysteresisSec * SECOND, r.now)
      && flagged == Flag(r.samples.value, p.activity.active)
      && p.outward == DesiredFor(flagged, Out, r.cfg, s.alloc).0
      && a1 == DesiredFor(flagged, Out, r.cfg, s.alloc).1
      && p.inward == DesiredFor(flagged, In, r.cfg, a1).0
  {
    var act := UpdateActive(s.activity, r.samples.value, r.cfg.activeKBps * 1024.0,
                            r.cfg.hysteresisSec * SECOND, r.now);
    flagged := Flag(r.samples.value, act.active);
    a1 := DesiredFor(flagged, Out, r.cfg, s.alloc).1;
  }

  lemma SameWantsNoCross(s: State, p: Plan)
    requires p.outward.enabled <==> p.outward.want != map[]
    requires p.outward.want == map[] || p.inward.want == map[] || p.outward.want.Keys == p.inward.want.Keys
    ensures !CrossRelease(s, p)
  {
  }

  lemma EntryNamesAppend(entries: seq<Entry>, e: Entry)
    ensures EntryNames(entries + [e]) == EntryNames(entries) + {e.name}
  {
    assert forall x :: x in entries + [e] <==> x in entries || x == e;
    assert e in entries + [e];
  }

  lemma {:induction false} SameAutoNames(samples: seq<MachineSample>, a: real, b: real)
    ensures EntryNames(AutoEntries(samples, a)) == EntryNames(AutoEntries(samples, b))
    decreases samples
  {
    if samples == [] {
    } else {
      var front, m := samples[..|samples|-1], samples[|samples|-1];
      SameAutoNames(front, a, b);
      if Counted(m) {
        EntryNamesAppend(AutoEntries(front, a), Entry(m.name, a, m.port));
        EntryNamesAppend(AutoEntries(front, b), Entry(m.name, b, m.port));
      }
    }
  }

  lemma SameAutoEntries(samples: seq<MachineSample>, cfg: QosConfig)
    requires cfg.mode != "manual"
    ensures EntryNames(Entries(samples, Out, cfg)) == {} || EntryNames(Entries(samples, In, cfg)) == {}
         || EntryNames(Entries(samples, Out, cfg)) == EntryNames(Entries(samples, In, cfg))
  {
    var n := CountActive(samples);
    if n > 0 && cfg.budgetOut > 0.0 && cfg.budgetIn > 0.0 {
      SameAutoNames(samples, Share(cfg.budgetOut, n), Share(cfg.budgetIn, n));
    }
  }

  /** The automatic mode never makes the move: both directions want the same machines, or one wants none. */
  lemma AutoNeverCrosses(s: State, r: Round)
    requires r.samples.Some? && r.cfg.mode != "manual"
    ensures !CrossRelease(s, PlanRound(s, r))
  {
    var flagged, a1 := PlanParts(s, r);
    var outward, inward := DesiredFor(flagged, Out, r.cfg, s.alloc).0, DesiredFor(flagged, In, r.cfg, a1).0;
    DesiredShape(flagged, Out, r.cfg, s.alloc);
    DesiredShape(flagged, In, r.cfg, a1);
    SameAutoEntries(flagged, r.cfg);
    SameWantsNoCross(s, PlanRound(s, r));
  }

  /** The block of ids this round's admissions will use is free. */
  ghost predicate Fits(s: State, p: Plan) {
    Room(s.alloc, |Admitted(s, p)|)
  }

  /** The ids in use after this round's admissions are distinct exactly when there was room for them. */
  lemma FitsExact(s: State, p: Plan)
    requires PlanOk(s, p) && Injective(s.alloc)
    ensures Injective(p.alloc) <==> Fits(s, p)
  {
    AdmissionExact(s.alloc, Admitted(s, p), p.alloc);
  }

  lemma CarryInjective(s: State, dev: string, p: Plan, o: RoundOrders)
    requires IdsFine(s) && PlanOk(s, p) && ValidPlanOrders(s, p, o) && Injective(p.alloc)
    ensures Injective(CarryOut(s, dev, p, o).alloc)
  {
    var names := CarryAlloc(s, dev, p, o);
    ReleaseAllShape(p.alloc, names);
  }

  // ---- Ports ----

  ghost predicate DistinctOnlinePorts(samples: seq<MachineSample>) {
    forall i, j :: 0 <= i < j < |samples| && samples[i].online && samples[j].online ==>
      samples[i].port != samples[j].port
  }

  ghost predicate SampledAt(samples: seq<MachineSample>, name: string, port: int) {
    exists m :: m in samples && m.online && m.name == name && m.port == port
  }

  lemma {:induction false} OnlinePortsSampled(samples: seq<MachineSample>)
    ensures forall n :: n in OnlinePorts(samples) ==> SampledAt(samples, n, OnlinePorts(samples)[n])
    decreases samples
  {
    if samples == [] {
    } else {
      var front, last := samples[..|samples|-1], samples[|samples|-1];
      OnlinePortsSampled(front);
      forall n | n in OnlinePorts(samples)
        ensures SampledAt(samples, n, OnlinePorts(samples)[n])
      {
        if last.online && last.name == n {
          assert last in samples;
        } else {
          assert SampledAt(front, n, OnlinePorts(front)[n]);
          var m :| m in front && m.online && m.name == n && m.port == OnlinePorts(front)[n];
          assert m in samples;
        }
      }
    }
  }

  lemma {:induction false} FlagKeepsPorts(samples: seq<MachineSample>, active: set<string>)
    ensures OnlinePorts(Flag(samples, active)) == OnlinePorts(samples)
    decreases samples
  {
    if samples == [] {
    } else {
      FlagKeepsPorts(samples[..|samples|-1], active);
      assert Flag(samples, active)[..|samples|-1] == Flag(samples[..|samples|-1], active);
    }
  }

  lemma {:induction false} ManualEntriesSampled(samples: seq<MachineSample>, items: seq<ManualItem>, dir: Direction)
    ensures forall e :: e in ManualEntries(items, OnlinePorts(samples), dir) ==> SampledAt(samples, e.name, e.port)
    decreases items
  {
    OnlinePortsSampled(samples);
    if items == [] {
    } else {
      ManualEntriesSampled(samples, items[..|items|-1], dir);
    }
  }

  lemma {:induction false} AutoEntriesSampled(samples: seq<MachineSample>, share: real)
    ensures forall e :: e in AutoEntries(samples, share) ==> SampledAt(samples, e.name, e.port)
    decreases samples
  {
    if samples == [] {
    } else {
      var front, last := samples[..|samples|-1], samples[|samples|-1];
      AutoEntriesSampled(front, share);
      forall e | e in AutoEntries(samples, share)
        ensures SampledAt(samples, e.name, e.port)
      {
        if e in AutoEntries(front, share) {
          var m :| m in front && m.online && m.name == e.name && m.port == e.port;
          assert m in samples;
        } else {
          assert last in samples;
        }
      }
    }
  }

  /** Every wanted class goes by the port of an online sample of its machine. */
  ghost predicate WantSampled(samples: seq<MachineSample>, want: Classes) {
    forall n :: n in want ==> SampledAt(samples, n, want[n].port)
  }

  lemma EntriesSampled(samples: seq<MachineSample>, active: set<string>, dir: Direction, cfg: QosConfig)
    ensures forall e :: e in Entries(Flag(samples, active), dir, cfg) ==> SampledAt(samples, e.name, e.port)
  {
    var flagged := Flag(samples, active);
    ManualEntriesSampled(flagged, cfg.manual, dir);
    if CountActive(flagged) > 0 {
      AutoEntriesSampled(flagged, Share(Budget(cfg, dir), CountActive(flagged)));
    }
    forall e | e in Entries(flagged, dir, cfg)
      ensures SampledAt(samples, e.name, e.port)
    {
      var m :| m in flagged && m.online && m.name == e.name && m.port == e.port;
      var i :| 0 <= i < |flagged| && flagged[i] == m;
      assert samples[i] in samples;
    }
  }

  lemma DesiredSampled(samples: seq<MachineSample>, active: set<string>, dir: Direction, cfg: QosConfig, a: Alloc)
    ensures WantSampled(samples, DesiredFor(Flag(samples, active), dir, cfg, a).0.want)
  {
    DesiredShape(Flag(samples, active), dir, cfg, a);
    EntriesSampled(samples, active, dir, cfg);
  }

  lemma PlanSampled(s: State, r: Round)
    requires r.samples.Some?
    ensures WantSampled(r.samples.value, PlanRound(s, r).outward.want)
    ensures WantSampled(r.samples.value, PlanRound(s, r).inward.want)
  {
    var flagged, a1 := PlanParts(s, r);
    DesiredSampled(r.samples.value, PlanRound(s, r).activity.active, Out, r.cfg, s.alloc);
    DesiredSampled(r.samples.value, PlanRound(s, r).activity.active, In, r.cfg, a1);
  }

  lemma SampledPortsDiffer(samples: seq<MachineSample>, want: Classes)
    requires DistinctOnlinePorts(samples)
    requires WantSampled(samples, want)
    ensures DistinctPorts(want)
  {
    forall n, m | n in want && m in want && n != m
      ensures want[n].port != want[m].port
    {
      assert SampledAt(samples, n, want[n].port) && SampledAt(samples, m, want[m].port);
      var a :| a in samples && a.online && a.name == n && a.port == want[n].port;
      var b :| b in samples && b.online && b.name == m && b.port == want[m].port;
      var i :| 0 <= i < |samples| && samples[i] == a;
      var j :| 0 <= j < |samples| && samples[j] == b;
      assert i != j;
    }
  }

  // ---- One shaping round ----

  /** The samples are those of distinct online listeners. */
  ghost predicate CleanSamples(samples: seq<MachineSample>) {
    UniqueNames(samples) && DistinctOnlinePorts(samples)
  }

  ghost predicate PlanClean(p: Plan) {
    DistinctPorts(p.outward.want) && DistinctPorts(p.inward.want)
  }

  lemma PlanIsClean(s: State, r: Round)
    requires r.samples.Some? && CleanSamples(r.samples.value)
    ensures PlanClean(PlanRound(s, r))
  {
    PlanSampled(s, r);
    SampledPortsDiffer(r.samples.value, PlanRound(s, r).outward.want);
    SampledPortsDiffer(r.samples.value, PlanRound(s, r).inward.want);
  }

  lemma PlanCompiles(s: State, p: Plan)
    requires PlanOk(s, p) && PlanClean(p) && Linked(s) && Injective(p.alloc)
    ensures Compilable(s.appliedOut, p.outward.want)
    ensures Compilable(s.appliedIn, p.inward.want)
  {
  }

  /** The tables of direction `dir` say `want`, or there are none, and inbound no redirection, when nothing
      is wanted. */
  ghost predicate TablesSay(k: Kernel, dev: string, dir: Direction, rootRate: real, want: Classes) {
    var shaping := if dir.In? then IFB_DEV else dev;
    if want == map[] then
      && (shaping in k ==> k[shaping].root == Default)
      && (dir.In? && dev in k ==> k[dev].ingress == None)
    else
      && shaping in k && dev in k
      && Realizes(k[shaping].root, dir, rootRate, want)
      && (dir.In? ==> k[shaping].up && k[dev].ingress == Some([IFB_DEV]))
  }

  /** Nothing is wanted, or the tables can say it: the wanted ids and ports are distinct, and no machine
      to be removed holds a wanted id. */
  ghost predicate Sayable(applied: Classes, want: Classes) {
    want == map[] || Compilable(applied, want)
  }

  /** Where the shaping device has been set up for something wanted, the tables are the root's. */
  lemma TablesOfRoot(k: Kernel, dev: string, dir: Direction, rootRate: real, want: Classes)
    requires want != map[] && ShapingDevice(dev, dir) in k && dev in k
    requires dir.In? ==> k[ShapingDevice(dev, dir)].up && k[dev].ingress == Some([IFB_DEV])
    ensures TablesSay(k, dev, dir, rootRate, want) <==> Realizes(k[ShapingDevice(dev, dir)].root, dir, rootRate, want)
  {
  }

  lemma SteeredTables(t: State, dir: Direction, d: Desired, o: Orders)
    requires IdsFine(t) && IdsFromTwo(d.want) && (d.enabled <==> d.want != map[])
    requires d.enabled ==> ValidOrders(o, Applied(t, dir), d.want)
    requires t.iface != IFB_DEV && t.iface in t.kernel
    ensures var k := SteeredKernel(t, dir, d, o);
      && t.iface in k && (TablesSay(k, t.iface, dir, d.rootRate, d.want) <==> Sayable(Applied(t, dir), d.want))
      && (d.enabled ==>
            (ShapingDevice(t.iface, dir) in k && Realizes(k[ShapingDevice(t.iface, dir)].root, dir, d.rootRate, d.want)
             <==> Compilable(Applied(t, dir), d.want)))
  {
    if d.enabled {
      var root := AppliedRoot(dir, d.rootRate, Applied(t, dir), d.want, o);
      AppliedExactly(dir, d.rootRate, Applied(t, dir), d.want, o);
      AppliedDevices(t.kernel, t.iface, dir, root);
      TablesOfRoot(SteeredKernel(t, dir, d, o), t.iface, dir, d.rootRate, d.want);
    }
  }

  lemma InwardKeepsRoot(u: State, d: Desired, o: Orders)
    requires d.enabled ==> ValidOrders(o, u.appliedIn, d.want)
    requires u.iface != IFB_DEV && u.iface in u.kernel
    ensures var k := SteeredKernel(u, In, d, o);
      u.iface in k && k[u.iface].root == u.kernel[u.iface].root
  {
  }

  /** A plan carried out leaves in each direction the wanted tables exactly when they can be said. */
  lemma CarriedTables(s: State, dev: string, p: Plan, o: RoundOrders)
    requires IdsFine(s) && PlanOk(s, p) && ValidPlanOrders(s, p, o)
    requires dev != IFB_DEV && dev in s.kernel
    ensures var v := CarryOut(s, dev, p, o);
      && (TablesSay(v.kernel, dev, Out, p.outward.rootRate, p.outward.want) <==> Sayable(s.appliedOut, p.outward.want))
      && (TablesSay(v.kernel, dev, In, p.inward.rootRate, p.inward.want) <==> Sayable(s.appliedIn, p.inward.want))
      && (p.inward.enabled ==>
            (IFB_DEV in v.kernel && Realizes(v.kernel[IFB_DEV].root, In, p.inward.rootRate, p.inward.want)
             <==> Compilable(s.appliedIn, p.inward.want)))
  {
    var t, u := CarryShape(s, dev, p, o);
    SteeredTables(t, Out, p.outward, o.outward);
    SteeredTables(u, In, p.inward, o.inward);
    InwardKeepsRoot(u, p.inward, o.inward);
  }

  // ---- Automatic mode ----

  lemma {:induction false} OnlineNamesSampled(samples: seq<MachineSample>, n: string)
    requires n in OnlineNames(samples)
    ensures exists m :: m in samples && m.online && m.name == n
    decreases samples
  {
    var front, last := samples[..|samples|-1], samples[|samples|-1];
    if last.online && last.name == n {
      assert last in samples;
    } else {
      OnlineNamesSampled(front, n);
      var m :| m in front && m.online && m.name == n;
      assert m in samples;
    }
  }

  ghost function CountedNames(samples: seq<MachineSample>): set<string> {
    set m | m in samples && Counted(m) :: m.name
  }

  lemma CountedStep(samples: seq<MachineSample>)
    requires samples != [] && UniqueNames(samples)
    ensures var front, m := samples[..|samples|-1], samples[|samples|-1];
      && m.name !in CountedNames(front)
      && CountedNames(samples) == CountedNames(front) + (if Counted(m) then {m.name} else {})
  {
    var front, m := samples[..|samples|-1], samples[|samples|-1];
    assert forall x :: x in samples <==> x in front || x == m;
    forall x | x in front
      ensures x.name != m.name
    {
      var i :| 0 <= i < |front| && front[i] == x;
      assert samples[i] == x;
    }
  }

  lemma {:induction false} AutoShape(samples: seq<MachineSample>, share: real)
    requires UniqueNames(samples)
    ensures EntryNames(AutoEntries(samples, share)) == CountedNames(samples)
    ensures CountActive(samples) == |CountedNames(samples)|
    ensures forall e :: e in AutoEntries(samples, share) ==> e.rate == share
    decreases samples
  {
    if samples == [] {
    } else {
      var front, m := samples[..|samples|-1], samples[|samples|-1];
      AutoShape(front, share);
      CountedStep(samples);
      if Counted(m) {
        EntryNamesAppend(AutoEntries(front, share), Entry(m.name, share, m.port));
      }
    }
  }

  /** The machines counted for a share are exactly the active ones. */
  lemma CountedAreActive(a: Activity, samples: seq<MachineSample>, threshold: real, window: int, now: int)
    ensures var act := UpdateActive(a, samples, threshold, window, now);
      CountedNames(Flag(samples, act.active)) == act.active
  {
    var act := UpdateActive(a, samples, threshold, window, now);
    var flagged := Flag(samples, act.active);
    forall n | n in act.active
      ensures n in CountedNames(flagged)
    {
      OnlineNamesSampled(samples, n);
      var m :| m in samples && m.online && m.name == n;
      var i :| 0 <= i < |samples| && samples[i] == m;
      assert flagged[i] in flagged && Counted(flagged[i]);
    }
  }

  /** Every class has an equal share of the budget. */
  ghost predicate Fair(budget: real, cs: Classes) {
    forall n :: n in cs ==> |cs| > 0 && cs[n].rate == Share(budget, |cs|)
  }

  /** Under a budget, controller and kernel agree in direction `dir` about the active machines. */
  ghost predicate AgreesAt(s: State, budget: real, dir: Direction) {
    var applied := Applied(s, dir);
    && applied.Keys == (if budget > 0.0 then s.activity.active else {})
    && Fair(budget, applied)
    && TablesSay(s.kernel, s.iface, dir, budget * 1000000.0, applied)
  }

  /** The budget that the configuration allots to a direction, in Mbit/s. */
  ghost function Allotted(cfg: QosConfig, dir: Direction): real {
    match dir
    case Out => cfg.budgetOut
    case In => cfg.budgetIn
  }

  ghost predicate Agrees(s: State, cfg: QosConfig, dir: Direction) {
    AgreesAt(s, Allotted(cfg, dir), dir)
  }

  /** In automatic mode the wanted machines are the active ones, each with an equal share. */
  ghost predicate FairlyWants(cfg: QosConfig, dir: Direction, active: set<string>, d: Desired) {
    && d.want.Keys == (if Allotted(cfg, dir) > 0.0 then active else {})
    && Fair(Allotted(cfg, dir), d.want)
    && (d.want != map[] ==> d.rootRate == Allotted(cfg, dir) * 1000000.0)
  }

  lemma AutoEntriesFair(samples: seq<MachineSample>, dir: Direction, cfg: QosConfig)
    requires UniqueNames(samples) && cfg.mode != "manual"
    ensures var entries := Entries(samples, dir, cfg);
      && EntryNames(entries) == (if Allotted(cfg, dir) > 0.0 then CountedNames(samples) else {})
      && (forall e :: e in entries ==>
          |EntryNames(entries)| > 0 && e.rate == Share(Allotted(cfg, dir), |EntryNames(entries)|))
      && (entries != [] ==> RootRate(samples, dir, cfg) == Allotted(cfg, dir) * 1000000.0)
  {
    var n := CountActive(samples);
    assert Allotted(cfg, dir) == Budget(cfg, dir);
    AutoShape(samples, 1.0);
    if Allotted(cfg, dir) > 0.0 && n > 0 {
      AutoShape(samples, Share(Allotted(cfg, dir), n));
    }
  }

  lemma FairFromEntries(entries: seq<Entry>, budget: real, want: Classes)
    requires want.Keys == EntryNames(entries)
    requires forall n :: n in want ==>
        exists e :: e in entries && e.name == n && e.rate == want[n].rate && e.port == want[n].port
    requires forall e :: e in entries ==> |EntryNames(entries)| > 0 && e.rate == Share(budget, |EntryNames(entries)|)
    ensures Fair(budget, want)
  {
    assert |want| == |want.Keys|;
  }

  lemma AutoDesired(samples: seq<MachineSample>, dir: Direction, cfg: QosConfig, a: Alloc)
    requires UniqueNames(samples) && cfg.mode != "manual"
    ensures FairlyWants(cfg, dir, CountedNames(samples), DesiredFor(samples, dir, cfg, a).0)
  {
    DesiredShape(samples, dir, cfg, a);
    AutoEntriesFair(samples, dir, cfg);
    var d := DesiredFor(samples, dir, cfg, a).0;
    FairFromEntries(Entries(samples, dir, cfg), Allotted(cfg, dir), d.want);
    assert d.rootRate == RootRate(samples, dir, cfg);
  }

  lemma FlagKeepsNames(samples: seq<MachineSample>, active: set<string>)
    requires UniqueNames(samples)
    ensures UniqueNames(Flag(samples, active))
  {
  }

  lemma AutoPlan(s: State, r: Round)
    requires r.samples.Some? && UniqueNames(r.samples.value) && r.cfg.mode != "manual"
    ensures var p := PlanRound(s, r);
      && FairlyWants(r.cfg, Out, p.activity.active, p.outward)
      && FairlyWants(r.cfg, In, p.activity.active, p.inward)
  {
    var flagged, a1 := PlanParts(s, r);
    CountedAreActive(s.activity, r.samples.value, r.cfg.activeKBps * 1024.0, r.cfg.hysteresisSec * SECOND, r.now);
    FlagKeepsNames(r.samples.value, PlanRound(s, r).activity.active);
    AutoDesired(flagged, Out, r.cfg, s.alloc);
    AutoDesired(flagged, In, r.cfg, a1);
  }

  lemma AgreesFrom(v: State, cfg: QosConfig, dir: Direction, active: set<string>, d: Desired)
    requires Applied(v, dir) == d.want && v.activity.active == active
    requires FairlyWants(cfg, dir, active, d)
    ensures Agrees(v, cfg, dir) <==> TablesSay(v.kernel, v.iface, dir, d.rootRate, d.want)
  {
    if d.want != map[] {
      assert d.rootRate == Allotted(cfg, dir) * 1000000.0;
    }
  }

  /** A fair plan carried out ends in agreement, in each direction, exactly when its wants can be said. */
  lemma FairCarryAgrees(s: State, dev: string, cfg: QosConfig, p: Plan, o: RoundOrders)
    requires IdsFine(s) && PlanOk(s, p) && ValidPlanOrders(s, p, o)
    requires dev != IFB_DEV && dev in s.kernel
    requires FairlyWants(cfg, Out, p.activity.active, p.outward) && FairlyWants(cfg, In, p.activity.active, p.inward)
    ensures var v := CarryOut(s, dev, p, o);
      && (Agrees(v, cfg, Out) <==> Sayable(s.appliedOut, p.outward.want))
      && (Agrees(v, cfg, In) <==> Sayable(s.appliedIn, p.inward.want))
      && v.lastErr == None && v.appliedOut == p.outward.want && v.appliedIn == p.inward.want
  {
    var _, _ := CarryShape(s, dev, p, o);
    CarriedTables(s, dev, p, o);
    AgreesFrom(CarryOut(s, dev, p, o), cfg, Out, p.activity.active, p.outward);
    AgreesFrom(CarryOut(s, dev, p, o), cfg, In, p.activity.active, p.inward);
  }

  // ---- Whole runs ----

  /** The turn has room for its admissions and moves no machine from outbound to inbound. */
  ghost predicate TurnFits(s: State, t: Turn) {
    t.Tick? && Shapes(s, t.round) ==>
      Fits(s, PlanRound(s, t.round)) && !CrossRelease(s, PlanRound(s, t.round))
  }

  ghost predicate RunFits(k: Kernel, turns: seq<Turn>)
    requires ValidRun(k, turns)
    decreases turns
  {
    turns == [] || (RunFits(k, turns[..|turns|-1]) && TurnFits(After(k, turns[..|turns|-1]), turns[|turns|-1]))
  }

  ghost predicate TurnSound(s: State, t: Turn)
    requires ValidTurn(s, t)
  {
    && (t.Tick? && Shapes(s, t.round) ==> Injective(PlanRound(s, t.round).alloc))
    && Linked(Take(s, t))
  }

  /** In every round so far the live ids were distinct once everyone had one, and after it every
      applied machine held its id. */
  ghost predicate RunSound(k: Kernel, turns: seq<Turn>)
    requires ValidRun(k, turns)
    decreases turns
  {
    turns == [] || (RunSound(k, turns[..|turns|-1]) && TurnSound(After(k, turns[..|turns|-1]), turns[|turns|-1]))
  }

  lemma PlanSoundExact(s: State, dev: string, p: Plan, o: RoundOrders)
    requires IdsFine(s) && PlanOk(s, p) && ValidPlanOrders(s, p, o) && Injective(s.alloc)
    ensures Injective(p.alloc) <==> Fits(s, p)
    ensures Linked(CarryOut(s, dev, p, o)) <==> !CrossRelease(s, p)
    ensures Injective(p.alloc) ==> Injective(CarryOut(s, dev, p, o).alloc)
  {
    FitsExact(s, p);
    LinkedExact(s, dev, p, o);
    if Injective(p.alloc) {
      CarryInjective(s, dev, p, o);
    }
  }

  lemma RoundSoundExact(s: State, r: Round, o: RoundOrders, p: Plan, u: State)
    requires Shapes(s, r) && ValidRoundOrders(s, r, o) && IdsFine(s) && Injective(s.alloc)
    requires p == PlanRound(s, r) && u == Reconcile(s, r, o)
    ensures Injective(p.alloc) && Linked(u) <==> Fits(s, p) && !CrossRelease(s, p)
    ensures Injective(p.alloc) ==> Injective(u.alloc)
  {
    PlanIsOk(s, r);
    PlanSoundExact(s, Iface(s, r), p, o);
  }

  lemma TurnSoundExact(s: State, t: Turn)
    requires ValidTurn(s, t) && IdsFine(s) && Injective(s.alloc) && Linked(s)
    ensures TurnSound(s, t) <==> TurnFits(s, t)
    ensures TurnSound(s, t) ==> Injective(Take(s, t).alloc)
  {
    if t.Tick? && Shapes(s, t.round) {
      RoundSoundExact(s, t.round, t.orders, PlanRound(s, t.round), Take(s, t));
    } else {
      TakeCleans(s, t);
    }
  }

  /** A run keeps ids distinct and applied machines linked exactly when every turn of it fits. */
  lemma {:induction false} RunSoundExact(k: Kernel, turns: seq<Turn>)
    requires ValidRun(k, turns)
    ensures RunSound(k, turns) <==> RunFits(k, turns)
    ensures RunSound(k, turns) ==> Injective(After(k, turns).alloc) && Linked(After(k, turns))
    decreases turns
  {
    if turns == [] {
    } else {
      var front := turns[..|turns|-1];
      RunSoundExact(k, front);
      NoCommandEverReports(k, front);
      if RunSound(k, front) {
        TurnSoundExact(After(k, front), turns[|turns|-1]);
      }
    }
  }

  /** The run's last turn is a successful automatic round on an interface that exists and is not ifb0. */
  ghost predicate EndsAutomatic(k: Kernel, turns: seq<Turn>)
    requires ValidRun(k, turns)
  {
    && "" !in k && turns != [] && turns[|turns|-1].Tick?
    && var s, r := After(k, turns[..|turns|-1]), turns[|turns|-1].round;
       && Shapes(s, r) && r.cfg.mode != "manual" && UniqueNames(r.samples.value)
       && Iface(s, r) != IFB_DEV && Iface(s, r) in k
  }

  lemma AgreementStep(s: State, r: Round, o: RoundOrders)
    requires Shapes(s, r) && ValidRoundOrders(s, r, o) && IdsFine(s)
    requires r.cfg.mode != "manual" && UniqueNames(r.samples.value)
    requires Iface(s, r) != IFB_DEV && Iface(s, r) in s.kernel
    ensures var u, p := Reconcile(s, r, o), PlanRound(s, r);
      && (Agrees(u, r.cfg, Out) <==> Sayable(s.appliedOut, p.outward.want))
      && (Agrees(u, r.cfg, In) <==> Sayable(s.appliedIn, p.inward.want))
      && u.appliedOut == p.outward.want && u.appliedIn == p.inward.want && u.lastErr == None
      && WantSampled(r.samples.value, u.appliedOut) && WantSampled(r.samples.value, u.appliedIn)
  {
    PlanSampled(s, r);
    PlanIsOk(s, r);
    AutoPlan(s, r);
    FairCarryAgrees(s, Iface(s, r), r.cfg, PlanRound(s, r), o);
  }

  /** After every successful automatic round of every run, whatever has collided before, a direction
      agrees with the kernel if and only if what the round wanted in it can be said. */
  lemma AgreementExact(k: Kernel, turns: seq<Turn>, dir: Direction)
    requires ValidRun(k, turns) && EndsAutomatic(k, turns)
    ensures var s, t, r := After(k, turns[..|turns|-1]), After(k, turns), turns[|turns|-1].round;
      var p := PlanRound(s, r);
      && Applied(t, dir) == (if dir.In? then p.inward.want else p.outward.want)
      && (Agrees(t, r.cfg, dir) <==> Sayable(Applied(s, dir), Applied(t, dir)))
      && t.lastErr == None && WantSampled(r.samples.value, Applied(t, dir))
  {
    var front, t := turns[..|turns|-1], turns[|turns|-1];
    var s := After(k, front);
    NoCommandEverReports(k, front);
    RulesStayPut(k, front);
    AgreementStep(s, t.round, t.orders);
  }

  /** The rates of a direction add up to so many Mbit/s, equally shared by exactly these machines. */
  ghost predicate SharesOut(cs: Classes, mbps: real, machines: set<string>) {
    && cs.Keys == (if mbps > 0.0 then machines else {})
    && forall n :: n in cs ==> cs[n].rate * |cs| as real == mbps * 1000000.0
  }

  /** The root class of a device is limited to so many Mbit/s. */
  ghost predicate RootAt(k: Kernel, dev: string, mbps: real) {
    && dev in k && k[dev].root.Htb? && 1 in k[dev].root.classes
    && k[dev].root.classes[1] == HtbClass(0, Kbit(mbps * 1000000.0), Kbit(mbps * 1000000.0))
  }

  lemma TablesRoot(k: Kernel, dev: string, dir: Direction, mbps: real, want: Classes)
    requires want != map[] && TablesSay(k, dev, dir, mbps * 1000000.0, want)
    ensures RootAt(k, if dir.Out? then dev else "ifb0", mbps)
  {
  }

  lemma AgreedRoot(s: State, dir: Direction, mbps: real, want: Classes)
    requires AgreesAt(s, mbps, dir) && want == Applied(s, dir) && want != map[]
    ensures RootAt(s.kernel, if dir.Out? then s.iface else "ifb0", mbps)
  {
    TablesRoot(s.kernel, s.iface, dir, mbps, want);
  }

  lemma OutwardRoot(s: State, cfg: QosConfig)
    requires Agrees(s, cfg, Out) && s.appliedOut != map[]
    ensures RootAt(s.kernel, s.iface, cfg.budgetOut)
  {
    AgreedRoot(s, Out, cfg.budgetOut, s.appliedOut);
  }

  lemma InwardRoot(s: State, cfg: QosConfig)
    requires Agrees(s, cfg, In) && s.appliedIn != map[]
    ensures RootAt(s.kernel, "ifb0", cfg.budgetIn)
  {
    AgreedRoot(s, In, cfg.budgetIn, s.appliedIn);
  }

  lemma FairSharesOut(cfg: QosConfig, dir: Direction, active: set<string>, d: Desired)
    requires FairlyWants(cfg, dir, active, d)
    ensures SharesOut(d.want, if dir.Out? then cfg.budgetOut else cfg.budgetIn, active)
  {
    forall n | n in d.want
      ensures d.want[n].rate * |d.want| as real == Allotted(cfg, dir) * 1000000.0
    {
      SharesAddUp(Allotted(cfg, dir), |d.want|, |d.want|);
    }
  }

  lemma AutoStep(s: State, r: Round, o: RoundOrders)
    requires Shapes(s, r) && ValidRoundOrders(s, r, o) && IdsFine(s)
    requires r.cfg.mode != "manual" && UniqueNames(r.samples.value)
    ensures var u := Reconcile(s, r, o);
      && SharesOut(u.appliedOut, r.cfg.budgetOut, u.activity.active)
      && SharesOut(u.appliedIn, r.cfg.budgetIn, u.activity.active)
  {
    PlanIsOk(s, r);
    AutoPlan(s, r);
    var p := PlanRound(s, r);
    var _, _ := CarryShape(s, Iface(s, r), p, o);
    FairSharesOut(r.cfg, Out, p.activity.active, p.outward);
    FairSharesOut(r.cfg, In, p.activity.active, p.inward);
  }

  /** After every successful automatic round of every run: the active machines share the outbound budget
      equally outbound and the inbound budget equally inbound, and where a direction agrees the root class
      of the interface has the outbound, that of ifb0 the inbound budget. */
  lemma AutoRunByField(k: Kernel, turns: seq<Turn>)
    requires ValidRun(k, turns) && EndsAutomatic(k, turns)
    ensures var t, cfg := After(k, turns), turns[|turns|-1].round.cfg;
      && SharesOut(t.appliedOut, cfg.budgetOut, t.activity.active)
      && SharesOut(t.appliedIn, cfg.budgetIn, t.activity.active)
      && (Agrees(t, cfg, Out) && t.appliedOut != map[] ==> RootAt(t.kernel, t.iface, cfg.budgetOut))
      && (Agrees(t, cfg, In) && t.appliedIn != map[] ==> RootAt(t.kernel, "ifb0", cfg.budgetIn))
  {
    var front, t := turns[..|turns|-1], turns[|turns|-1];
    NoCommandEverReports(k, front);
    AutoStep(After(k, front), t.round, t.orders);
    var u, cfg := After(k, turns), t.round.cfg;
    if Agrees(u, cfg, Out) && u.appliedOut != map[] {
      OutwardRoot(u, cfg);
    }
    if Agrees(u, cfg, In) && u.appliedIn != map[] {
      InwardRoot(u, cfg);
    }
  }

  lemma FittingTurnSays(k: Kernel, turns: seq<Turn>)
    requires ValidRun(k, turns) && RunFits(k, turns) && turns != [] && turns[|turns|-1].Tick?
    requires var s, r := After(k, turns[..|turns|-1]), turns[|turns|-1].round;
      Shapes(s, r) && CleanSamples(r.samples.value)
    ensures var s, p := After(k, turns[..|turns|-1]), PlanRound(After(k, turns[..|turns|-1]), turns[|turns|-1].round);
      Sayable(s.appliedOut, p.outward.want) && Sayable(s.appliedIn, p.inward.want)
  {
    var front, t := turns[..|turns|-1], turns[|turns|-1];
    var s := After(k, front);
    RunSoundExact(k, front);
    NoCommandEverReports(k, front);
    PlanIsOk(s, t.round);
    FitsExact(s, PlanRound(s, t.round));
    PlanIsClean(s, t.round);
    PlanCompiles(s, PlanRound(s, t.round));
  }

  /** So after every successful automatic round of a run that fits, with one online proxy per port, both
      directions agree with the kernel. */
  lemma WholeRunAgreement(k: Kernel, turns: seq<Turn>)
    requires ValidRun(k, turns) && RunFits(k, turns) && EndsAutomatic(k, turns)
    requires DistinctOnlinePorts(turns[|turns|-1].round.samples.value)
    ensures var t, r := After(k, turns), turns[|turns|-1].round;
      && Agrees(t, r.cfg, Out) && Agrees(t, r.cfg, In) && t.lastErr == None
      && WantSampled(r.samples.value, t.appliedOut) && WantSampled(r.samples.value, t.appliedIn)
  {
    AgreementExact(k, turns, Out);
    AgreementExact(k, turns, In);
    FittingTurnSays(k, turns);
  }

  /** The first automatic round on an existing interface always fits, whatever the kernel holds. */
  lemma FirstRoundAgrees(k: Kernel, r: Round, o: RoundOrders)
    requires "" !in k && Shapes(Start(k), r) && ValidRoundOrders(Start(k), r, o)
    requires r.cfg.mode != "manual" && CleanSamples(r.samples.value)
    requires Iface(Start(k), r) != IFB_DEV && Iface(Start(k), r) in k
    ensures ValidRun(k, [Tick(r, o)]) && RunFits(k, [Tick(r, o)])
    ensures var t := After(k, [Tick(r, o)]);
      Agrees(t, r.cfg, Out) && Agrees(t, r.cfg, In) && t.lastErr == None
  {
    var turns := [Tick(r, o)];
    assert turns[..0] == [] && ValidRun(k, turns[..0]) && RunFits(k, turns[..0]);
    assert After(k, turns[..0]) == Start(k);
    assert Fits(Start(k), PlanRound(Start(k), r)) && !CrossRelease(Start(k), PlanRound(Start(k), r));
    WholeRunAgreement(k, turns);
  }

  ghost predicate FreesAbove(s: State, p: Plan) {
    forall n, m :: n in p.alloc.ids && m in p.alloc.ids && Freed(s, p, n) && !Freed(s, p, m) ==>
      p.alloc.ids[m] < p.alloc.ids[n]
  }

  /** A tidy turn gives back only ids above all that stay, and moves no machine across. */
  ghost predicate TurnTidy(s: State, t: Turn) {
    t.Tick? && Shapes(s, t.round) ==> FreesAbove(s, PlanRound(s, t.round)) && !CrossRelease(s, PlanRound(s, t.round))
  }

  ghost predicate RunTidy(k: Kernel, turns: seq<Turn>)
    requires ValidRun(k, turns)
    decreases turns
  {
    turns == [] || (RunTidy(k, turns[..|turns|-1]) && TurnTidy(After(k, turns[..|turns|-1]), turns[|turns|-1]))
  }

  /** Every turn so far has fitted and has left the counter above every live id. */
  ghost predicate StaysCompact(k: Kernel, turns: seq<Turn>)
    requires ValidRun(k, turns)
    decreases turns
  {
    turns == [] ||
    (StaysCompact(k, turns[..|turns|-1])
     && TurnFits(After(k, turns[..|turns|-1]), turns[|turns|-1]) && Compact(After(k, turns).alloc))
  }

  lemma TidyPlan(s: State, dev: string, p: Plan, o: RoundOrders)
    requires IdsFine(s) && PlanOk(s, p) && ValidPlanOrders(s, p, o)
    requires Injective(s.alloc) && Compact(s.alloc)
    ensures Fits(s, p)
    ensures Compact(CarryOut(s, dev, p, o).alloc) <==> FreesAbove(s, p)
  {
    CompactAdmits(s.alloc, Admitted(s, p), p.alloc);
    var names := CarryAlloc(s, dev, p, o);
    ReleaseExact(p.alloc, names);
    assert forall n :: n in Held(p.alloc, names) <==> n in p.alloc.ids && Freed(s, p, n);
  }

  lemma TidyTurn(s: State, t: Turn)
    requires ValidTurn(s, t)
    requires IdsFine(s) && Injective(s.alloc) && Compact(s.alloc)
    ensures TurnTidy(s, t) <==> TurnFits(s, t) && Compact(Take(s, t).alloc)
  {
    if t.Tick? && Shapes(s, t.round) {
      PlanIsOk(s, t.round);
      TidyPlan(s, Iface(s, t.round), PlanRound(s, t.round), t.orders);
    } else {
      TakeCleans(s, t);
    }
  }

  /** A run keeps fitting with its counter above every live id exactly when every turn of it is tidy. */
  lemma {:induction false} TidyExact(k: Kernel, turns: seq<Turn>)
    requires ValidRun(k, turns)
    ensures RunTidy(k, turns) <==> StaysCompact(k, turns)
    ensures RunTidy(k, turns) ==> RunFits(k, turns) && Compact(After(k, turns).alloc)
    decreases turns
  {
    if turns == [] {
    } else {
      var front, t := turns[..|turns|-1], turns[|turns|-1];
      TidyExact(k, front);
      RunSoundExact(k, front);
      NoCommandEverReports(k, front);
      if RunTidy(k, front) {
        TidyTurn(After(k, front), t);
      }
    }
  }

  // ---- The rates that are installed ----

  /** A total of `n` machine rates is the budget, but for the rounding of each to kbit/s: half a kbit a
      machine, or less than the floor of one. */
  predicate NearBudget(total: int, budget: real, n: int)
    requires n > 0
  {
    var off := total as real - budget * 1000.0;
    if Share(budget, n) >= 1000.0 then -0.5 * n as real <= off <= 0.5 * n as real else 0.0 < off < n as real
  }

  /** The class ids of the machines on the device that shapes `dir`; no class where nothing is shaped. */
  function MachineIds(root: RootQdisc): set<int> {
    if root.Htb? then root.classes.Keys - {1} else {}
  }

  function ShapingRoot(s: State, dir: Direction): RootQdisc {
    var dev := ShapingDevice(s.iface, dir);
    if dev in s.kernel then s.kernel[dev].root else Default
  }

  ghost predicate TotalsBudget(root: RootQdisc, ids: seq<int>, budget: real, n: int) {
    && n > 0 && root.Htb? && (forall i :: 0 <= i < |ids| ==> ids[i] in root.classes)
    && NearBudget(TotalRate(root.classes, ids), budget, n)
  }

  lemma EnumeratedIn(ids: seq<int>, some: set<int>, all: set<int>)
    requires Enumerates(ids, some) && some <= all
    ensures forall i :: 0 <= i < |ids| ==> ids[i] in all
  {
    forall i | 0 <= i < |ids|
      ensures ids[i] in all
    {
      assert ids[i] in ids;
    }
  }

  lemma SomeClass(cs: Classes)
    requires cs != map[]
    ensures |cs| > 0
  {
    var name :| name in cs;
    assert name in cs.Keys && |cs.Keys| > 0;
  }

  lemma UniformTables(classes: map<int, HtbClass>, machines: set<int>, budget: real, n: int, ids: seq<int>)
    requires budget > 0.0 && n > 0 && |machines| == n && Enumerates(ids, machines)
    requires forall i :: 0 <= i < |ids| ==> ids[i] in classes
    requires forall id :: id in machines ==> id in classes && classes[id].rate == Kbit(Share(budget, n))
    ensures NearBudget(TotalRate(classes, ids), budget, n)
  {
    UniformTotal(classes, ids, Kbit(Share(budget, n)));
    EnumerationSize(ids, machines);
    CommandedTotal(budget, n);
  }

  lemma MachineClasses(root: RootQdisc, dir: Direction, budget: real, cs: Classes)
    requires cs != map[] && |cs| > 0
    requires Realizes(root, dir, budget * 1000000.0, cs) && Fair(budget, cs) && IdsFromTwo(cs)
    ensures |root.classes.Keys - {1}| == |cs|
    ensures forall id :: id in root.classes.Keys - {1} ==> root.classes[id].rate == Kbit(Share(budget, |cs|))
  {
    forall id | id in root.classes.Keys - {1}
      ensures root.classes[id].rate == Kbit(Share(budget, |cs|))
    {
      assert id in ClassIds(cs);
      var n :| n in cs && cs[n].id == id;
    }
    assert |root.classes| == |root.classes.Keys|;
  }

  lemma InstalledTotal(root: RootQdisc, dir: Direction, budget: real, cs: Classes, ids: seq<int>)
    requires budget > 0.0 && cs != map[]
    requires Realizes(root, dir, budget * 1000000.0, cs) && Fair(budget, cs) && IdsFromTwo(cs)
    requires Enumerates(ids, MachineIds(root))
    ensures TotalsBudget(root, ids, budget, |cs|)
  {
    SomeClass(cs);
    MachineClasses(root, dir, budget, cs);
    EnumeratedIn(ids, MachineIds(root), root.classes.Keys);
    UniformTables(root.classes, MachineIds(root), budget, |cs|, ids);
  }

  lemma AgreedTotal(s: State, dir: Direction, budget: real, root: RootQdisc, cs: Classes, ids: seq<int>)
    requires IdsFine(s) && AgreesAt(s, budget, dir)
    requires root == ShapingRoot(s, dir) && cs == Applied(s, dir) != map[]
    requires Enumerates(ids, MachineIds(root))
    ensures TotalsBudget(root, ids, budget, |cs|)
  {
    var name :| name in cs;
    assert name in cs.Keys;
    InstalledTotal(root, dir, budget, cs, ids);
  }

  /** The tables `root` that the kernel has after any run, in a direction that agrees, hold classes
      that add up to the budget in that sense. */
  lemma InstalledAfterRun(k: Kernel, turns: seq<Turn>, cfg: QosConfig, dir: Direction, budget: real,
                          root: RootQdisc, cs: Classes, ids: seq<int>)
    requires ValidRun(k, turns) && Agrees(After(k, turns), cfg, dir)
    requires budget == if dir.Out? then cfg.budgetOut else cfg.budgetIn
    requires root == ShapingRoot(After(k, turns), dir) && cs == Applied(After(k, turns), dir) != map[]
    requires Enumerates(ids, MachineIds(root))
    ensures TotalsBudget(root, ids, budget, |cs|)
  {
    NoCommandEverReports(k, turns);
    AgreedTotal(After(k, turns), dir, budget, root, cs, ids);
  }

  // ---- Outside the condition ----

  /** Where a removed machine holds a wanted id the tables are not the wanted ones: the fresh class is
      deleted right after it is made. */
  lemma StaleIdBreaksTables(s: State, dev: string, dir: Direction, rate: real, want: Classes, o: Orders)
    requires IdsFine(s) && IdsFromTwo(want) && dev in s.kernel
    requires ValidOrders(o, Applied(s, dir), want) && !RemovedApart(Applied(s, dir), want)
    ensures var t := ApplyDirection(s, dev, dir, rate, want, o);
      ShapingDevice(dev, dir) in t.kernel && !Realizes(t.kernel[ShapingDevice(dev, dir)].root, dir, rate, want)
  {
    CompilationRefinesDesired(s.kernel, dev, dir, rate, Applied(s, dir), want, o);
  }
}
