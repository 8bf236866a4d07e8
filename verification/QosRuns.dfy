/**
  Whole runs of the control loop: what always holds, what holds exactly when the class id allocator
  is lucky, and what a cleanup leaves behind.
 */
module QosRuns {
  import opened Basics
  import opened TrafficControl
  import opened QosCompiler
  import opened QosEffects
  import opened QosAllocator
  import opened QosActivity
  import opened QosModel

  // ---- Entries and the class map made from them ----

  ghost function EntryNames(entries: seq<Entry>): set<string> {
    set e | e in entries :: e.name
  }

  lemma {:induction false} WantShape(entries: seq<Entry>, ids: map<string, int>)
    requires forall e :: e in entries ==> e.name in ids
    ensures var want := WantOf(entries, ids);
      && want.Keys == EntryNames(entries)
      && (forall n :: n in want ==> want[n].id == ids[n])
      && (forall n :: n in want ==>
          exists e :: e in entries && e.name == n && e.rate == want[n].rate && e.port == want[n].port)
    decreases entries
  {
    if entries == [] {
    } else {
      var front, last := entries[..|entries|-1], entries[|entries|-1];
      WantShape(front, ids);
      assert forall e :: e in entries <==> e in front || e == last;
    }
  }

  ghost function Admitted(s: State, p: Plan): set<string> {
    p.outward.want.Keys + p.inward.want.Keys - s.alloc.ids.Keys
  }

  /** What the rest of the proofs know about a plan: it gives an id to everyone wanted, new ids only
      to those without one, and a direction is enabled exactly when something is wanted in it. */
  ghost predicate PlanOk(s: State, p: Plan) {
    && Extends(s.alloc, Admitted(s, p), p.alloc)
    && (forall n :: n in p.outward.want ==> n in p.alloc.ids && p.outward.want[n].id == p.alloc.ids[n])
    && (forall n :: n in p.inward.want ==> n in p.alloc.ids && p.inward.want[n].id == p.alloc.ids[n])
    && (p.outward.enabled <==> p.outward.want != map[])
    && (p.inward.enabled <==> p.inward.want != map[])
  }

  lemma NewNamesOfEntries(a: Alloc, entries: seq<Entry>)
    ensures NewNames(a, Names(entries)) == EntryNames(entries) - a.ids.Keys
  {
    forall n | n in EntryNames(entries)
      ensures n in Names(entries)
    {
      var e :| e in entries && e.name == n;
      var i :| 0 <= i < |entries| && entries[i] == e;
      assert Names(entries)[i] == n;
    }
    forall n | n in Names(entries)
      ensures n in EntryNames(entries)
    {
      var i :| 0 <= i < |entries| && Names(entries)[i] == n;
      assert entries[i] in entries;
    }
  }

  lemma DesiredShape(samples: seq<MachineSample>, dir: Direction, cfg: QosConfig, a: Alloc)
    ensures var (d, b) := DesiredFor(samples, dir, cfg, a);
      && Extends(a, d.want.Keys - a.ids.Keys, b)
      && (forall n :: n in d.want ==> n in b.ids && d.want[n].id == b.ids[n])
      && (d.enabled <==> d.want != map[])
      && b == AssignAll(a, Names(Entries(samples, dir, cfg)))
      && d.want.Keys == EntryNames(Entries(samples, dir, cfg))
      && (forall n :: n in d.want ==>
          exists e :: e in Entries(samples, dir, cfg) &&
            e.name == n && e.rate == d.want[n].rate && e.port == d.want[n].port)
  {
    var entries := Entries(samples, dir, cfg);
    var b := AssignAll(a, Names(entries));
    NamesHaveIds(a, entries);
    WantShape(entries, b.ids);
    AssignAllShape(a, Names(entries));
    NewNamesOfEntries(a, entries);
    if entries != [] {
      assert entries[0].name in EntryNames(entries);
    }
  }

  lemma JoinAdmitted(had: set<string>, first: set<string>, second: set<string>, mid: set<string>)
    requires mid == had + (first - had)
    ensures (first - had) + (second - mid) == first + second - had
  {
  }

  lemma TwoDesired(a: Alloc, outward: Desired, b: Alloc, inward: Desired, c: Alloc)
    requires Extends(a, outward.want.Keys - a.ids.Keys, b) && Extends(b, inward.want.Keys - b.ids.Keys, c)
    requires forall n :: n in outward.want ==> n in b.ids && outward.want[n].id == b.ids[n]
    ensures Extends(a, outward.want.Keys + inward.want.Keys - a.ids.Keys, c)
    ensures forall n :: n in outward.want ==> n in c.ids && outward.want[n].id == c.ids[n]
  {
    var x, y := outward.want.Keys - a.ids.Keys, inward.want.Keys - b.ids.Keys;
    ExtendsTwice(a, x, b, y, c);
    JoinAdmitted(a.ids.Keys, outward.want.Keys, inward.want.Keys, b.ids.Keys);
  }

  lemma PlanIsOk(s: State, r: Round)
    requires r.samples.Some?
    ensures PlanOk(s, PlanRound(s, r))
  {
    var p := PlanRound(s, r);
    var flagged := Flag(r.samples.value, p.activity.active);
    var (outward, a1) := DesiredFor(flagged, Out, r.cfg, s.alloc);
    var (inward, a2) := DesiredFor(flagged, In, r.cfg, a1);
    DesiredShape(flagged, Out, r.cfg, s.alloc);
    DesiredShape(flagged, In, r.cfg, a1);
    TwoDesired(s.alloc, outward, a1, inward, a2);
  }

  lemma {:induction false} UnusedShape(order: seq<string>, want: Classes, other: Classes)
    ensures forall n :: n in UnusedNames(order, want, other) <==> n in order && n !in want && n !in other
    decreases order
  {
    if order == [] {
    } else {
      UnusedShape(order[..|order|-1], want, other);
      assert forall n :: n in order <==> n in order[..|order|-1] || n == order[|order|-1];
    }
  }

  // ---- What always holds ----

  /** No id below 2 is ever live or applied. */
  ghost predicate IdsFine(s: State) {
    FromTwo(s.alloc) && IdsFromTwo(s.appliedOut) && IdsFromTwo(s.appliedIn)
  }

  ghost function SteeredKernel(s: State, dir: Direction, d: Desired, o: Orders): Kernel
    requires d.enabled ==> ValidOrders(o, Applied(s, dir), d.want)
  {
    if d.enabled then ApplyKernel(s.kernel, s.iface, dir, AppliedRoot(dir, d.rootRate, Applied(s, dir), d.want, o))
    else ClearKernel(s.kernel, s.iface, dir)
  }

  lemma ApplyShape(s: State, dir: Direction, d: Desired, o: Orders)
    requires ValidOrders(o, Applied(s, dir), d.want)
    requires IdsFine(s) && IdsFromTwo(d.want)
    ensures var t := ApplyDirection(s, s.iface, dir, d.rootRate, d.want, o);
      && FromTwo(t.alloc) && t.lastErr == s.lastErr
      && t.kernel == ApplyKernel(s.kernel, s.iface, dir, AppliedRoot(dir, d.rootRate, Applied(s, dir), d.want, o))
  {
    ExtendsNothing(s.alloc);
    FromTwoKept(s.alloc, {}, s.alloc, UnusedNames(o.remove, d.want, Other(s, dir)));
    ApplyRuns(s.kernel, s.iface, dir, d.rootRate, Applied(s, dir), d.want, o);
  }

  /** Steering a direction reports nothing and touches the kernel as its closed form says. */
  lemma SteerShape(s: State, dir: Direction, d: Desired, o: Orders)
    requires d.enabled ==> ValidOrders(o, Applied(s, dir), d.want)
    requires IdsFine(s) && IdsFromTwo(d.want) && (d.enabled <==> d.want != map[])
    ensures var t := SteerDirection(s, dir, d, o);
      && IdsFine(t) && t.lastErr == s.lastErr && t.iface == s.iface && t.activity == s.activity
      && Applied(t, dir) == d.want && Other(t, dir) == Other(s, dir)
      && t.kernel == SteeredKernel(s, dir, d, o)
  {
    if d.enabled {
      ApplyShape(s, dir, d, o);
    } else {
      ClearRuns(s.kernel, s.iface, dir);
    }
  }

  lemma PlannedIdsFine(s: State, dev: string, p: Plan)
    requires IdsFine(s) && PlanOk(s, p)
    ensures IdsFine(Planned(s, dev, p)) && IdsFromTwo(p.outward.want) && IdsFromTwo(p.inward.want)
  {
    FromTwoKept(s.alloc, Admitted(s, p), p.alloc, []);
  }

  /** The two steps of a plan, with the state between them. */
  lemma CarryShape(s: State, dev: string, p: Plan, o: RoundOrders) returns (t: State, u: State)
    requires IdsFine(s) && PlanOk(s, p) && ValidPlanOrders(s, p, o)
    ensures t == Planned(s, dev, p)
    ensures u == SteerDirection(t, Out, p.outward, o.outward)
    ensures CarryOut(s, dev, p, o) == SteerDirection(u, In, p.inward, o.inward)
    ensures IdsFine(t) && IdsFine(u) && IdsFine(CarryOut(s, dev, p, o))
    ensures u.kernel == SteeredKernel(t, Out, p.outward, o.outward)
    ensures u.appliedOut == p.outward.want && u.appliedIn == s.appliedIn && u.iface == dev
    ensures CarryOut(s, dev, p, o).kernel == SteeredKernel(u, In, p.inward, o.inward)
    ensures IdsFromTwo(p.outward.want) && IdsFromTwo(p.inward.want)
    ensures var v := CarryOut(s, dev, p, o);
      && v.iface == dev && v.lastErr == None && v.activity == p.activity
      && v.appliedOut == p.outward.want && v.appliedIn == p.inward.want
  {
    t := Planned(s, dev, p);
    PlannedIdsFine(s, dev, p);
    u := SteerDirection(t, Out, p.outward, o.outward);
    SteerShape(t, Out, p.outward, o.outward);
    SteerShape(u, In, p.inward, o.inward);
  }

  /** A cleanup issues only benign failures, forgets every applied class, and releases no id. */
  lemma CleanupShape(s: State)
    ensures var t := CleanupAll(s);
      && t == s.(appliedOut := map[], appliedIn := map[], activity := IDLE,
                 kernel := ClearKernel(ClearKernel(s.kernel, s.iface, Out), s.iface, In))
  {
    ClearRuns(s.kernel, s.iface, Out);
    ClearRuns(ClearKernel(s.kernel, s.iface, Out), s.iface, In);
  }

  // ---- Runs ----

  datatype Turn = Tick(round: Round, orders: RoundOrders) | Stop

  ghost predicate ValidTurn(s: State, t: Turn) {
    t.Tick? ==> ValidRoundOrders(s, t.round, t.orders)
  }

  ghost function Take(s: State, t: Turn): State
    requires ValidTurn(s, t)
  {
    if t.Stop? then CleanupAll(s) else Reconcile(s, t.round, t.orders)
  }

  function Start(k: Kernel): State {
    State("", IDLE, map[], map[], Alloc(map[], FIRST_CLASS_ID), None, k)
  }

  ghost predicate ValidRun(k: Kernel, turns: seq<Turn>)
    decreases turns, 0
  {
    turns == [] || (ValidRun(k, turns[..|turns|-1]) && ValidTurn(After(k, turns[..|turns|-1]), turns[|turns|-1]))
  }

  /** The state after a run that starts on kernel `k`. */
  ghost function After(k: Kernel, turns: seq<Turn>): State
    requires ValidRun(k, turns)
    decreases turns, 1
  {
    if turns == [] then Start(k) else Take(After(k, turns[..|turns|-1]), turns[|turns|-1])
  }

  ghost predicate Cleans(s: State, t: Turn) {
    t.Tick? ==> !Shapes(s, t.round)
  }

  lemma TakeCleans(s: State, t: Turn)
    requires ValidTurn(s, t) && Cleans(s, t)
    ensures var u := Take(s, t);
      var dev := if t.Tick? then Iface(s, t.round) else s.iface;
      && u.iface == dev && u.appliedOut == map[] && u.appliedIn == map[] && u.activity == IDLE && u.alloc == s.alloc
      && u.kernel == ClearKernel(ClearKernel(s.kernel, dev, Out), dev, In)
      && (t.Tick? && dev == "" ==> u.lastErr == Some(NoInterface))
      && (t.Tick? && dev != "" && t.round.cfg.mode == "off" ==> u.lastErr == None)
      && (t.Tick? && dev != "" && t.round.cfg.mode != "off" ==> u.lastErr == Some(SampleFailed))
      && (t.Stop? ==> u.lastErr == s.lastErr)
  {
    if t.Stop? {
      CleanupShape(s);
    } else {
      var w := s.(iface := Iface(s, t.round));
      if w.iface == "" {
        CleanupShape(w.(lastErr := Some(NoInterface)));
      } else if t.round.cfg.mode == "off" {
        CleanupShape(w);
      } else {
        CleanupShape(w.(lastErr := Some(SampleFailed)));
      }
    }
  }

  lemma TakeIdsFine(s: State, t: Turn)
    requires ValidTurn(s, t) && IdsFine(s)
    ensures IdsFine(Take(s, t))
    ensures t.Tick? && Shapes(s, t.round) ==> Take(s, t).lastErr.None?
    ensures !(t.Tick? && Shapes(s, t.round)) ==> Take(s, t).alloc == s.alloc
  {
    if t.Tick? && Shapes(s, t.round) {
      PlanIsOk(s, t.round);
      var _, _ := CarryShape(s, Iface(s, t.round), PlanRound(s, t.round), t.orders);
    } else {
      TakeCleans(s, t);
    }
  }

  /** On every run no id is below 2 and no command failure is ever reported. */
  lemma {:induction false} NoCommandEverReports(k: Kernel, turns: seq<Turn>)
    requires ValidRun(k, turns)
    ensures IdsFine(After(k, turns))
    ensures After(k, turns).lastErr.None? || After(k, turns).lastErr.value in {NoInterface, SampleFailed}
    decreases turns
  {
    if turns == [] {
    } else {
      var front, t := turns[..|turns|-1], turns[|turns|-1];
      NoCommandEverReports(k, front);
      TakeIdsFine(After(k, front), t);
      if Cleans(After(k, front), t) {
        TakeCleans(After(k, front), t);
      }
    }
  }

  // ---- Where rules can lie ----

  /** Apart from `dev`'s root and ingress and the device ifb0, the kernel is as it was. */
  ghost predicate OnlyOn(was: Kernel, dev: string, k: Kernel) {
    && was.Keys <= k.Keys <= was.Keys + {IFB_DEV}
    && (forall d :: d in was && d != dev && d != IFB_DEV ==> k[d] == was[d])
    && (dev in was && dev != IFB_DEV ==> k[dev].up == was[dev].up)
    && (IFB_DEV in was && dev != IFB_DEV ==> k[IFB_DEV].ingress == was[IFB_DEV].ingress)
    && (IFB_DEV !in was && IFB_DEV in k && dev != IFB_DEV ==> k[IFB_DEV].ingress == None)
  }

  lemma ApplyOnlyOn(was: Kernel, k: Kernel, dev: string, dir: Direction, root: RootQdisc)
    requires OnlyOn(was, dev, k)
    ensures OnlyOn(was, dev, ApplyKernel(k, dev, dir, root))
  {
  }

  lemma ClearOnlyOn(was: Kernel, k: Kernel, dev: string, dir: Direction)
    requires OnlyOn(was, dev, k)
    ensures OnlyOn(was, dev, ClearKernel(k, dev, dir))
  {
  }

  /** Before an interface is known nothing but ifb0's root can have been touched. */
  lemma NamelessOnlyOn(was: Kernel, k: Kernel, dev: string)
    requires "" !in was && OnlyOn(was, "", k)
    ensures OnlyOn(was, dev, k)
  {
  }

  lemma SteerOnlyOn(was: Kernel, s: State, dir: Direction, d: Desired, o: Orders)
    requires d.enabled ==> ValidOrders(o, Applied(s, dir), d.want)
    requires OnlyOn(was, s.iface, s.kernel)
    ensures OnlyOn(was, s.iface, SteeredKernel(s, dir, d, o))
  {
    if d.enabled {
      ApplyOnlyOn(was, s.kernel, s.iface, dir, AppliedRoot(dir, d.rootRate, Applied(s, dir), d.want, o));
    } else {
      ClearOnlyOn(was, s.kernel, s.iface, dir);
    }
  }

  lemma CarryOnlyOn(was: Kernel, s: State, dev: string, p: Plan, o: RoundOrders)
    requires IdsFine(s) && PlanOk(s, p) && ValidPlanOrders(s, p, o)
    requires OnlyOn(was, dev, s.kernel)
    ensures OnlyOn(was, dev, CarryOut(s, dev, p, o).kernel)
  {
    var t, u := CarryShape(s, dev, p, o);
    SteerOnlyOn(was, t, Out, p.outward, o.outward);
    SteerOnlyOn(was, u, In, p.inward, o.inward);
  }

  lemma TurnOnlyOn(was: Kernel, s: State, t: Turn, dev: string)
    requires ValidTurn(s, t) && IdsFine(s) && "" !in was && OnlyOn(was, dev, s.kernel)
    requires dev == if t.Tick? then Iface(s, t.round) else s.iface
    ensures Take(s, t).iface == dev && OnlyOn(was, dev, Take(s, t).kernel)
  {
    if Cleans(s, t) {
      TakeCleans(s, t);
      ClearOnlyOn(was, s.kernel, dev, Out);
      ClearOnlyOn(was, ClearKernel(s.kernel, dev, Out), dev, In);
    } else {
      PlanIsOk(s, t.round);
      var _, _ := CarryShape(s, dev, PlanRound(s, t.round), t.orders);
      CarryOnlyOn(was, s, dev, PlanRound(s, t.round), t.orders);
    }
  }

  /** On every run the rules lie on the interface's root and ingress and on ifb0, nowhere else. */
  lemma {:induction false} RulesStayPut(k: Kernel, turns: seq<Turn>)
    requires ValidRun(k, turns) && "" !in k
    ensures OnlyOn(k, After(k, turns).iface, After(k, turns).kernel)
    decreases turns
  {
    if turns == [] {
    } else {
      var front, t := turns[..|turns|-1], turns[|turns|-1];
      var s := After(k, front);
      RulesStayPut(k, front);
      NoCommandEverReports(k, front);
      var dev := if t.Tick? then Iface(s, t.round) else s.iface;
      if s.iface == "" {
        NamelessOnlyOn(k, s.kernel, dev);
      }
      TurnOnlyOn(k, s, t, dev);
    }
  }

  lemma TakeIface(s: State, t: Turn)
    requires ValidTurn(s, t) && IdsFine(s)
    ensures Take(s, t).iface == if t.Tick? then Iface(s, t.round) else s.iface
  {
    if Cleans(s, t) {
      TakeCleans(s, t);
    } else {
      PlanIsOk(s, t.round);
      var _, _ := CarryShape(s, Iface(s, t.round), PlanRound(s, t.round), t.orders);
    }
  }

  /** The interface of the first round that has one: the configured one, or else the one detected then. */
  function FirstChosen(turns: seq<Turn>): string
    decreases turns
  {
    if turns == [] then ""
    else
      var chosen, t := FirstChosen(turns[..|turns|-1]), turns[|turns|-1];
      if chosen != "" || t.Stop? then chosen
      else if t.round.cfg.interface_ != "" then t.round.cfg.interface_
      else t.round.detected
  }

  /** After any run the interface is that one. */
  lemma {:induction false} IfaceIsFirstChosen(k: Kernel, turns: seq<Turn>)
    requires ValidRun(k, turns)
    ensures After(k, turns).iface == FirstChosen(turns)
    decreases turns
  {
    if turns == [] {
    } else {
      var front := turns[..|turns|-1];
      IfaceIsFirstChosen(k, front);
      NoCommandEverReports(k, front);
      TakeIface(After(k, front), turns[|turns|-1]);
    }
  }

  /** Once chosen, the interface never changes. */
  lemma {:induction false} IfaceFixed(k: Kernel, turns: seq<Turn>, i: int)
    requires ValidRun(k, turns) && 0 <= i <= |turns|
    requires ValidRun(k, turns[..i]) && After(k, turns[..i]).iface != ""
    ensures After(k, turns).iface == After(k, turns[..i]).iface
    decreases turns
  {
    if i < |turns| {
      var front, t := turns[..|turns|-1], turns[|turns|-1];
      assert front[..i] == turns[..i];
      IfaceFixed(k, front, i);
      NoCommandEverReports(k, front);
      TakeIface(After(k, front), t);
    } else {
      assert turns[..i] == turns;
    }
  }

  /** The kernel as the service found it, with its own places emptied. */
  ghost predicate Restored(was: Kernel, dev: string, k: Kernel) {
    && OnlyOn(was, dev, k)
    && (dev in was ==> k[dev].root == Default && k[dev].ingress == None)
    && (IFB_DEV in k ==> k[IFB_DEV].root == Default)
  }

  /** A run that ends with a cleanup leaves no qdisc, class, filter or hook anywhere, and an empty
      controller. */
  lemma CleanupLeavesNothing(k: Kernel, turns: seq<Turn>)
    requires ValidRun(k, turns) && "" !in k
    requires turns != [] && Cleans(After(k, turns[..|turns|-1]), turns[|turns|-1])
    ensures var s := After(k, turns);
      && Restored(k, s.iface, s.kernel)
      && s.appliedOut == map[] && s.appliedIn == map[] && s.activity == IDLE
  {
    RulesStayPut(k, turns);
    TakeCleans(After(k, turns[..|turns|-1]), turns[|turns|-1]);
  }
}
