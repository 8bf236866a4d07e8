/**
  Runs of the controller, from its start on any kernel with the interface, that leave the conditions
  of `QosAgreement`: live ids that collide, and an id that is given back while a class still uses it.
 */
module QosWitnesses {
  import opened Basics
  import opened TrafficControl
  import opened QosCompiler
  import opened QosAllocator
  import opened QosActivity
  import opened QosShares
  import opened QosModel
  import opened QosRuns
  import opened QosAgreement

  // ---- A round told by the names it wants ----

  /** The names that a round wants outbound and inbound, in the order in which it admits them. */
  ghost predicate WantsNames(s: State, r: Round, outs: seq<string>, ins: seq<string>)
    requires r.samples.Some?
  {
    var flagged := Flag(r.samples.value, PlanRound(s, r).activity.active);
    Names(Entries(flagged, Out, r.cfg)) == outs && Names(Entries(flagged, In, r.cfg)) == ins
  }

  /** `cs` are classes for exactly the names, with their ids. */
  ghost predicate ClassesOf(cs: Classes, names: seq<string>, ids: map<string, int>) {
    && (forall n :: n in cs <==> n in names)
    && (forall n :: n in cs ==> n in ids && cs[n].id == ids[n])
  }

  lemma NamesOfEntries(entries: seq<Entry>)
    ensures forall n :: n in EntryNames(entries) <==> n in Names(entries)
  {
    NewNamesOfEntries(Alloc(map[], FIRST_CLASS_ID), entries);
    assert NewNames(Alloc(map[], FIRST_CLASS_ID), Names(entries)) == EntryNames(entries);
    assert forall n :: n in Names(entries) <==> n in NewNames(Alloc(map[], FIRST_CLASS_ID), Names(entries));
  }

  lemma PlanByNames(s: State, r: Round, outs: seq<string>, ins: seq<string>)
    requires r.samples.Some? && WantsNames(s, r, outs, ins)
    ensures var p, b := PlanRound(s, r), AssignAll(AssignAll(s.alloc, outs), ins);
      p.alloc == b && ClassesOf(p.outward.want, outs, b.ids) && ClassesOf(p.inward.want, ins, b.ids)
  {
    var flagged, a1 := PlanParts(s, r);
    DesiredShape(flagged, Out, r.cfg, s.alloc);
    DesiredShape(flagged, In, r.cfg, a1);
    NamesOfEntries(Entries(flagged, Out, r.cfg));
    NamesOfEntries(Entries(flagged, In, r.cfg));
    PlanIsOk(s, r);
  }

  /** What a round that wants these names does to applied classes and ids, in any map orders. */
  lemma RoundBy(s: State, r: Round, o: RoundOrders, outs: seq<string>, ins: seq<string>) returns (freed: seq<string>)
    requires Shapes(s, r) && ValidRoundOrders(s, r, o) && IdsFine(s) && WantsNames(s, r, outs, ins)
    ensures var u, p, b := Reconcile(s, r, o), PlanRound(s, r), AssignAll(AssignAll(s.alloc, outs), ins);
      && PlanOk(s, p) && p.alloc == b && p.outward.want == u.appliedOut && p.inward.want == u.appliedIn
      && ClassesOf(u.appliedOut, outs, b.ids) && ClassesOf(u.appliedIn, ins, b.ids)
      && u.alloc == ReleaseAll(b, freed) && (forall n :: n in freed <==> Freed(s, p, n))
      && u.iface == Iface(s, r) && IdsFine(u)
  {
    var p := PlanRound(s, r);
    PlanIsOk(s, r);
    PlanByNames(s, r, outs, ins);
    var _, _ := CarryShape(s, Iface(s, r), p, o);
    freed := CarryAlloc(s, Iface(s, r), p, o);
  }

  // ---- Automatic rounds in which every online machine is over the threshold ----

  function OnlineList(samples: seq<MachineSample>): seq<string>
    decreases samples
  {
    if samples == [] then []
    else OnlineList(samples[..|samples|-1]) + if samples[|samples|-1].online then [samples[|samples|-1].name] else []
  }

  lemma {:induction false} LoudEntries(samples: seq<MachineSample>, flagged: seq<MachineSample>, share: real)
    requires |flagged| == |samples|
    requires forall i :: 0 <= i < |samples| ==> flagged[i] == samples[i].(active := flagged[i].active)
    requires forall i :: 0 <= i < |samples| && samples[i].online ==> flagged[i].active
    ensures Names(AutoEntries(flagged, share)) == OnlineList(samples)
    ensures CountActive(flagged) == |OnlineList(samples)|
    decreases samples
  {
    if samples == [] {
    } else {
      LoudEntries(samples[..|samples|-1], flagged[..|flagged|-1], share);
    }
  }

  /** Budget outbound only, and every online machine busy. */
  ghost predicate Loud(r: Round) {
    && r.samples.Some? && UniqueNames(r.samples.value)
    && r.cfg.mode != "manual" && r.cfg.budgetOut > 0.0 && r.cfg.budgetIn <= 0.0
    && (forall i :: 0 <= i < |r.samples.value| && r.samples.value[i].online ==>
      Over(r.samples.value[i], r.cfg.activeKBps * 1024.0))
  }

  lemma LoudWants(s: State, r: Round)
    requires Loud(r) && OnlineList(r.samples.value) != []
    ensures WantsNames(s, r, OnlineList(r.samples.value), [])
  {
    var samples, act := r.samples.value, PlanRound(s, r).activity.active;
    var flagged, a1 := PlanParts(s, r);
    var e := Event.Round(samples, r.cfg.activeKBps * 1024.0, r.cfg.hysteresisSec * SECOND, r.now);
    forall i | 0 <= i < |samples| && samples[i].online
      ensures flagged[i].active
    {
      assert samples[i] in samples;
      assert OverIn(e, samples[i].name);
      UpdateSeen(s.activity, e, samples[i].name);
    }
    LoudEntries(samples, flagged, 0.0);
    LoudEntries(samples, flagged, Share(r.cfg.budgetOut, CountActive(flagged)));
    assert Names([]) == [];
  }

  // ---- A first round in which nobody is over the threshold ----

  /** Nobody is over the threshold. */
  ghost predicate QuietRound(r: Round, dev: string) {
    && r.samples.Some? && UniqueNames(r.samples.value)
    && dev != "" && r.cfg.interface_ == dev && r.cfg.mode != "off" && r.cfg.mode != "manual"
    && forall m :: m in r.samples.value ==> !Over(m, r.cfg.activeKBps * 1024.0)
  }

  lemma NobodyActive(samples: seq<MachineSample>, threshold: real, window: int, now: int)
    requires UniqueNames(samples) && forall m :: m in samples ==> !Over(m, threshold)
    ensures UpdateActive(IDLE, samples, threshold, window, now).active == {}
  {
    var e := Event.Round(samples, threshold, window, now);
    forall name: string
      ensures name !in Step(IDLE, e).active
    {
      UpdateSeen(IDLE, e, name);
    }
  }

  lemma NoEntries(flagged: seq<MachineSample>, dir: Direction, cfg: QosConfig)
    requires UniqueNames(flagged) && CountedNames(flagged) == {} && cfg.mode != "manual"
    ensures Names(Entries(flagged, dir, cfg)) == []
  {
    AutoShape(flagged, 0.0);
    assert Entries(flagged, dir, cfg) == [];
  }

  lemma QuietWants(s: State, r: Round, dev: string)
    requires QuietRound(r, dev) && s.activity == IDLE
    ensures WantsNames(s, r, [], [])
  {
    var flagged, a1 := PlanParts(s, r);
    NobodyActive(r.samples.value, r.cfg.activeKBps * 1024.0, r.cfg.hysteresisSec * SECOND, r.now);
    CountedAreActive(s.activity, r.samples.value, r.cfg.activeKBps * 1024.0, r.cfg.hysteresisSec * SECOND, r.now);
    FlagKeepsNames(r.samples.value, PlanRound(s, r).activity.active);
    NoEntries(flagged, Out, r.cfg);
    NoEntries(flagged, In, r.cfg);
  }

  // ---- Allocator steps of the runs below ----

  lemma NothingReleased(a: Alloc, freed: seq<string>)
    requires forall n :: n !in freed
    ensures ReleaseAll(a, freed) == a
  {
    ReleaseAllShape(a, freed);
    assert Held(a, freed) == {};
  }

  lemma OneReleased(a: Alloc, freed: seq<string>, x: string)
    requires x in a.ids && a.ids[x] < a.nextID && forall n :: n in freed <==> n == x
    ensures ReleaseAll(a, freed) == Alloc(a.ids - {x}, a.ids[x])
  {
    ReleaseAllShape(a, freed);
    assert Held(a, freed) == {x};
  }

  lemma AssignOne(a: Alloc, x: string)
    ensures AssignAll(a, [x]) == ClassID(a, x)
  {
    assert [x][..0] == [];
    assert AssignAll(a, []) == a;
  }

  lemma AssignMore(a: Alloc, names: seq<string>, x: string)
    ensures AssignAll(a, names + [x]) == ClassID(AssignAll(a, names), x)
  {
    assert (names + [x])[..|names|] == names;
  }

  // ---- Colliding ids ----

  /** A loud round on `dev` with these machines online, in this order. */
  ghost predicate LoudRound(r: Round, dev: string, names: seq<string>) {
    && Loud(r) && dev != "" && r.cfg.interface_ == dev && r.cfg.mode != "off"
    && names != [] && OnlineList(r.samples.value) == names && DistinctOnlinePorts(r.samples.value)
  }

  /** Between two rounds of such a run. */
  ghost predicate Between(s: State, dev: string, outs: set<string>, alloc: Alloc) {
    IdsFine(s) && s.iface == dev && s.appliedOut.Keys == outs && s.appliedIn == map[] && s.alloc == alloc
  }

  /** A loud round from `s` to `u`, with plan `p`: its machines are admitted in turn, and those that
      have gone give back their ids. */
  ghost predicate LoudEffect(s: State, p: Plan, u: State, dev: string, names: seq<string>, freed: seq<string>) {
    var b := AssignAll(s.alloc, names);
    && IdsFine(u) && u.iface == dev && u.appliedIn == map[]
    && PlanOk(s, p) && p.alloc == b && !CrossRelease(s, p) && ClassesOf(u.appliedOut, names, b.ids)
    && u.alloc == ReleaseAll(b, freed)
    && forall n :: n in freed <==> n in s.appliedOut && n !in names
  }

  lemma LoudStep(s: State, r: Round, o: RoundOrders, dev: string, names: seq<string>)
    returns (p: Plan, u: State, freed: seq<string>)
    requires LoudRound(r, dev, names) && IdsFine(s) && s.appliedIn == map[] && (s.iface == "" || s.iface == dev)
    requires ValidRoundOrders(s, r, o)
    ensures Shapes(s, r) && Iface(s, r) == dev
    ensures p == PlanRound(s, r) && u == Take(s, Tick(r, o)) && LoudEffect(s, p, u, dev, names, freed)
    ensures TurnFits(s, Tick(r, o)) <==> Fits(s, p)
  {
    LoudWants(s, r);
    freed := RoundBy(s, r, o, names, []);
    AutoNeverCrosses(s, r);
    p, u := PlanRound(s, r), Reconcile(s, r, o);
    assert AssignAll(AssignAll(s.alloc, names), []) == AssignAll(s.alloc, names);
    assert names[0] in u.appliedOut;
  }

  lemma AssignTwo(a: Alloc, x: string, y: string)
    ensures AssignAll(a, [x, y]) == ClassID(ClassID(a, x), y)
  {
    AssignOne(a, x);
    AssignMore(a, [x], y);
    assert [x] + [y] == [x, y];
  }

  lemma AssignThree(a: Alloc, x: string, y: string, z: string)
    ensures AssignAll(a, [x, y, z]) == ClassID(ClassID(ClassID(a, x), y), z)
  {
    AssignTwo(a, x, y);
    AssignMore(a, [x, y], z);
    assert [x, y] + [z] == [x, y, z];
  }

  lemma FirstTwo(start: Alloc, a: string, b: string)
    requires start == Alloc(map[], 2) && a != b
    ensures AssignAll(start, [a, b]) == Alloc(map[a := 2, b := 3], 4)
  {
    AssignTwo(start, a, b);
    assert ClassID(start, a) == Alloc(map[a := 2], 3);
  }

  lemma FirstGone(start: Alloc, freed: seq<string>, a: string, b: string)
    requires start == Alloc(map[a := 2, b := 3], 4) && a != b && forall n :: n in freed <==> n == a
    ensures AssignAll(start, [b]) == start && ReleaseAll(start, freed) == Alloc(map[b := 3], 2)
  {
    AssignOne(start, b);
    OneReleased(start, freed, a);
    assert start.ids - {a} == map[b := 3];
  }

  lemma TwoAfter(start: Alloc, b: string, c: string, d: string)
    requires start == Alloc(map[b := 3], 2) && b != c && c != d && b != d
    ensures AssignAll(start, [b, c, d]) == Alloc(map[b := 3, c := 2, d := 3], 4)
  {
    AssignThree(start, b, c, d);
    assert ClassID(start, c) == Alloc(map[b := 3, c := 2], 3);
  }

  lemma SameIds(a: Alloc, b: string, c: string, d: string)
    requires a == Alloc(map[b := 3, c := 2, d := 3], 4) && b != c && c != d && b != d
    ensures !Injective(a) && a.ids[b] == a.ids[d] == 3
  {
    assert b in a.ids && d in a.ids && a.ids[b] == a.ids[d];
  }

  lemma KeysAre(cs: Classes, names: seq<string>, ids: map<string, int>, keys: set<string>)
    requires ClassesOf(cs, names, ids) && forall n :: n in names <==> n in keys
    ensures cs.Keys == keys
  {
  }

  lemma QuietEffect(s: State, p: Plan, u: State, freed: seq<string>, dev: string)
    requires s.alloc == Alloc(map[], 2) && s.appliedOut == map[] && s.appliedIn == map[]
    requires PlanOk(s, p) && p.alloc == s.alloc && u.alloc == ReleaseAll(s.alloc, freed)
    requires forall n :: n in freed <==> Freed(s, p, n)
    requires IdsFine(u) && u.iface == dev
    requires ClassesOf(u.appliedOut, [], s.alloc.ids) && ClassesOf(u.appliedIn, [], s.alloc.ids)
    ensures Between(u, dev, {}, Alloc(map[], 2)) && Fits(s, p)
  {
    NothingReleased(s.alloc, freed);
    KeysAre(u.appliedOut, [], s.alloc.ids, {});
    KeysAre(u.appliedIn, [], s.alloc.ids, {});
    CompactAdmits(s.alloc, Admitted(s, p), p.alloc);
  }

  lemma QuietStart(k: Kernel, r: Round, o: RoundOrders, dev: string)
    requires QuietRound(r, dev) && ValidRoundOrders(Start(k), r, o)
    ensures Between(Take(Start(k), Tick(r, o)), dev, {}, Alloc(map[], 2)) && TurnFits(Start(k), Tick(r, o))
  {
    var s := Start(k);
    QuietWants(s, r, dev);
    var freed := RoundBy(s, r, o, [], []);
    AutoNeverCrosses(s, r);
    assert AssignAll(AssignAll(s.alloc, []), []) == s.alloc;
    QuietEffect(s, PlanRound(s, r), Reconcile(s, r, o), freed, dev);
  }

  lemma TwoJoined(s: State, p: Plan, u: State, freed: seq<string>, dev: string, a: string, b: string)
    requires LoudEffect(s, p, u, dev, [a, b], freed) && a != b && Between(s, dev, {}, Alloc(map[], 2))
    ensures Between(u, dev, {a, b}, Alloc(map[a := 2, b := 3], 4)) && Fits(s, p)
  {
    FirstTwo(s.alloc, a, b);
    KeysAre(u.appliedOut, [a, b], p.alloc.ids, {a, b});
    NothingReleased(p.alloc, freed);
    CompactAdmits(s.alloc, Admitted(s, p), p.alloc);
  }

  lemma TwoJoin(s: State, r: Round, o: RoundOrders, dev: string, a: string, b: string)
    requires LoudRound(r, dev, [a, b]) && a != b && Between(s, dev, {}, Alloc(map[], 2))
    requires ValidRoundOrders(s, r, o)
    ensures Between(Take(s, Tick(r, o)), dev, {a, b}, Alloc(map[a := 2, b := 3], 4)) && TurnFits(s, Tick(r, o))
  {
    var p, u, freed := LoudStep(s, r, o, dev, [a, b]);
    TwoJoined(s, p, u, freed, dev, a, b);
  }

  lemma TwoHeld(held: Alloc, a: string, b: string)
    requires held == Alloc(map[a := 2, b := 3], 4) && a != b
    ensures Injective(held) && Compact(held)
  {
  }

  lemma CompactFits(s: State, p: Plan)
    requires PlanOk(s, p) && Injective(s.alloc) && Compact(s.alloc)
    ensures Fits(s, p)
  {
    CompactAdmits(s.alloc, Admitted(s, p), p.alloc);
  }

  lemma OnlyGone(freed: seq<string>, cs: Classes, a: string, b: string)
    requires a != b && cs.Keys == {a, b} && forall n :: n in freed <==> n in cs && n !in [b]
    ensures forall n :: n in freed <==> n == a
  {
    assert a in cs.Keys;
  }

  lemma FirstLeft(s: State, p: Plan, u: State, freed: seq<string>, dev: string, a: string, b: string)
    requires LoudEffect(s, p, u, dev, [b], freed) && a != b && Between(s, dev, {a, b}, Alloc(map[a := 2, b := 3], 4))
    ensures Between(u, dev, {b}, Alloc(map[b := 3], 2)) && Fits(s, p)
  {
    KeysAre(u.appliedOut, [b], p.alloc.ids, {b});
    OnlyGone(freed, s.appliedOut, a, b);
    FirstGone(s.alloc, freed, a, b);
    TwoHeld(s.alloc, a, b);
    CompactFits(s, p);
  }

  lemma FirstLeaves(s: State, r: Round, o: RoundOrders, dev: string, a: string, b: string)
    requires LoudRound(r, dev, [b]) && a != b && Between(s, dev, {a, b}, Alloc(map[a := 2, b := 3], 4))
    requires ValidRoundOrders(s, r, o)
    ensures Between(Take(s, Tick(r, o)), dev, {b}, Alloc(map[b := 3], 2)) && TurnFits(s, Tick(r, o))
  {
    var p, u, freed := LoudStep(s, r, o, dev, [b]);
    FirstLeft(s, p, u, freed, dev, a, b);
  }

  predicate SharesId(cs: Classes, x: string, y: string, id: int) {
    x in cs && y in cs && cs[x].id == cs[y].id == id
  }

  lemma TwoMoreJoined(s: State, p: Plan, u: State, freed: seq<string>, dev: string, b: string, c: string, d: string)
    requires LoudEffect(s, p, u, dev, [b, c, d], freed)
    requires b != c && c != d && b != d && Between(s, dev, {b}, Alloc(map[b := 3], 2))
    ensures !Fits(s, p) && SharesId(u.appliedOut, b, d, 3)
  {
    TwoAfter(s.alloc, b, c, d);
    SameIds(p.alloc, b, c, d);
    assert [b, c, d][0] == b && [b, c, d][2] == d;
    FitsExact(s, p);
  }

  lemma TwoMoreJoin(s: State, r: Round, o: RoundOrders, dev: string, b: string, c: string, d: string)
    requires LoudRound(r, dev, [b, c, d]) && b != c && c != d && b != d && Between(s, dev, {b}, Alloc(map[b := 3], 2))
    requires ValidRoundOrders(s, r, o)
    ensures !TurnFits(s, Tick(r, o)) && Shapes(s, r) && Iface(s, r) == dev
    ensures SharesId(Take(s, Tick(r, o)).appliedOut, b, d, 3)
  {
    var p, u, freed := LoudStep(s, r, o, dev, [b, c, d]);
    TwoMoreJoined(s, p, u, freed, dev, b, c, d);
  }

  lemma LastOf(k: Kernel, turns: seq<Turn>, front: seq<Turn>, t: Turn)
    requires ValidRun(k, turns) && turns == front + [t]
    ensures ValidRun(k, front) && ValidTurn(After(k, front), t)
    ensures After(k, turns) == Take(After(k, front), t)
    ensures RunFits(k, turns) <==> RunFits(k, front) && TurnFits(After(k, front), t)
  {
    assert turns[..|turns|-1] == front;
  }

  lemma PrefixOf(k: Kernel, turns: seq<Turn>, n: int)
    requires ValidRun(k, turns) && 0 < n <= |turns|
    ensures ValidRun(k, turns[..n-1]) && ValidRun(k, turns[..n]) && ValidTurn(After(k, turns[..n-1]), turns[n-1])
    ensures After(k, turns[..n]) == Take(After(k, turns[..n-1]), turns[n-1])
    ensures RunFits(k, turns[..n]) <==> RunFits(k, turns[..n-1]) && TurnFits(After(k, turns[..n-1]), turns[n-1])
    decreases turns
  {
    var front := turns[..|turns|-1];
    assert turns == front + [turns[|turns|-1]];
    if n == |turns| {
      assert turns[..n] == turns;
      LastOf(k, turns, front, turns[n-1]);
    } else {
      PrefixOf(k, front, n);
      assert front[..n] == turns[..n] && front[..n-1] == turns[..n-1];
    }
  }

  /** The rounds of a run in which ids collide: nobody busy, two machines join, the first leaves, and
      two more join. */
  ghost predicate CollidingTurns(turns: seq<Turn>, dev: string, a: string, b: string, c: string, d: string) {
    && |turns| == 4 && turns[0].Tick? && turns[1].Tick? && turns[2].Tick? && turns[3].Tick?
    && QuietRound(turns[0].round, dev) && LoudRound(turns[1].round, dev, [a, b])
    && LoudRound(turns[2].round, dev, [b]) && LoudRound(turns[3].round, dev, [b, c, d])
  }

  lemma CollisionBegins(k: Kernel, turns: seq<Turn>, dev: string, a: string, b: string, c: string, d: string)
    requires a != b && ValidRun(k, turns) && CollidingTurns(turns, dev, a, b, c, d)
    ensures ValidRun(k, turns[..3]) && RunFits(k, turns[..3])
    ensures Between(After(k, turns[..3]), dev, {b}, Alloc(map[b := 3], 2))
  {
    PrefixOf(k, turns, 1);
    QuietStart(k, turns[0].round, turns[0].orders, dev);
    PrefixOf(k, turns, 2);
    TwoJoin(After(k, turns[..1]), turns[1].round, turns[1].orders, dev, a, b);
    PrefixOf(k, turns, 3);
    FirstLeaves(After(k, turns[..2]), turns[2].round, turns[2].orders, dev, a, b);
  }

  lemma LoudEnd(k: Kernel, turns: seq<Turn>, front: seq<Turn>, t: Turn, dev: string, names: seq<string>)
    requires ValidRun(k, turns) && turns == front + [t] && ValidRun(k, front) && t.Tick?
    requires dev in k && dev != IFB_DEV && "" !in k && LoudRound(t.round, dev, names)
    requires Shapes(After(k, front), t.round) && Iface(After(k, front), t.round) == dev
    ensures EndsAutomatic(k, turns)
  {
    assert turns[..|turns|-1] == front;
  }

  lemma CollisionEnds(k: Kernel, turns: seq<Turn>, front: seq<Turn>, t: Turn, dev: string,
                      b: string, c: string, d: string)
    requires dev in k && dev != IFB_DEV && "" !in k && b != c && c != d && b != d
    requires ValidRun(k, turns) && turns == front + [t] && t.Tick? && LoudRound(t.round, dev, [b, c, d])
    requires ValidRun(k, front) && Between(After(k, front), dev, {b}, Alloc(map[b := 3], 2))
    ensures !RunFits(k, turns) && EndsAutomatic(k, turns) && SharesId(After(k, turns).appliedOut, b, d, 3)
  {
    LastOf(k, turns, front, t);
    TwoMoreJoin(After(k, front), t.round, t.orders, dev, b, c, d);
    LoudEnd(k, turns, front, t, dev, [b, c, d]);
  }

  lemma SharedBreaks(k: Kernel, turns: seq<Turn>, b: string, d: string, id: int)
    requires ValidRun(k, turns) && EndsAutomatic(k, turns)
    requires b != d && SharesId(After(k, turns).appliedOut, b, d, id)
    ensures !Agrees(After(k, turns), turns[|turns|-1].round.cfg, Out) && After(k, turns).lastErr == None
  {
    AgreementExact(k, turns, Out);
    assert !DistinctIds(After(k, turns).appliedOut);
  }

  /** On any kernel with the interface, in any map orders: the last of those rounds does not fit, the last
      machine gets the class id of the one that stayed, and afterwards the outbound tables do not agree
      with what is applied. */
  lemma CollisionRun(k: Kernel, turns: seq<Turn>, dev: string, a: string, b: string, c: string, d: string)
    requires dev in k && dev != IFB_DEV && "" !in k && a != b && b != c && c != d && b != d
    requires ValidRun(k, turns) && CollidingTurns(turns, dev, a, b, c, d)
    ensures ValidRun(k, turns[..3]) && RunFits(k, turns[..3]) && !RunFits(k, turns) && EndsAutomatic(k, turns)
    ensures var t := After(k, turns);
      SharesId(t.appliedOut, b, d, 3) && !Agrees(t, turns[3].round.cfg, Out) && t.lastErr == None
  {
    CollisionBegins(k, turns, dev, a, b, c, d);
    SplitLast(turns, 3);
    CollisionEnds(k, turns, turns[..3], turns[3], dev, b, c, d);
    SharedBreaks(k, turns, b, d, 3);
  }

  // ---- An id given back while a class uses it ----

  /** A manual round on `dev` with quotas outbound for `outs` and inbound for `ins`, all online. */
  ghost predicate ManualRound(r: QosModel.Round, dev: string, outs: seq<string>, ins: seq<string>) {
    && r.samples.Some? && dev != "" && r.cfg.interface_ == dev && r.cfg.mode == "manual"
    && Names(ManualEntries(r.cfg.manual, OnlinePorts(r.samples.value), Out)) == outs
    && Names(ManualEntries(r.cfg.manual, OnlinePorts(r.samples.value), In)) == ins
  }

  /** A manual round from `s` to `u` with plan `p`. */
  ghost predicate ManualEffect(s: State, p: Plan, u: State, dev: string, outs: seq<string>, ins: seq<string>,
                               freed: seq<string>) {
    var b := AssignAll(AssignAll(s.alloc, outs), ins);
    && IdsFine(u) && u.iface == dev && PlanOk(s, p) && p.alloc == b
    && p.outward.want == u.appliedOut && p.inward.want == u.appliedIn
    && ClassesOf(u.appliedOut, outs, b.ids) && ClassesOf(u.appliedIn, ins, b.ids)
    && u.alloc == ReleaseAll(b, freed) && forall n :: n in freed <==> Freed(s, p, n)
  }

  lemma ManualWants(s: State, r: QosModel.Round, dev: string, outs: seq<string>, ins: seq<string>)
    requires ManualRound(r, dev, outs, ins)
    ensures WantsNames(s, r, outs, ins)
    ensures PlanRound(s, r).inward.rootRate == MANUAL_ROOT_MBPS * 1000000.0
  {
    var flagged, a1 := PlanParts(s, r);
    FlagKeepsPorts(r.samples.value, PlanRound(s, r).activity.active);
  }

  lemma ManualStep(s: State, r: QosModel.Round, o: RoundOrders, dev: string, outs: seq<string>, ins: seq<string>)
    returns (p: Plan, u: State, freed: seq<string>)
    requires ManualRound(r, dev, outs, ins) && IdsFine(s) && (s.iface == "" || s.iface == dev)
    requires ValidRoundOrders(s, r, o)
    ensures Shapes(s, r) && Iface(s, r) == dev && p == PlanRound(s, r) && u == Take(s, Tick(r, o))
    ensures ManualEffect(s, p, u, dev, outs, ins, freed)
    ensures TurnFits(s, Tick(r, o)) <==> Fits(s, p) && !CrossRelease(s, p)
  {
    ManualWants(s, r, dev, outs, ins);
    freed := RoundBy(s, r, o, outs, ins);
    p, u := PlanRound(s, r), Reconcile(s, r, o);
  }

  /** Between two rounds of the crossing: who is applied where, and the ids. */
  ghost predicate Crossing(s: State, dev: string, outs: set<string>, ins: set<string>, alloc: Alloc) {
    IdsFine(s) && s.iface == dev && s.appliedOut.Keys == outs && s.appliedIn.Keys == ins && s.alloc == alloc
  }

  lemma BothAreOut(s: State, p: Plan, u: State, freed: seq<string>, dev: string, x: string, z: string)
    requires ManualEffect(s, p, u, dev, [x, z], [], freed) && x != z && Crossing(s, "", {}, {}, Alloc(map[], 2))
    ensures Crossing(u, dev, {x, z}, {}, Alloc(map[x := 2, z := 3], 4)) && Fits(s, p) && !CrossRelease(s, p)
  {
    FirstTwo(s.alloc, x, z);
    KeysAre(u.appliedOut, [x, z], p.alloc.ids, {x, z});
    KeysAre(u.appliedIn, [], p.alloc.ids, {});
    NothingReleased(p.alloc, freed);
    CompactAdmits(s.alloc, Admitted(s, p), p.alloc);
  }

  lemma BothOut(s: State, r: QosModel.Round, o: RoundOrders, dev: string, x: string, z: string)
    requires ManualRound(r, dev, [x, z], []) && x != z && Crossing(s, "", {}, {}, Alloc(map[], 2))
    requires ValidRoundOrders(s, r, o)
    ensures Crossing(Take(s, Tick(r, o)), dev, {x, z}, {}, Alloc(map[x := 2, z := 3], 4)) && TurnFits(s, Tick(r, o))
  {
    var p, u, freed := ManualStep(s, r, o, dev, [x, z], []);
    BothAreOut(s, p, u, freed, dev, x, z);
  }

  lemma OneHasCrossed(s: State, p: Plan, u: State, freed: seq<string>, dev: string, x: string, z: string)
    requires ManualEffect(s, p, u, dev, [z], [x], freed) && x != z
    requires Crossing(s, dev, {x, z}, {}, Alloc(map[x := 2, z := 3], 4))
    ensures Crossing(u, dev, {z}, {x}, Alloc(map[z := 3], 2)) && u.appliedIn[x].id == 2 && !Linked(u)
      && CrossRelease(s, p)
  {
    AssignOne(s.alloc, z);
    AssignOne(s.alloc, x);
    assert p.alloc == s.alloc;
    KeysAre(u.appliedOut, [z], p.alloc.ids, {z});
    KeysAre(u.appliedIn, [x], p.alloc.ids, {x});
    assert forall n :: n in freed <==> n == x;
    FirstGone(s.alloc, freed, x, z);
    assert x in u.appliedIn && x !in u.alloc.ids;
  }

  lemma OneCrosses(s: State, r: QosModel.Round, o: RoundOrders, dev: string, x: string, z: string)
    requires ManualRound(r, dev, [z], [x]) && x != z && Crossing(s, dev, {x, z}, {}, Alloc(map[x := 2, z := 3], 4))
    requires ValidRoundOrders(s, r, o)
    ensures var u := Take(s, Tick(r, o));
      Crossing(u, dev, {z}, {x}, Alloc(map[z := 3], 2)) && u.appliedIn[x].id == 2 && !Linked(u)
    ensures !TurnFits(s, Tick(r, o))
  {
    var p, u, freed := ManualStep(s, r, o, dev, [z], [x]);
    OneHasCrossed(s, p, u, freed, dev, x, z);
  }

  lemma RoundCarries(s: State, r: QosModel.Round, o: RoundOrders, p: Plan, u: State)
    requires IdsFine(s) && Shapes(s, r) && ValidRoundOrders(s, r, o)
    requires p == PlanRound(s, r) && u == Take(s, Tick(r, o))
    ensures PlanOk(s, p) && ValidPlanOrders(s, p, o) && u == CarryOut(s, Iface(s, r), p, o)
  {
    PlanIsOk(s, r);
  }

  lemma InwardSays(s: State, dev: string, p: Plan, o: RoundOrders, u: State)
    requires IdsFine(s) && PlanOk(s, p) && ValidPlanOrders(s, p, o) && u == CarryOut(s, dev, p, o)
    requires dev != IFB_DEV && dev in s.kernel && p.inward.enabled
    ensures IFB_DEV in u.kernel && Realizes(u.kernel[IFB_DEV].root, In, p.inward.rootRate, p.inward.want)
      <==> Compilable(s.appliedIn, p.inward.want)
  {
    CarriedTables(s, dev, p, o);
  }

  lemma IdTaken(s: State, p: Plan, u: State, freed: seq<string>, dev: string, x: string, y: string, z: string)
    requires ManualEffect(s, p, u, dev, [z], [y], freed) && y != x && y != z
    requires Crossing(s, dev, {z}, {x}, Alloc(map[z := 3], 2)) && s.appliedIn[x].id == 2
    ensures u.appliedIn.Keys == {y} && u.appliedIn[y].id == 2 && p.inward.enabled
      && !Compilable(s.appliedIn, p.inward.want)
  {
    AssignOne(s.alloc, z);
    AssignOne(s.alloc, y);
    assert p.alloc == Alloc(map[z := 3, y := 2], 3);
    KeysAre(u.appliedIn, [y], p.alloc.ids, {y});
    assert x in s.appliedIn && x !in p.inward.want && y in p.inward.want && s.appliedIn[x].id == p.inward.want[y].id;
    assert !RemovedApart(s.appliedIn, p.inward.want);
  }

  lemma OtherTakesId(s: State, r: QosModel.Round, o: RoundOrders, dev: string, x: string, y: string, z: string)
    requires ManualRound(r, dev, [z], [y]) && y != x && y != z && Crossing(s, dev, {z}, {x}, Alloc(map[z := 3], 2))
    requires s.appliedIn[x].id == 2 && ValidRoundOrders(s, r, o) && dev != IFB_DEV && dev in s.kernel
    ensures var u := Take(s, Tick(r, o));
      && u.appliedIn.Keys == {y} && u.appliedIn[y].id == 2
      && !(IFB_DEV in u.kernel && Realizes(u.kernel[IFB_DEV].root, In, MANUAL_ROOT_MBPS * 1000000.0, u.appliedIn))
  {
    var p, u, freed := ManualStep(s, r, o, dev, [z], [y]);
    IdTaken(s, p, u, freed, dev, x, y, z);
    ManualWants(s, r, dev, [z], [y]);
    RoundCarries(s, r, o, p, u);
    InwardSays(s, dev, p, o, u);
  }

  /** Three manual rounds: `x` and `z` are shaped outbound, `x` moves to inbound, and `y` takes its
      place there. */
  ghost predicate CrossingTurns(turns: seq<Turn>, dev: string, x: string, y: string, z: string) {
    && |turns| == 3 && turns[0].Tick? && turns[1].Tick? && turns[2].Tick?
    && ManualRound(turns[0].round, dev, [x, z], []) && ManualRound(turns[1].round, dev, [z], [x])
    && ManualRound(turns[2].round, dev, [z], [y])
  }

  lemma BothOutFirst(k: Kernel, r: QosModel.Round, o: RoundOrders, dev: string, x: string, z: string)
    requires ManualRound(r, dev, [x, z], []) && x != z && ValidRoundOrders(Start(k), r, o)
    ensures Crossing(Take(Start(k), Tick(r, o)), dev, {x, z}, {}, Alloc(map[x := 2, z := 3], 4))
  {
    BothOut(Start(k), r, o, dev, x, z);
  }

  lemma CrossingBegins(k: Kernel, turns: seq<Turn>, dev: string, x: string, y: string, z: string)
    requires x != z && ValidRun(k, turns) && CrossingTurns(turns, dev, x, y, z)
    ensures ValidRun(k, turns[..2]) && !RunFits(k, turns[..2])
    ensures var s := After(k, turns[..2]); Crossing(s, dev, {z}, {x}, Alloc(map[z := 3], 2)) && s.appliedIn[x].id == 2
  {
    PrefixOf(k, turns, 1);
    BothOutFirst(k, turns[0].round, turns[0].orders, dev, x, z);
    PrefixOf(k, turns, 2);
    OneCrosses(After(k, turns[..1]), turns[1].round, turns[1].orders, dev, x, z);
  }

  lemma CrossingEnds(k: Kernel, turns: seq<Turn>, front: seq<Turn>, t: Turn, dev: string,
                     x: string, y: string, z: string)
    requires dev in k && dev != IFB_DEV && "" !in k && y != x && y != z
    requires ValidRun(k, turns) && turns == front + [t] && t.Tick? && ManualRound(t.round, dev, [z], [y])
    requires ValidRun(k, front) && Crossing(After(k, front), dev, {z}, {x}, Alloc(map[z := 3], 2))
    requires After(k, front).appliedIn[x].id == 2
    ensures var u := After(k, turns);
      && u.appliedIn.Keys == {y}
      && !(IFB_DEV in u.kernel && Realizes(u.kernel[IFB_DEV].root, In, MANUAL_ROOT_MBPS * 1000000.0, u.appliedIn))
    ensures RunFits(k, turns) ==> RunFits(k, front)
  {
    RulesStayPut(k, front);
    LastOf(k, turns, front, t);
    OtherTakesId(After(k, front), t.round, t.orders, dev, x, y, z);
  }

  /** On any kernel with the interface, in any map orders: the second of those rounds does not fit, and
      after the third ifb0 does not carry the class of `y`. */
  lemma CrossingRun(k: Kernel, turns: seq<Turn>, dev: string, x: string, y: string, z: string)
    requires dev in k && dev != IFB_DEV && "" !in k && x != z && y != x && y != z
    requires ValidRun(k, turns) && CrossingTurns(turns, dev, x, y, z)
    ensures ValidRun(k, turns[..2]) && !RunFits(k, turns[..2]) && !RunFits(k, turns)
    ensures var t := After(k, turns);
      && t.appliedIn.Keys == {y}
      && !(IFB_DEV in t.kernel && Realizes(t.kernel[IFB_DEV].root, In, MANUAL_ROOT_MBPS * 1000000.0, t.appliedIn))
  {
    CrossingBegins(k, turns, dev, x, y, z);
    SplitLast(turns, 2);
    CrossingEnds(k, turns, turns[..2], turns[2], dev, x, y, z);
  }
}
