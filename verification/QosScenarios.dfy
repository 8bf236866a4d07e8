/** Lists that a dashboard can give, one poll after the other, that make the runs of `QosWitnesses` happen. */
module QosScenarios {
  import opened Basics
  import opened TrafficControl
  import opened QosCompiler
  import opened QosAllocator
  import opened QosActivity
  import opened QosModel
  import opened QosRuns
  import opened QosAgreement
  import opened QosSampling
  import opened QosCounters
  import opened QosWitnesses

  // ---- One more turn ----

  lemma AppendTurn(k: Kernel, turns: seq<Turn>, t: Turn)
    requires ValidRun(k, turns) && ValidTurn(After(k, turns), t)
    ensures ValidRun(k, turns + [t])
    ensures After(k, turns + [t]) == Take(After(k, turns), t)
    ensures RunFits(k, turns + [t]) <==> RunFits(k, turns) && TurnFits(After(k, turns), t)
  {
    assert (turns + [t])[..|turns|] == turns;
  }

  lemma OrdersFor(applied: Classes, want: Classes) returns (o: Orders)
    ensures ValidOrders(o, applied, want)
  {
    var wanted := EnumerationExists(want.Keys);
    var remove := EnumerationExists(applied.Keys);
    o := Orders(wanted, remove, wanted);
  }

  /** Some map orders are always possible. */
  lemma OrdersExist(s: State, r: Round) returns (o: RoundOrders)
    requires r.samples.Some?
    ensures ValidRoundOrders(s, r, o)
  {
    var p := PlanRound(s, r);
    var outward := OrdersFor(s.appliedOut, p.outward.want);
    var inward := OrdersFor(s.appliedIn, p.inward.want);
    o := RoundOrders(outward, inward);
  }

  // ---- One more poll ----

  /** A poll that reads the dashboard's list, under a configuration that names the interface. */
  predicate Reads(p: Poll) {
    p.Poll? && p.dashboard.Some? && p.cfg.interface_ != "" && p.cfg.mode != "off"
  }

  /** These polls have given the run so far and left these counters. */
  ghost predicate Fed(k: Kernel, turns: seq<Turn>, polls: seq<Poll>, prev: Totals) {
    ValidRun(k, turns) && Received(k, turns, polls) && TotalsOf(k, turns, polls) == prev
  }

  lemma ReadTotals(s: State, prev: Totals, p: Poll)
    requires Reads(p)
    ensures TotalsAfter(s, prev, p) == Sample(prev, p.dashboard.value).prev
  {
    assert Shapes(s, RoundOf(prev, p));
  }

  lemma FedMore(k: Kernel, turns: seq<Turn>, polls: seq<Poll>, prev: Totals, t: Turn, p: Poll)
    requires Fed(k, turns, polls, prev) && ValidRun(k, turns + [t]) && TurnOf(t, prev, p) && Reads(p)
    ensures Fed(k, turns + [t], polls + [p], Sample(prev, p.dashboard.value).prev)
  {
    ReadTotals(After(k, turns), prev, p);
    assert (turns + [t])[..|turns|] == turns && (polls + [p])[..|polls|] == polls;
  }

  lemma OneTurn(k: Kernel, turns: seq<Turn>, r: QosModel.Round) returns (t: Turn)
    requires ValidRun(k, turns) && r.samples.Some?
    ensures ValidRun(k, turns + [t]) && t.Tick? && t.round == r
  {
    var o := OrdersExist(After(k, turns), r);
    AppendTurn(k, turns, Tick(r, o));
    t := Tick(r, o);
  }

  /** The `n`th poll of a list, in some map orders. */
  lemma OnePoll(k: Kernel, turns: seq<Turn>, polls: seq<Poll>, n: nat, prev: Totals) returns (t: Turn)
    requires n < |polls| && Fed(k, turns, polls[..n], prev) && Reads(polls[n])
    ensures t.Tick? && t.round == RoundOf(prev, polls[n])
    ensures Fed(k, turns + [t], polls[..n+1], Sample(prev, polls[n].dashboard.value).prev)
  {
    t := OneTurn(k, turns, RoundOf(prev, polls[n]));
    FedMore(k, turns, polls[..n], prev, t, polls[n]);
    SplitLast(polls, n);
  }

  // ---- Lists of four proxies ----

  function Proxy(name: string, port: int, online: bool, inBytes: int): Listing {
    Listing(name, port, online, inBytes, 0)
  }

  /** The list of proxies a, b, c and d: who is online, and the counter of each. */
  function Four(on: (bool, bool, bool, bool), count: (int, int, int, int)): seq<Listing> {
    [Proxy("a", 7001, on.0, count.0), Proxy("b", 7002, on.1, count.1),
     Proxy("c", 7003, on.2, count.2), Proxy("d", 7004, on.3, count.3)]
  }

  ghost predicate CountedAt(prev: Totals, count: (int, int, int, int)) {
    && "a" in prev && prev["a"] == (count.0, 0) && "b" in prev && prev["b"] == (count.1, 0)
    && "c" in prev && prev["c"] == (count.2, 0) && "d" in prev && prev["d"] == (count.3, 0)
  }

  lemma FourSampled(prev: Totals, on: (bool, bool, bool, bool), count: (int, int, int, int))
    ensures var samples, ls := Sample(prev, Four(on, count)).samples, Four(on, count);
      samples == [SampleOf(prev, ls[0]), SampleOf(prev, ls[1]), SampleOf(prev, ls[2]), SampleOf(prev, ls[3])]
  {
    SampleEach(prev, Four(on, count));
  }

  lemma FourOnce(on: (bool, bool, bool, bool), count: (int, int, int, int))
    ensures ListedOnce(Four(on, count))
  {
  }

  lemma CountedByList(now: Totals, prev: Totals, ls: seq<Listing>, on: (bool, bool, bool, bool),
                      count: (int, int, int, int))
    requires QosSampling.CountersSay(now, prev, ls) && ls == Four(on, count)
    ensures CountedAt(now, count)
  {
    assert ls[0] in ls && ls[1] in ls && ls[2] in ls && ls[3] in ls;
  }

  lemma FourCounted(prev: Totals, on: (bool, bool, bool, bool), count: (int, int, int, int))
    ensures ListedOnce(Four(on, count)) && CountedAt(Sample(prev, Four(on, count)).prev, count)
  {
    var ls := Four(on, count);
    FourOnce(on, count);
    SampleShape(prev, ls);
    CountedByList(Sample(prev, ls).prev, prev, ls, on, count);
  }

  lemma OnlineOfFour(a: MachineSample, b: MachineSample, c: MachineSample, d: MachineSample)
    ensures OnlineList([a, b, c, d]) ==
      (if a.online then [a.name] else []) + (if b.online then [b.name] else [])
      + (if c.online then [c.name] else []) + (if d.online then [d.name] else [])
  {
    assert [a, b, c, d][..3] == [a, b, c] && [a, b, c][..2] == [a, b] && [a, b][..1] == [a] && [a][..0] == [];
    assert OnlineList([]) == [];
    assert OnlineList([a]) == [] + if a.online then [a.name] else [];
    assert OnlineList([a, b]) == OnlineList([a]) + if b.online then [b.name] else [];
  }

  // ---- Colliding ids ----

  function AutoPoll(dev: string, listings: seq<Listing>, now: int): Poll {
    Poll(QosConfig("auto", 1.0, 0.0, 1.0, 60, dev, []), "", Some(listings), now)
  }

  /** a and b are idle, then busy; a goes away; and c and d come, busy. */
  function CollidingPolls(dev: string): seq<Poll> {
    [AutoPoll(dev, Four((true, true, false, false), (0, 0, 0, 0)), 0),
     AutoPoll(dev, Four((true, true, false, false), (61440, 61440, 0, 0)), 15 * SECOND),
     AutoPoll(dev, Four((false, true, false, false), (61440, 122880, 0, 0)), 30 * SECOND),
     AutoPoll(dev, Four((false, true, true, true), (61440, 184320, 61440, 61440)), 45 * SECOND)]
  }

  lemma IdleFirst(dev: string, on: (bool, bool, bool, bool), count: (int, int, int, int), now: int)
    requires dev != ""
    ensures var p := AutoPoll(dev, Four(on, count), now);
      QuietRound(RoundOf(map[], p), dev) && CountedAt(Sample(map[], p.dashboard.value).prev, count)
  {
    FourSampled(map[], on, count);
    FourCounted(map[], on, count);
  }

  /** Who is online has received so much more that it is over the threshold. */
  predicate AllBusy(on: (bool, bool, bool, bool), was: (int, int, int, int), count: (int, int, int, int)) {
    && (on.0 ==> count.0 - was.0 == 61440) && (on.1 ==> count.1 - was.1 == 61440)
    && (on.2 ==> count.2 - was.2 == 61440) && (on.3 ==> count.3 - was.3 == 61440)
  }

  function NamesOn(on: (bool, bool, bool, bool)): seq<string> {
    (if on.0 then ["a"] else []) + (if on.1 then ["b"] else []) + (if on.2 then ["c"] else [])
    + (if on.3 then ["d"] else [])
  }

  lemma NamesInTurn()
    ensures NamesOn((true, true, false, false)) == ["a", "b"]
    ensures NamesOn((false, true, false, false)) == ["b"]
    ensures NamesOn((false, true, true, true)) == ["b", "c", "d"]
  {
  }

  lemma BusySample(prev: Totals, l: Listing, was: int)
    requires l.name in prev && prev[l.name] == (was, 0) && l.outBytes == 0
    requires l.online ==> l.inBytes - was == 61440
    ensures l.online ==> Over(SampleOf(prev, l), 1.0 * 1024.0)
  {
  }

  lemma FourAreBusy(prev: Totals, on: (bool, bool, bool, bool), was: (int, int, int, int), count: (int, int, int, int))
    requires CountedAt(prev, was) && AllBusy(on, was, count)
    ensures var samples := Sample(prev, Four(on, count)).samples;
      forall i :: 0 <= i < |samples| && samples[i].online ==> Over(samples[i], 1.0 * 1024.0)
  {
    FourSampled(prev, on, count);
    var ls := Four(on, count);
    BusySample(prev, ls[0], was.0);
    BusySample(prev, ls[1], was.1);
    BusySample(prev, ls[2], was.2);
    BusySample(prev, ls[3], was.3);
  }

  lemma FourOnline(prev: Totals, on: (bool, bool, bool, bool), count: (int, int, int, int))
    ensures var samples := Sample(prev, Four(on, count)).samples;
      OnlineList(samples) == NamesOn(on) && DistinctOnlinePorts(samples)
  {
    FourSampled(prev, on, count);
    var ls := Four(on, count);
    OnlineOfFour(SampleOf(prev, ls[0]), SampleOf(prev, ls[1]), SampleOf(prev, ls[2]), SampleOf(prev, ls[3]));
  }

  lemma BusyAfter(dev: string, prev: Totals, on: (bool, bool, bool, bool), was: (int, int, int, int),
                  count: (int, int, int, int), now: int, names: seq<string>)
    requires dev != "" && names != [] && CountedAt(prev, was) && AllBusy(on, was, count)
    requires names == NamesOn(on)
    ensures var p := AutoPoll(dev, Four(on, count), now);
      LoudRound(RoundOf(prev, p), dev, names) && CountedAt(Sample(prev, p.dashboard.value).prev, count)
  {
    FourCounted(prev, on, count);
    SampleShape(prev, Four(on, count));
    FourAreBusy(prev, on, was, count);
    FourOnline(prev, on, count);
  }

  lemma BusyPoll(k: Kernel, turns: seq<Turn>, dev: string, n: nat, prev: Totals, on: (bool, bool, bool, bool),
                 was: (int, int, int, int), count: (int, int, int, int), names: seq<string>)
    returns (t: Turn, next: Totals)
    requires n < 4 && Fed(k, turns, CollidingPolls(dev)[..n], prev)
    requires CollidingPolls(dev)[n] == AutoPoll(dev, Four(on, count), n * 15 * SECOND)
    requires dev != "" && names != [] && CountedAt(prev, was) && AllBusy(on, was, count)
    requires names == NamesOn(on)
    ensures t.Tick? && LoudRound(t.round, dev, names)
    ensures Fed(k, turns + [t], CollidingPolls(dev)[..n+1], next) && CountedAt(next, count)
  {
    t := OnePoll(k, turns, CollidingPolls(dev), n, prev);
    next := Sample(prev, Four(on, count)).prev;
    BusyAfter(dev, prev, on, was, count, n * 15 * SECOND, names);
  }

  lemma FirstPoll(k: Kernel, dev: string) returns (t: Turn, prev: Totals)
    requires dev != ""
    ensures t.Tick? && QuietRound(t.round, dev)
    ensures Fed(k, [t], CollidingPolls(dev)[..1], prev) && CountedAt(prev, (0, 0, 0, 0))
  {
    assert Fed(k, [], CollidingPolls(dev)[..0], map[]);
    t := OnePoll(k, [], CollidingPolls(dev), 0, map[]);
    assert [] + [t] == [t];
    prev := Sample(map[], Four((true, true, false, false), (0, 0, 0, 0))).prev;
    IdleFirst(dev, (true, true, false, false), (0, 0, 0, 0), 0);
  }

  lemma SecondPoll(k: Kernel, dev: string) returns (turns: seq<Turn>, prev: Totals)
    requires dev != ""
    ensures |turns| == 2 && turns[0].Tick? && turns[1].Tick?
    ensures QuietRound(turns[0].round, dev) && LoudRound(turns[1].round, dev, ["a", "b"])
    ensures Fed(k, turns, CollidingPolls(dev)[..2], prev) && CountedAt(prev, (61440, 61440, 0, 0))
  {
    NamesInTurn();
    var first, before := FirstPoll(k, dev);
    var t, next := BusyPoll(k, [first], dev, 1, before, (true, true, false, false), (0, 0, 0, 0),
                            (61440, 61440, 0, 0), ["a", "b"]);
    turns, prev := [first] + [t], next;
  }

  lemma ThirdPoll(k: Kernel, dev: string) returns (turns: seq<Turn>, prev: Totals)
    requires dev != ""
    ensures |turns| == 3 && turns[0].Tick? && turns[1].Tick? && turns[2].Tick?
    ensures QuietRound(turns[0].round, dev) && LoudRound(turns[1].round, dev, ["a", "b"])
    ensures LoudRound(turns[2].round, dev, ["b"])
    ensures Fed(k, turns, CollidingPolls(dev)[..3], prev) && CountedAt(prev, (61440, 122880, 0, 0))
  {
    NamesInTurn();
    var front, before := SecondPoll(k, dev);
    var t, next := BusyPoll(k, front, dev, 2, before, (false, true, false, false), (61440, 61440, 0, 0),
                            (61440, 122880, 0, 0), ["b"]);
    turns, prev := front + [t], next;
  }

  lemma FourTurns(front: seq<Turn>, t: Turn, dev: string)
    requires |front| == 3 && front[0].Tick? && front[1].Tick? && front[2].Tick? && t.Tick?
    requires QuietRound(front[0].round, dev) && LoudRound(front[1].round, dev, ["a", "b"])
    requires LoudRound(front[2].round, dev, ["b"]) && LoudRound(t.round, dev, ["b", "c", "d"])
    ensures CollidingTurns(front + [t], dev, "a", "b", "c", "d")
  {
  }

  lemma FourthPoll(k: Kernel, dev: string) returns (turns: seq<Turn>, prev: Totals)
    requires dev != ""
    ensures CollidingTurns(turns, dev, "a", "b", "c", "d") && Fed(k, turns, CollidingPolls(dev)[..4], prev)
  {
    NamesInTurn();
    var front, before := ThirdPoll(k, dev);
    var t, next := BusyPoll(k, front, dev, 3, before, (false, true, true, true), (61440, 122880, 0, 0),
                            (61440, 184320, 61440, 61440), ["b", "c", "d"]);
    FourTurns(front, t, dev);
    turns, prev := front + [t], next;
  }

  lemma FedAll(k: Kernel, turns: seq<Turn>, polls: seq<Poll>, n: nat, prev: Totals)
    requires n == |polls| && Fed(k, turns, polls[..n], prev)
    ensures ValidRun(k, turns) && Received(k, turns, polls)
  {
    assert polls[..n] == polls;
  }

  /** On every kernel that has the interface, a dashboard can give lists that make ids collide. */
  lemma CollisionHappens(k: Kernel, dev: string) returns (turns: seq<Turn>)
    requires dev in k && dev != IFB_DEV && "" !in k
    ensures ValidRun(k, turns) && Received(k, turns, CollidingPolls(dev)) && EndsAutomatic(k, turns)
    ensures CollidingTurns(turns, dev, "a", "b", "c", "d")
    ensures !RunFits(k, turns) && !Agrees(After(k, turns), turns[3].round.cfg, Out)
  {
    var all, prev := FourthPoll(k, dev);
    turns := all;
    FedAll(k, turns, CollidingPolls(dev), 4, prev);
    CollisionRun(k, turns, dev, "a", "b", "c", "d");
  }

  // ---- An id given back while a class uses it ----

  /** x, y and z are online and idle all the time. */
  function Three(): seq<Listing> {
    [Proxy("x", 7001, true, 0), Proxy("y", 7002, true, 0), Proxy("z", 7003, true, 0)]
  }

  function QuotaPoll(dev: string, first: ManualItem, second: ManualItem, now: int): Poll {
    Poll(QosConfig("manual", 0.0, 0.0, 1.0, 60, dev, [first, second]), "", Some(Three()), now)
  }

  lemma PortsOfThree(x: MachineSample, y: MachineSample, z: MachineSample)
    requires x.online && y.online && z.online
    ensures OnlinePorts([x, y, z]) == map[x.name := x.port, y.name := y.port, z.name := z.port]
  {
    assert [x, y, z][..2] == [x, y] && [x, y][..1] == [x] && [x][..0] == [];
    assert OnlinePorts([x]) == map[x.name := x.port];
    assert OnlinePorts([x, y]) == map[x.name := x.port, y.name := y.port];
  }

  function ThreePorts(): map<string, int> {
    map["x" := 7001, "y" := 7002, "z" := 7003]
  }

  lemma ThreeSampled(prev: Totals)
    ensures OnlinePorts(Sample(prev, Three()).samples) == ThreePorts()
  {
    var ls, samples := Three(), Sample(prev, Three()).samples;
    SampleEach(prev, ls);
    assert samples == [samples[0], samples[1], samples[2]];
    PortsOfThree(samples[0], samples[1], samples[2]);
  }

  function Quoted(it: ManualItem, ports: map<string, int>, dir: Direction): seq<string> {
    if it.name in ports && Quota(it, dir) > 0.0 then [it.name] else []
  }

  lemma TwoItems(a: ManualItem, b: ManualItem, ports: map<string, int>, dir: Direction)
    ensures Names(ManualEntries([a, b], ports, dir)) == Quoted(a, ports, dir) + Quoted(b, ports, dir)
  {
    assert [a, b][..1] == [a] && [a][..0] == [];
    assert ManualEntries([], ports, dir) == [];
    assert Names(ManualEntries([a], ports, dir)) == Quoted(a, ports, dir);
  }

  lemma QuotasOf(dev: string, prev: Totals, a: ManualItem, b: ManualItem, now: int, outs: seq<string>, ins: seq<string>)
    requires dev != ""
    requires outs == Quoted(a, ThreePorts(), Out) + Quoted(b, ThreePorts(), Out)
    requires ins == Quoted(a, ThreePorts(), In) + Quoted(b, ThreePorts(), In)
    ensures ManualRound(RoundOf(prev, QuotaPoll(dev, a, b, now)), dev, outs, ins)
  {
    ThreeSampled(prev);
    TwoItems(a, b, ThreePorts(), Out);
    TwoItems(a, b, ThreePorts(), In);
  }

  /** x and z have a quota outbound; then x has one inbound instead; then y has it instead of x. */
  function CrossingPolls(dev: string): seq<Poll> {
    [QuotaPoll(dev, ManualItem("x", 1.0, 0.0), ManualItem("z", 1.0, 0.0), 0),
     QuotaPoll(dev, ManualItem("x", 0.0, 1.0), ManualItem("z", 1.0, 0.0), 15 * SECOND),
     QuotaPoll(dev, ManualItem("y", 0.0, 1.0), ManualItem("z", 1.0, 0.0), 30 * SECOND)]
  }

  lemma QuotaTurn(k: Kernel, turns: seq<Turn>, dev: string, n: nat, prev: Totals, a: ManualItem, b: ManualItem,
                  outs: seq<string>, ins: seq<string>)
    returns (t: Turn, next: Totals)
    requires n < 3 && Fed(k, turns, CrossingPolls(dev)[..n], prev) && dev != ""
    requires CrossingPolls(dev)[n] == QuotaPoll(dev, a, b, n * 15 * SECOND)
    requires outs == Quoted(a, ThreePorts(), Out) + Quoted(b, ThreePorts(), Out)
    requires ins == Quoted(a, ThreePorts(), In) + Quoted(b, ThreePorts(), In)
    ensures t.Tick? && ManualRound(t.round, dev, outs, ins) && Fed(k, turns + [t], CrossingPolls(dev)[..n+1], next)
  {
    t := OnePoll(k, turns, CrossingPolls(dev), n, prev);
    next := Sample(prev, Three()).prev;
    QuotasOf(dev, prev, a, b, n * 15 * SECOND, outs, ins);
  }

  lemma FirstQuotas(k: Kernel, dev: string) returns (t: Turn, prev: Totals)
    requires dev != ""
    ensures t.Tick? && ManualRound(t.round, dev, ["x", "z"], []) && Fed(k, [t], CrossingPolls(dev)[..1], prev)
  {
    assert Fed(k, [], CrossingPolls(dev)[..0], map[]);
    t, prev := QuotaTurn(k, [], dev, 0, map[], ManualItem("x", 1.0, 0.0), ManualItem("z", 1.0, 0.0), ["x", "z"], []);
    assert [] + [t] == [t];
  }

  lemma SecondQuotas(k: Kernel, dev: string) returns (turns: seq<Turn>, prev: Totals)
    requires dev != ""
    ensures |turns| == 2 && turns[0].Tick? && turns[1].Tick?
    ensures ManualRound(turns[0].round, dev, ["x", "z"], []) && ManualRound(turns[1].round, dev, ["z"], ["x"])
    ensures Fed(k, turns, CrossingPolls(dev)[..2], prev)
  {
    var first, before := FirstQuotas(k, dev);
    var t, next := QuotaTurn(k, [first], dev, 1, before, ManualItem("x", 0.0, 1.0), ManualItem("z", 1.0, 0.0),
                             ["z"], ["x"]);
    turns, prev := [first] + [t], next;
  }

  lemma ThirdQuotas(k: Kernel, dev: string) returns (turns: seq<Turn>, prev: Totals)
    requires dev != ""
    ensures CrossingTurns(turns, dev, "x", "y", "z") && Fed(k, turns, CrossingPolls(dev)[..3], prev)
  {
    var front, before := SecondQuotas(k, dev);
    var t, next := QuotaTurn(k, front, dev, 2, before, ManualItem("y", 0.0, 1.0), ManualItem("z", 1.0, 0.0),
                             ["z"], ["y"]);
    turns, prev := front + [t], next;
  }

  /** Such runs exist too. */
  lemma CrossingHappens(k: Kernel, dev: string) returns (turns: seq<Turn>)
    requires dev in k && dev != IFB_DEV && "" !in k
    ensures ValidRun(k, turns) && Received(k, turns, CrossingPolls(dev)) && CrossingTurns(turns, dev, "x", "y", "z")
    ensures ValidRun(k, turns[..2]) && !RunFits(k, turns[..2])
    ensures var t := After(k, turns);
      && t.appliedIn.Keys == {"y"}
      && !(IFB_DEV in t.kernel && Realizes(t.kernel[IFB_DEV].root, In, MANUAL_ROOT_MBPS * 1000000.0, t.appliedIn))
  {
    var all, prev := ThirdQuotas(k, dev);
    turns := all;
    FedAll(k, turns, CrossingPolls(dev), 3, prev);
    CrossingRun(k, turns, dev, "x", "y", "z");
  }

  // ---- Outbound traffic alone ----

  /** One proxy on port 7001 that receives nothing, under 100 Mbit/s outbound and 20 inbound. */
  function SendingPoll(dev: string, sent: int, now: int): Poll {
    Poll(QosConfig("auto", 100.0, 20.0, 1.0, 60, dev, []), "", Some([Listing("a", 7001, true, 0, sent)]), now)
  }

  /** It sends 75 MB within 15 seconds. */
  function SendingPolls(dev: string): seq<Poll> {
    [SendingPoll(dev, 0, 0), SendingPoll(dev, 75000000, 15 * SECOND)]
  }

  lemma OneSampled(prev: Totals, sent: int)
    ensures var s, l := Sample(prev, [Listing("a", 7001, true, 0, sent)]), Listing("a", 7001, true, 0, sent);
      s.samples == [SampleOf(prev, l)] && s.prev == prev["a" := (0, sent)]
  {
    var ls := [Listing("a", 7001, true, 0, sent)];
    assert ls[..0] == [];
    assert Sample(prev, ls[..0]) == Sampling(prev, []);
  }

  lemma SendingFirst(k: Kernel, dev: string) returns (t: Turn)
    requires dev != ""
    ensures t.Tick? && QuietRound(t.round, dev) && Fed(k, [t], SendingPolls(dev)[..1], map["a" := (0, 0)])
  {
    assert Fed(k, [], SendingPolls(dev)[..0], map[]);
    t := OnePoll(k, [], SendingPolls(dev), 0, map[]);
    assert [] + [t] == [t];
    OneSampled(map[], 0);
  }

  /** A run that these polls give: a quiet round, and one on this list. */
  ghost predicate SendingTurns(turns: seq<Turn>, dev: string) {
    && |turns| == 2 && turns[0].Tick? && turns[1].Tick? && QuietRound(turns[0].round, dev)
    && turns[1].round == RoundOf(map["a" := (0, 0)], SendingPoll(dev, 75000000, 15 * SECOND))
  }

  /** The run has begun with one turn, after which the counters are these. */
  ghost predicate Begun(k: Kernel, turns: seq<Turn>, polls: seq<Poll>, prev: Totals) {
    && |turns| >= 1 && |polls| >= 1 && ValidRun(k, turns[..1]) && |turns[..1]| == |polls[..1]|
    && TotalsOf(k, turns[..1], polls[..1]) == prev
  }

  lemma BegunBy(k: Kernel, turns: seq<Turn>, first: Turn, polls: seq<Poll>, prev: Totals)
    requires |turns| >= 1 && turns[0] == first && |polls| >= 1 && Fed(k, [first], polls[..1], prev)
    ensures Begun(k, turns, polls, prev)
  {
    assert turns[..1] == [first];
  }

  /** The second of two polls. */
  lemma TwoPolls(k: Kernel, first: Turn, polls: seq<Poll>, prev: Totals) returns (turns: seq<Turn>)
    requires |polls| == 2 && Fed(k, [first], polls[..1], prev) && Reads(polls[1])
    ensures |turns| == 2 && turns[0] == first && turns[1].Tick? && turns[1].round == RoundOf(prev, polls[1])
    ensures ValidRun(k, turns) && Received(k, turns, polls) && Begun(k, turns, polls, prev)
  {
    var t := OnePoll(k, [first], polls, 1, prev);
    turns := [first] + [t];
    BegunBy(k, turns, first, polls, prev);
    FedAll(k, turns, polls, 2, Sample(prev, polls[1].dashboard.value).prev);
  }

  lemma SendingFed(k: Kernel, dev: string) returns (turns: seq<Turn>)
    requires dev != ""
    ensures ValidRun(k, turns) && Received(k, turns, SendingPolls(dev)) && SendingTurns(turns, dev)
    ensures Begun(k, turns, SendingPolls(dev), map["a" := (0, 0)])
  {
    var first := SendingFirst(k, dev);
    turns := TwoPolls(k, first, SendingPolls(dev), map["a" := (0, 0)]);
  }

  lemma SendingIsSane(dev: string)
    ensures var ps := SendingPolls(dev);
      && (forall i :: 0 <= i < |ps| ==> Sane(ps[i]))
      && (forall i, j :: 0 <= i <= j < |ps| && ps[i].Poll? && ps[j].Poll? ==> ps[i].now <= ps[j].now)
  {
  }

  lemma SecondFits(s: State, r: QosModel.Round, dev: string)
    requires Between(s, dev, {}, Alloc(map[], 2)) && r.samples.Some? && r.cfg.mode == "auto"
    ensures Fits(s, PlanRound(s, r)) && !CrossRelease(s, PlanRound(s, r))
  {
    PlanIsOk(s, r);
    CompactFits(s, PlanRound(s, r));
    AutoNeverCrosses(s, r);
  }

  lemma SendingShapes(k: Kernel, turns: seq<Turn>, dev: string)
    requires ValidRun(k, turns) && SendingTurns(turns, dev) && dev != ""
    ensures ValidRun(k, turns[..1]) && ShapesAt(k, turns, 1) && Shapes(After(k, turns[..1]), turns[1].round)
    ensures Iface(After(k, turns[..1]), turns[1].round) == dev && RunFits(k, turns)
  {
    PrefixOf(k, turns, 1);
    QuietStart(k, turns[0].round, turns[0].orders, dev);
    PrefixOf(k, turns, 2);
    assert turns[..2] == turns;
    SecondFits(After(k, turns[..1]), turns[1].round, dev);
  }

  lemma SendingIsBusy(dev: string, now: int)
    ensures ListedBusy(map["a" := (0, 0)], SendingPoll(dev, 75000000, now), "a")
    ensures forall other :: ListedOnline(SendingPoll(dev, 75000000, now), other) ==> other == "a"
  {
    var l := Listing("a", 7001, true, 0, 75000000);
    assert l in SendingPoll(dev, 75000000, now).dashboard.value;
    assert MovedEnough(map["a" := (0, 0)], l, 1.0);
  }

  lemma SendingIsActive(k: Kernel, turns: seq<Turn>, dev: string)
    requires ValidRun(k, turns) && Received(k, turns, SendingPolls(dev)) && SendingTurns(turns, dev)
    requires Begun(k, turns, SendingPolls(dev), map["a" := (0, 0)]) && ShapesAt(k, turns, 1)
    ensures After(k, turns).activity.active == {"a"}
  {
    SendingIsSane(dev);
    SendingIsBusy(dev, 15 * SECOND);
    assert BusyAt(k, turns, SendingPolls(dev), "a", 1);
    OnlyBusyIsActive(k, turns, SendingPolls(dev), SendingPolls(dev)[1], "a");
  }

  lemma SendingSamples(turns: seq<Turn>, dev: string)
    requires SendingTurns(turns, dev)
    ensures var r := turns[1].round;
      && r.samples.Some? && r.cfg == SendingPoll(dev, 0, 0).cfg
      && UniqueNames(r.samples.value) && DistinctOnlinePorts(r.samples.value)
  {
    OneSampled(map["a" := (0, 0)], 75000000);
  }

  lemma EndsOnDevice(k: Kernel, turns: seq<Turn>, front: seq<Turn>, t: Turn, dev: string)
    requires ValidRun(k, turns) && turns == front + [t] && ValidRun(k, front) && t.Tick?
    requires dev in k && dev != IFB_DEV && "" !in k && t.round.cfg.mode == "auto"
    requires Shapes(After(k, front), t.round) && Iface(After(k, front), t.round) == dev
    requires t.round.samples.Some? && UniqueNames(t.round.samples.value)
    ensures EndsAutomatic(k, turns) && After(k, turns).iface == dev
  {
    LastOf(k, turns, front, t);
    NoCommandEverReports(k, front);
    TakeIface(After(k, front), t);
    assert turns[..|turns|-1] == front;
  }

  lemma SendingAgrees(k: Kernel, turns: seq<Turn>, dev: string)
    requires dev in k && dev != IFB_DEV && "" !in k && ValidRun(k, turns) && SendingTurns(turns, dev)
    requires ValidRun(k, turns[..1]) && Iface(After(k, turns[..1]), turns[1].round) == dev
    requires Shapes(After(k, turns[..1]), turns[1].round) && RunFits(k, turns)
    ensures var t, cfg := After(k, turns), turns[1].round.cfg;
      && EndsAutomatic(k, turns) && Agrees(t, cfg, Out) && Agrees(t, cfg, In) && t.iface == dev
  {
    SendingSamples(turns, dev);
    SplitLast(turns, 1);
    EndsOnDevice(k, turns, turns[..1], turns[1], dev);
    WholeRunAgreement(k, turns);
  }

  /** A class of the wanted rate for the machine, and a filter that leads to it. */
  ghost predicate Carries(k: Kernel, dev: string, m: Match, kbit: int) {
    && dev in k && k[dev].root.Htb? && m in k[dev].root.filters
    && k[dev].root.filters[m] in k[dev].root.classes
    && k[dev].root.classes[k[dev].root.filters[m]] == HtbClass(1, kbit, kbit)
  }

  lemma AgreedCarries(k: Kernel, dev: string, dir: Direction, mbps: real, want: Classes, n: string)
    requires n in want && TablesSay(k, dev, dir, mbps * 1000000.0, want)
    ensures Carries(k, if dir.Out? then dev else "ifb0",
      if dir.Out? then Sport(want[n].port) else Dport(want[n].port), Kbit(want[n].rate))
  {
    assert want[n].id in ClassIds(want);
  }

  lemma OneShare(cs: Classes, mbps: real, n: string)
    requires mbps > 0.0 && SharesOut(cs, mbps, {n})
    ensures n in cs && cs[n].rate == mbps * 1000000.0
  {
    assert cs.Keys == {n} && |cs| == |cs.Keys| == 1;
    assert n in cs.Keys;
    assert cs[n].rate * 1.0 == cs[n].rate;
  }

  lemma SendingPort(k: Kernel, turns: seq<Turn>, cs: Classes)
    requires |turns| == 2 && turns[1].Tick? && "a" in cs
    requires turns[1].round ==
      RoundOf(map["a" := (0, 0)], SendingPoll(turns[1].round.cfg.interface_, 75000000, 15 * SECOND))
    requires turns[1].round.samples.Some? && WantSampled(turns[1].round.samples.value, cs)
    ensures cs["a"].port == 7001
  {
    OneSampled(map["a" := (0, 0)], 75000000);
    assert SampledAt(turns[1].round.samples.value, "a", cs["a"].port);
  }

  lemma SendingEnds(k: Kernel, turns: seq<Turn>, dev: string)
    requires ValidRun(k, turns) && SendingTurns(turns, dev) && EndsAutomatic(k, turns)
    requires var t, cfg := After(k, turns), turns[1].round.cfg;
      && t.activity.active == {"a"} && Agrees(t, cfg, Out) && Agrees(t, cfg, In) && t.iface == dev
    ensures var t := After(k, turns);
      && Carries(t.kernel, dev, Sport(7001), 100000) && Carries(t.kernel, "ifb0", Dport(7001), 20000)
      && RootAt(t.kernel, dev, 100.0) && RootAt(t.kernel, "ifb0", 20.0)
  {
    var t := After(k, turns);
    AutoRunByField(k, turns);
    AgreementExact(k, turns, Out);
    AgreementExact(k, turns, In);
    OneShare(t.appliedOut, 100.0, "a");
    OneShare(t.appliedIn, 20.0, "a");
    SendingPort(k, turns, t.appliedOut);
    SendingPort(k, turns, t.appliedIn);
    AgreedCarries(t.kernel, dev, Out, 100.0, t.appliedOut, "a");
    AgreedCarries(t.kernel, dev, In, 20.0, t.appliedIn, "a");
  }

  /** On every kernel that has the interface: a machine that only sends is active, alone, and has the whole
      budget of each direction. What it sends, from its port, goes into a class of 100 Mbit/s on the
      interface, and what comes for it, to its port, into one of 20 Mbit/s on ifb0. */
  lemma SendingHappens(k: Kernel, dev: string) returns (turns: seq<Turn>)
    requires dev in k && dev != IFB_DEV && "" !in k
    ensures ValidRun(k, turns) && Received(k, turns, SendingPolls(dev))
    ensures var t := After(k, turns);
      && t.activity.active == {"a"}
      && Carries(t.kernel, dev, Sport(7001), 100000) && Carries(t.kernel, "ifb0", Dport(7001), 20000)
      && RootAt(t.kernel, dev, 100.0) && RootAt(t.kernel, "ifb0", 20.0)
  {
    turns := SendingFed(k, dev);
    SendingShapes(k, turns, dev);
    SendingIsActive(k, turns, dev);
    SendingAgrees(k, turns, dev);
    SendingEnds(k, turns, dev);
  }
}
