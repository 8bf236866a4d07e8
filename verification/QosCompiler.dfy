/**
  From a desired set of machine classes to the command list that installs it, and what
  that list does to any kernel it is run on.
 */
module QosCompiler {
  import opened Basics
  import opened TrafficControl

  const IFB_DEV := "ifb0"

  datatype Direction = Out | In

  /** One machine's class: its minor id, its rate in bit/s, and the remote port it is matched by. */
  datatype ClassState = ClassState(id: int, rate: real, port: int)

  type Classes = map<string, ClassState>

  /** Rounding of `%.0f`: to nearest, ties to even. */
  function RoundHalfEven(x: real): int {
    var f := x.Floor;
    var d := x - f as real;
    if d < 0.5 || (d == 0.5 && f % 2 == 0) then f else f + 1
  }

  /** The rate in kbit/s that a command carries, never below 1. */
  function Kbit(bps: real): int {
    RoundHalfEven(if bps / 1000.0 < 1.0 then 1.0 else bps / 1000.0)
  }

  function ShapingDevice(dev: string, dir: Direction): string {
    if dir.In? then IFB_DEV else dev
  }

  function MatchOf(dir: Direction, port: int): Match {
    if dir.In? then Dport(port) else Sport(port)
  }

  // ---- The command list ----

  function LinkCommands(): seq<Command> {
    [LinkAdd(IFB_DEV), LinkUp(IFB_DEV)]
  }

  function RedirectCommands(dev: string): seq<Command> {
    [IngressAdd(dev), IngressFlush(dev), RedirectAdd(dev, IFB_DEV)]
  }

  function RootCommands(dev: string, rootRate: real): seq<Command> {
    [RootDel(dev), RootAdd(dev), ClassReplace(dev, 0, 1, Kbit(rootRate), Kbit(rootRate))]
  }

  function BuildBaseCommands(dev: string, dir: Direction, rootRate: real): seq<Command> {
    if dir.In?
    then LinkCommands() + RedirectCommands(dev) + RootCommands(IFB_DEV, rootRate)
    else RootCommands(dev, rootRate)
  }

  function ReplaceCommand(dev: string, c: ClassState): Command {
    ClassReplace(dev, 1, c.id, Kbit(c.rate), Kbit(c.rate))
  }

  function FilterAddCommand(dev: string, dir: Direction, c: ClassState): Command {
    FilterAdd(dev, MatchOf(dir, c.port), c.id)
  }

  function ReplaceCommands(dev: string, want: Classes, order: seq<string>): seq<Command>
    requires forall n :: n in order ==> n in want
    decreases order
  {
    if order == [] then []
    else ReplaceCommands(dev, want, order[..|order|-1]) + [ReplaceCommand(dev, want[order[|order|-1]])]
  }

  function FilterCommands(dev: string, dir: Direction, want: Classes, order: seq<string>): seq<Command>
    requires forall n :: n in order ==> n in want
    decreases order
  {
    if order == [] then []
    else FilterCommands(dev, dir, want, order[..|order|-1]) + [FilterAddCommand(dev, dir, want[order[|order|-1]])]
  }

  /** Deletions for the applied machines, in `order`, that are no longer wanted. */
  function DeleteCommands(dev: string, applied: Classes, want: Classes, order: seq<string>): seq<Command>
    requires forall n :: n in order ==> n in applied
    decreases order
  {
    if order == [] then []
    else
      var n := order[|order|-1];
      DeleteCommands(dev, applied, want, order[..|order|-1]) +
      (if n in want then [] else [ClassDel(dev, applied[n].id)])
  }

  /** The orders in which the three map iterations of one application visit their maps. */
  datatype Orders = Orders(replace: seq<string>, remove: seq<string>, filter: seq<string>)

  ghost predicate ValidOrders(o: Orders, applied: Classes, want: Classes) {
    && Enumerates(o.replace, want.Keys)
    && Enumerates(o.remove, applied.Keys)
    && Enumerates(o.filter, want.Keys)
  }

  /** The part of the list that addresses the shaping device's root qdisc. */
  ghost function RootList(dev: string, dir: Direction, rootRate: real, applied: Classes, want: Classes,
                          o: Orders): seq<Command>
    requires ValidOrders(o, applied, want)
  {
    RootCommands(dev, rootRate)
    + [FilterFlush(dev)]
    + ReplaceCommands(dev, want, o.replace)
    + DeleteCommands(dev, applied, want, o.remove)
    + FilterCommands(dev, dir, want, o.filter)
  }

  ghost function ApplyCommands(dev: string, dir: Direction, rootRate: real, applied: Classes, want: Classes,
                               o: Orders): seq<Command>
    requires ValidOrders(o, applied, want)
  {
    var shaping := ShapingDevice(dev, dir);
    BuildBaseCommands(dev, dir, rootRate)
    + [FilterFlush(shaping)]
    + ReplaceCommands(shaping, want, o.replace)
    + DeleteCommands(shaping, applied, want, o.remove)
    + FilterCommands(shaping, dir, want, o.filter)
  }

  function ClearCommands(dev: string, dir: Direction): seq<Command> {
    if dir.In? then [IngressFlush(dev), IngressDel(dev), RootDel(IFB_DEV)] else [RootDel(dev)]
  }

  // ---- What the list is for ----

  ghost function ClassIds(want: Classes): set<int> {
    set n | n in want :: want[n].id
  }

  ghost function Matches(dir: Direction, want: Classes): set<Match> {
    set n | n in want :: MatchOf(dir, want[n].port)
  }

  /** The filters say exactly `want`: outbound a machine is known by the port its traffic comes from, inbound
      by the port it goes to, and nothing else is classified. */
  ghost predicate FiltersSay(filters: map<Match, int>, dir: Direction, want: Classes) {
    match dir
    case Out =>
      && (forall m :: m in filters <==> exists n :: n in want && m == Sport(want[n].port))
      && (forall n :: n in want ==> Sport(want[n].port) in filters && filters[Sport(want[n].port)] == want[n].id)
    case In =>
      && (forall m :: m in filters <==> exists n :: n in want && m == Dport(want[n].port))
      && (forall n :: n in want ==> Dport(want[n].port) in filters && filters[Dport(want[n].port)] == want[n].id)
  }

  lemma FiltersMatched(filters: map<Match, int>, dir: Direction, want: Classes)
    ensures FiltersSay(filters, dir, want) <==>
      filters.Keys == Matches(dir, want) && forall n :: n in want ==> filters[MatchOf(dir, want[n].port)] == want[n].id
  {
    if filters.Keys == Matches(dir, want) {
      forall m
        ensures m in filters <==> exists n :: n in want && m == MatchOf(dir, want[n].port)
      {
        assert m in filters.Keys <==> m in Matches(dir, want);
      }
    }
    if FiltersSay(filters, dir, want) {
      forall m
        ensures m in filters.Keys <==> m in Matches(dir, want)
      {
      }
    }
  }

  /** The tables say exactly `want`: the root class 1:1, below it one class of its own per machine
      at that machine's rate, and one filter per machine from its port to its class. */
  ghost predicate Realizes(root: RootQdisc, dir: Direction, rootRate: real, want: Classes) {
    && root.Htb?
    && root.classes.Keys == {1} + ClassIds(want)
    && |root.classes| == 1 + |want|
    && root.classes[1] == HtbClass(0, Kbit(rootRate), Kbit(rootRate))
    && (forall n :: n in want ==> root.classes[want[n].id] == HtbClass(1, Kbit(want[n].rate), Kbit(want[n].rate)))
    && FiltersSay(root.filters, dir, want)
  }

  ghost predicate DistinctIds(want: Classes) {
    forall n, m :: n in want && m in want && n != m ==> want[n].id != want[m].id
  }

  ghost predicate DistinctPorts(want: Classes) {
    forall n, m :: n in want && m in want && n != m ==> want[n].port != want[m].port
  }

  /** No machine that is being removed holds the id of a wanted one. */
  ghost predicate RemovedApart(applied: Classes, want: Classes) {
    forall r, n :: r in applied && r !in want && n in want ==> applied[r].id != want[n].id
  }

  ghost predicate IdsFromTwo(cs: Classes) {
    forall n :: n in cs ==> cs[n].id >= 2
  }

  ghost predicate Compilable(applied: Classes, want: Classes) {
    DistinctIds(want) && DistinctPorts(want) && RemovedApart(applied, want)
  }

  // ---- Class table after the replaces, filter table after the adds ----

  ghost function ReplacedClasses(base: map<int, HtbClass>, want: Classes, order: seq<string>): map<int, HtbClass>
    requires forall n :: n in order ==> n in want
    decreases order
  {
    if order == [] then base
    else
      var cs := ReplacedClasses(base, want, order[..|order|-1]);
      var c := want[order[|order|-1]];
      cs[c.id := HtbClass(if c.id in cs then cs[c.id].parent else 1, Kbit(c.rate), Kbit(c.rate))]
  }

  lemma {:induction false} RunReplaces(dev: string, base: map<int, HtbClass>, fs: map<Match, int>, want: Classes,
                                       order: seq<string>)
    requires forall n :: n in order ==> n in want
    ensures forall c :: c in ReplaceCommands(dev, want, order) ==> OnRoot(c) && c.dev == dev
    ensures RunRoot(Htb(base, fs), ReplaceCommands(dev, want, order)) == Htb(ReplacedClasses(base, want, order), fs)
    ensures !RootReports(Htb(base, fs), ReplaceCommands(dev, want, order))
    decreases order
  {
    if order == [] {
    } else {
      var front := order[..|order|-1];
      RunReplaces(dev, base, fs, want, front);
      RunRootConcat(Htb(base, fs), ReplaceCommands(dev, want, front), [ReplaceCommand(dev, want[order[|order|-1]])]);
    }
  }

  /** With ids from 2 up the root class survives, every other class hangs below it, and no
      class is there that no machine asked for. */
  lemma {:induction false} ReplacedShape(rootClass: HtbClass, want: Classes, order: seq<string>)
    requires forall n :: n in order ==> n in want
    requires IdsFromTwo(want)
    requires rootClass.parent == 0
    ensures var cs := ReplacedClasses(map[1 := rootClass], want, order);
      && 1 in cs && cs[1] == rootClass
      && (forall i :: i in cs <==> i == 1 || exists n :: n in order && want[n].id == i)
      && (forall i :: i in cs && i != 1 ==> cs[i].parent == 1)
    decreases order
  {
    if order == [] {
    } else {
      var front := order[..|order|-1];
      var last := order[|order|-1];
      ReplacedShape(rootClass, want, front);
      assert forall n :: n in order <==> n in front || n == last;
    }
  }

  lemma {:induction false} ReplacedRates(rootClass: HtbClass, want: Classes, order: seq<string>)
    requires forall n :: n in order ==> n in want
    requires IdsFromTwo(want) && DistinctIds(want)
    requires rootClass.parent == 0
    ensures var cs := ReplacedClasses(map[1 := rootClass], want, order);
      forall n :: n in order ==>
          want[n].id in cs && cs[want[n].id] == HtbClass(1, Kbit(want[n].rate), Kbit(want[n].rate))
    decreases order
  {
    if order == [] {
    } else {
      var front := order[..|order|-1];
      var last := order[|order|-1];
      ReplacedRates(rootClass, want, front);
      ReplacedShape(rootClass, want, front);
      assert forall n :: n in order <==> n in front || n == last;
    }
  }

  ghost function RemovedIds(applied: Classes, want: Classes, order: seq<string>): set<int>
    requires forall n :: n in order ==> n in applied
  {
    set n | n in order && n !in want :: applied[n].id
  }

  lemma RunRootSingle(r: RootQdisc, c: Command)
    requires OnRoot(c)
    ensures RunRoot(r, [c]) == RootStep(r, c).root
    ensures RootReports(r, [c]) <==> RootStep(r, c).err == Some(Busy)
  {
    assert [c][1..] == [];
    assert RunRoot(r, [c]) == RunRoot(RootStep(r, c).root, []);
  }

  /** With no filters and no class below it, one class is deleted, or its absence ignored. */
  lemma RunDelete(dev: string, cs: map<int, HtbClass>, gone: set<int>, id: int)
    requires id >= 2 && forall i :: i in cs ==> cs[i].parent <= 1
    ensures RunRoot(Htb(cs - gone, map[]), [ClassDel(dev, id)]) == Htb(cs - (gone + {id}), map[])
    ensures !RootReports(Htb(cs - gone, map[]), [ClassDel(dev, id)])
  {
    var mid := cs - gone;
    RunRootSingle(Htb(mid, map[]), ClassDel(dev, id));
    assert mid - {id} == cs - (gone + {id});
    if id !in mid {
      assert mid == mid - {id};
    }
  }

  lemma {:induction false} RunDeletes(dev: string, cs: map<int, HtbClass>, applied: Classes, want: Classes,
                                      order: seq<string>)
    requires forall n :: n in order ==> n in applied
    requires IdsFromTwo(applied)
    requires forall i :: i in cs ==> cs[i].parent <= 1
    ensures forall c :: c in DeleteCommands(dev, applied, want, order) ==> OnRoot(c) && c.dev == dev
    ensures RunRoot(Htb(cs, map[]), DeleteCommands(dev, applied, want, order)) ==
      Htb(cs - RemovedIds(applied, want, order), map[])
    ensures !RootReports(Htb(cs, map[]), DeleteCommands(dev, applied, want, order))
    decreases order
  {
    if order == [] {
      assert RemovedIds(applied, want, order) == {};
      assert cs - {} == cs;
    } else {
      var front := order[..|order|-1];
      var last := order[|order|-1];
      RunDeletes(dev, cs, applied, want, front);
      assert forall n :: n in order <==> n in front || n == last;
      if last in want {
        assert DeleteCommands(dev, applied, want, order) == DeleteCommands(dev, applied, want, front) + [];
        RunRootConcat(Htb(cs, map[]), DeleteCommands(dev, applied, want, front), []);
        assert RemovedIds(applied, want, order) == RemovedIds(applied, want, front);
      } else {
        var del := ClassDel(dev, applied[last].id);
        RunRootConcat(Htb(cs, map[]), DeleteCommands(dev, applied, want, front), [del]);
        assert RemovedIds(applied, want, order) == RemovedIds(applied, want, front) + {applied[last].id};
        RunDelete(dev, cs, RemovedIds(applied, want, front), applied[last].id);
      }
    }
  }

  ghost function AddedFilters(dir: Direction, want: Classes, order: seq<string>): map<Match, int>
    requires forall n :: n in order ==> n in want
    decreases order
  {
    if order == [] then map[]
    else
      var fs := AddedFilters(dir, want, order[..|order|-1]);
      var c := want[order[|order|-1]];
      if MatchOf(dir, c.port) in fs then fs else fs[MatchOf(dir, c.port) := c.id]
  }

  lemma {:induction false} RunFilters(dev: string, dir: Direction, cs: map<int, HtbClass>, want: Classes,
                                      order: seq<string>)
    requires forall n :: n in order ==> n in want
    ensures forall c :: c in FilterCommands(dev, dir, want, order) ==> OnRoot(c) && c.dev == dev
    ensures RunRoot(Htb(cs, map[]), FilterCommands(dev, dir, want, order)) == Htb(cs, AddedFilters(dir, want, order))
    ensures !RootReports(Htb(cs, map[]), FilterCommands(dev, dir, want, order))
    decreases order
  {
    if order == [] {
    } else {
      var front := order[..|order|-1];
      RunFilters(dev, dir, cs, want, front);
      RunRootConcat(Htb(cs, map[]), FilterCommands(dev, dir, want, front),
        [FilterAddCommand(dev, dir, want[order[|order|-1]])]);
    }
  }

  /** Every wanted port is matched, no other port is, and each goes to a machine with that port. */
  lemma {:induction false} FilterShape(dir: Direction, want: Classes, order: seq<string>)
    requires forall n :: n in order ==> n in want
    ensures var fs := AddedFilters(dir, want, order);
      && (forall n :: n in order ==> MatchOf(dir, want[n].port) in fs)
      && (forall m :: m in fs ==> exists n :: n in order && m == MatchOf(dir, want[n].port) && fs[m] == want[n].id)
    decreases order
  {
    if order == [] {
    } else {
      var front := order[..|order|-1];
      var last := order[|order|-1];
      FilterShape(dir, want, front);
      assert forall n :: n in order <==> n in front || n == last;
    }
  }

  // ---- The root qdisc after a whole application ----

  ghost function RootClass(rootRate: real): HtbClass {
    HtbClass(0, Kbit(rootRate), Kbit(rootRate))
  }

  /** What an application leaves on the shaping device, whatever was there before. */
  ghost function AppliedRoot(dir: Direction, rootRate: real, applied: Classes, want: Classes, o: Orders): RootQdisc
    requires ValidOrders(o, applied, want)
  {
    Htb(ReplacedClasses(map[1 := RootClass(rootRate)], want, o.replace) - RemovedIds(applied, want, o.remove),
        AddedFilters(dir, want, o.filter))
  }

  lemma RunRootCommands(r: RootQdisc, dev: string, rootRate: real)
    ensures var cmds := RootCommands(dev, rootRate) + [FilterFlush(dev)];
      && RunRoot(r, cmds) == Htb(map[1 := RootClass(rootRate)], map[])
      && !RootReports(r, cmds)
  {
    var class1 := ClassReplace(dev, 0, 1, Kbit(rootRate), Kbit(rootRate));
    var bare := Htb(map[], map[]);
    RunRootSingle(r, RootDel(dev));
    RunRootSingle(Default, RootAdd(dev));
    RunRootSingle(bare, class1);
    RunRootSingle(Htb(map[1 := RootClass(rootRate)], map[]), FilterFlush(dev));
    RunRootConcat(r, [RootDel(dev)], [RootAdd(dev)]);
    RunRootConcat(r, [RootDel(dev)] + [RootAdd(dev)], [class1]);
    RunRootConcat(r, [RootDel(dev)] + [RootAdd(dev)] + [class1], [FilterFlush(dev)]);
    assert RootCommands(dev, rootRate) == [RootDel(dev)] + [RootAdd(dev)] + [class1];
  }

  lemma RunTail(head: seq<Command>, r: RootQdisc, dev: string, dir: Direction, cs: map<int, HtbClass>,
                applied: Classes, want: Classes, o: Orders)
    requires ValidOrders(o, applied, want)
    requires IdsFromTwo(applied)
    requires forall c :: c in head ==> OnRoot(c) && c.dev == dev
    requires RunRoot(r, head) == Htb(cs, map[]) && !RootReports(r, head)
    requires forall i :: i in cs ==> cs[i].parent <= 1
    ensures var list := head + DeleteCommands(dev, applied, want, o.remove) + FilterCommands(dev, dir, want, o.filter);
      && (forall c :: c in list ==> OnRoot(c) && c.dev == dev)
      && RunRoot(r, list) == Htb(cs - RemovedIds(applied, want, o.remove), AddedFilters(dir, want, o.filter))
      && !RootReports(r, list)
  {
    var dels := DeleteCommands(dev, applied, want, o.remove);
    var adds := FilterCommands(dev, dir, want, o.filter);
    RunDeletes(dev, cs, applied, want, o.remove);
    RunFilters(dev, dir, cs - RemovedIds(applied, want, o.remove), want, o.filter);
    RunRootConcat(r, head, dels);
    RunRootConcat(r, head + dels, adds);
  }

  /** From any root qdisc, the list leaves `AppliedRoot` and reports nothing. */
  lemma RunRootList(r: RootQdisc, dev: string, dir: Direction, rootRate: real, applied: Classes, want: Classes,
                    o: Orders)
    requires ValidOrders(o, applied, want)
    requires IdsFromTwo(applied) && IdsFromTwo(want)
    ensures forall c :: c in RootList(dev, dir, rootRate, applied, want, o) ==> OnRoot(c) && c.dev == dev
    ensures RunRoot(r, RootList(dev, dir, rootRate, applied, want, o)) == AppliedRoot(dir, rootRate, applied, want, o)
    ensures !RootReports(r, RootList(dev, dir, rootRate, applied, want, o))
  {
    var base := RootCommands(dev, rootRate) + [FilterFlush(dev)];
    var reps := ReplaceCommands(dev, want, o.replace);
    var start := map[1 := RootClass(rootRate)];
    var cs := ReplacedClasses(start, want, o.replace);
    RunRootCommands(r, dev, rootRate);
    RunReplaces(dev, start, map[], want, o.replace);
    RunRootConcat(r, base, reps);
    ReplacedShape(RootClass(rootRate), want, o.replace);
    RunTail(base + reps, r, dev, dir, cs, applied, want, o);
  }

  // ---- Exactness ----

  /** An injective map has as many images as keys, and only such a map has. */
  lemma {:induction false} ImageSize(want: Classes)
    ensures |ClassIds(want)| <= |want|
    ensures |ClassIds(want)| == |want| <==> DistinctIds(want)
    decreases want
  {
    if want == map[] {
      assert ClassIds(want) == {};
    } else {
      var n :| n in want;
      var rest := want - {n};
      ImageSize(rest);
      assert want == rest[n := want[n]];
      assert |want| == |rest| + 1;
      assert ClassIds(want) == ClassIds(rest) + {want[n].id};
      if want[n].id in ClassIds(rest) {
        var m :| m in rest && rest[m].id == want[n].id;
        assert ClassIds(want) == ClassIds(rest);
        assert !DistinctIds(want) by { assert want[n].id == want[m].id; }
      } else {
        assert |ClassIds(want)| == |ClassIds(rest)| + 1;
        assert DistinctIds(want) <==> DistinctIds(rest) by {
          assert forall m :: m in rest ==> rest[m].id in ClassIds(rest);
          assert forall m :: m in rest ==> rest[m] == want[m];
        }
      }
    }
  }

  lemma RemovedAreGone(applied: Classes, want: Classes, remove: seq<string>)
    requires Enumerates(remove, applied.Keys)
    requires IdsFromTwo(applied) && RemovedApart(applied, want)
    ensures RemovedIds(applied, want, remove) !! {1} + ClassIds(want)
  {
  }

  lemma RemoveNothing<T>(cs: map<int, T>, gone: set<int>)
    requires gone !! cs.Keys
    ensures cs - gone == cs
  {
  }

  lemma ReplacedKeys(rootRate: real, want: Classes, replace: seq<string>)
    requires Enumerates(replace, want.Keys)
    requires IdsFromTwo(want)
    ensures var cs := ReplacedClasses(map[1 := RootClass(rootRate)], want, replace);
      cs.Keys == {1} + ClassIds(want) && cs[1] == RootClass(rootRate)
  {
    ReplacedShape(RootClass(rootRate), want, replace);
  }

  lemma SizeWithRoot(want: Classes)
    requires IdsFromTwo(want)
    ensures |{1} + ClassIds(want)| == 1 + |want| <==> DistinctIds(want)
  {
    ImageSize(want);
    assert 1 !in ClassIds(want);
    assert |{1} + ClassIds(want)| == 1 + |ClassIds(want)|;
  }

  lemma CompiledClasses(rootRate: real, applied: Classes, want: Classes, replace: seq<string>, remove: seq<string>)
    requires Enumerates(replace, want.Keys) && Enumerates(remove, applied.Keys)
    requires IdsFromTwo(applied) && IdsFromTwo(want)
    requires DistinctIds(want) && RemovedApart(applied, want)
    ensures var cs := ReplacedClasses(map[1 := RootClass(rootRate)], want, replace) - RemovedIds(applied, want, remove);
      && cs.Keys == {1} + ClassIds(want) && |cs| == 1 + |want| && cs[1] == RootClass(rootRate)
      && (forall n :: n in want ==> cs[want[n].id] == HtbClass(1, Kbit(want[n].rate), Kbit(want[n].rate)))
  {
    var cs := ReplacedClasses(map[1 := RootClass(rootRate)], want, replace);
    var gone := RemovedIds(applied, want, remove);
    ReplacedKeys(rootRate, want, replace);
    ReplacedRates(RootClass(rootRate), want, replace);
    RemovedAreGone(applied, want, remove);
    RemoveNothing(cs, gone);
    SizeWithRoot(want);
    assert |cs| == |cs.Keys|;
  }

  lemma CompiledFilters(dir: Direction, want: Classes, order: seq<string>)
    requires Enumerates(order, want.Keys)
    requires DistinctPorts(want)
    ensures var fs := AddedFilters(dir, want, order);
      && fs.Keys == Matches(dir, want)
      && (forall n :: n in want ==> fs[MatchOf(dir, want[n].port)] == want[n].id)
  {
    var fs := AddedFilters(dir, want, order);
    FilterShape(dir, want, order);
    assert fs.Keys == Matches(dir, want);
    forall n | n in want
      ensures fs[MatchOf(dir, want[n].port)] == want[n].id
    {
      var k :| k in order && MatchOf(dir, want[n].port) == MatchOf(dir, want[k].port)
               && fs[MatchOf(dir, want[n].port)] == want[k].id;
      assert k == n;
    }
  }

  lemma CompilableRealizes(dir: Direction, rootRate: real, applied: Classes, want: Classes, o: Orders)
    requires ValidOrders(o, applied, want)
    requires IdsFromTwo(applied) && IdsFromTwo(want)
    requires Compilable(applied, want)
    ensures Realizes(AppliedRoot(dir, rootRate, applied, want, o), dir, rootRate, want)
  {
    CompiledClasses(rootRate, applied, want, o.replace, o.remove);
    CompiledFilters(dir, want, o.filter);
    FiltersMatched(AddedFilters(dir, want, o.filter), dir, want);
  }

  /** Filters can say only machines of different ports apart. */
  lemma FiltersApart(filters: map<Match, int>, dir: Direction, want: Classes)
    requires FiltersSay(filters, dir, want) && DistinctIds(want)
    ensures DistinctPorts(want)
  {
    forall n, m | n in want && m in want && n != m
      ensures want[n].port != want[m].port
    {
      assert want[n].id != want[m].id;
    }
  }

  lemma RealizesCompilable(dir: Direction, rootRate: real, applied: Classes, want: Classes, o: Orders)
    requires ValidOrders(o, applied, want)
    requires IdsFromTwo(applied) && IdsFromTwo(want)
    requires Realizes(AppliedRoot(dir, rootRate, applied, want, o), dir, rootRate, want)
    ensures Compilable(applied, want)
  {
    var root := AppliedRoot(dir, rootRate, applied, want, o);
    ImageSize(want);
    assert 1 !in ClassIds(want);
    assert |root.classes| == |root.classes.Keys|;
    assert |{1} + ClassIds(want)| == 1 + |ClassIds(want)|;
    assert DistinctIds(want);
    FiltersApart(root.filters, dir, want);
    forall r, n | r in applied && r !in want && n in want
      ensures applied[r].id != want[n].id
    {
      assert applied[r].id in RemovedIds(applied, want, o.remove);
      assert want[n].id in ClassIds(want);
    }
  }

  /** The tables an application leaves are the wanted ones exactly when the wanted ids and ports
      are pairwise distinct and no removed machine holds a wanted id. */
  lemma ApplicationExact(r: RootQdisc, dev: string, dir: Direction, rootRate: real, applied: Classes, want: Classes,
                         o: Orders)
    requires ValidOrders(o, applied, want)
    requires IdsFromTwo(applied) && IdsFromTwo(want)
    ensures forall c :: c in RootList(dev, dir, rootRate, applied, want, o) ==> OnRoot(c)
    ensures Realizes(RunRoot(r, RootList(dev, dir, rootRate, applied, want, o)), dir, rootRate, want)
       <==> Compilable(applied, want)
  {
    RunRootList(r, dev, dir, rootRate, applied, want, o);
    if Compilable(applied, want) {
      CompilableRealizes(dir, rootRate, applied, want, o);
    }
    if Realizes(AppliedRoot(dir, rootRate, applied, want, o), dir, rootRate, want) {
      RealizesCompilable(dir, rootRate, applied, want, o);
    }
  }
}
