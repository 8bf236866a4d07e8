/**
  The part of the Linux traffic control state that the bandwidth service commands
  through `tc` and `ip`: per device a link, a root qdisc with its class and filter
  tables, and an ingress hook with its redirects. A command that fails changes nothing.
 */
module TrafficControl {
  import opened Basics

  datatype Match = Sport(port: int) | Dport(port: int)

  /** `parent` is 0 for a class hung on the qdisc itself, else the id of the parent class. */
  datatype HtbClass = HtbClass(parent: int, rate: int, ceil: int)

  /** `Default` is the device's own qdisc (handle 0), `Foreign` one the service did not install.
      A port is classified by the first filter added for it, so the table keeps the first. */
  datatype RootQdisc =
    | Default
    | Foreign
    | Htb(classes: map<int, HtbClass>, filters: map<Match, int>)

  /** `ingress` holds the redirect targets of the ingress hook, in the order they were added. */
  datatype Device = Device(up: bool, root: RootQdisc, ingress: Option<seq<string>>)

  type Kernel = map<string, Device>

  datatype Error =
    | FileExists | NoSuchFile | CannotFindDevice | HandleOfZero | ParentMissing | Busy

  /** Everything that says "already there" or "not there" is ignored; a refused removal is not. */
  predicate IsBenignError(e: Error) {
    !e.Busy?
  }

  datatype Command =
    | LinkAdd(dev: string)
    | LinkUp(dev: string)
    | IngressAdd(dev: string)
    | IngressDel(dev: string)
    | IngressFlush(dev: string)
    | RedirectAdd(dev: string, target: string)
    | RootAdd(dev: string)
    | RootDel(dev: string)
    | ClassReplace(dev: string, parent: int, id: int, rate: int, ceil: int)
    | ClassDel(dev: string, id: int)
    | FilterFlush(dev: string)
    | FilterAdd(dev: string, match_: Match, flow: int)

  predicate OnRoot(c: Command) {
    c.RootAdd? || c.RootDel? || c.ClassReplace? || c.ClassDel? || c.FilterFlush? || c.FilterAdd?
  }

  predicate OnIngress(c: Command) {
    c.IngressAdd? || c.IngressDel? || c.IngressFlush? || c.RedirectAdd?
  }

  datatype RootResult = RootResult(root: RootQdisc, err: Option<Error>)
  datatype IngressResult = IngressResult(ingress: Option<seq<string>>, err: Option<Error>)
  datatype Result = Result(kernel: Kernel, err: Option<Error>)

  predicate HasChild(classes: map<int, HtbClass>, id: int) {
    exists c :: c in classes && classes[c].parent == id
  }

  predicate HasFilter(filters: map<Match, int>, id: int) {
    exists m :: m in filters && filters[m] == id
  }

  function RootStep(r: RootQdisc, c: Command): RootResult
    requires OnRoot(c)
  {
    match c
    case RootAdd(_) =>
      if r.Default? then RootResult(Htb(map[], map[]), None) else RootResult(r, Some(FileExists))
    case RootDel(_) =>
      if r.Default? then RootResult(r, Some(HandleOfZero)) else RootResult(Default, None)
    case ClassReplace(_, parent, id, rate, ceil) =>
      if !r.Htb? then RootResult(r, Some(ParentMissing))
      else
        var p := if id in r.classes then r.classes[id].parent else parent;
        RootResult(Htb(r.classes[id := HtbClass(p, rate, ceil)], r.filters), None)
    case ClassDel(_, id) =>
      if !r.Htb? then RootResult(r, Some(ParentMissing))
      else if id !in r.classes then RootResult(r, Some(NoSuchFile))
      else if HasFilter(r.filters, id) || HasChild(r.classes, id) then RootResult(r, Some(Busy))
      else RootResult(Htb(r.classes - {id}, r.filters), None)
    case FilterFlush(_) =>
      if !r.Htb? then RootResult(r, Some(ParentMissing))
      else if r.filters == map[] then RootResult(r, Some(NoSuchFile))
      else RootResult(Htb(r.classes, map[]), None)
    case FilterAdd(_, m, flow) =>
      if !r.Htb? then RootResult(r, Some(ParentMissing))
      else if m in r.filters then RootResult(r, None)
      else RootResult(Htb(r.classes, r.filters[m := flow]), None)
  }

  function IngressStep(h: Option<seq<string>>, devices: set<string>, c: Command): IngressResult
    requires OnIngress(c)
  {
    match c
    case IngressAdd(_) =>
      if h.Some? then IngressResult(h, Some(FileExists)) else IngressResult(Some([]), None)
    case IngressDel(_) =>
      if h.None? then IngressResult(h, Some(NoSuchFile)) else IngressResult(None, None)
    case IngressFlush(_) =>
      if h.None? then IngressResult(h, Some(ParentMissing))
      else if h.value == [] then IngressResult(h, Some(NoSuchFile))
      else IngressResult(Some([]), None)
    case RedirectAdd(_, target) =>
      if h.None? then IngressResult(h, Some(ParentMissing))
      else if target !in devices then IngressResult(h, Some(CannotFindDevice))
      else IngressResult(Some(h.value + [target]), None)
  }

  function Exec(k: Kernel, c: Command): Result {
    if c.LinkAdd? then
      if c.dev in k then Result(k, Some(FileExists))
      else Result(k[c.dev := Device(false, Default, None)], None)
    else if c.dev !in k then Result(k, Some(CannotFindDevice))
    else if c.LinkUp? then Result(k[c.dev := k[c.dev].(up := true)], None)
    else if OnRoot(c) then
      var s := RootStep(k[c.dev].root, c);
      Result(k[c.dev := k[c.dev].(root := s.root)], s.err)
    else
      var s := IngressStep(k[c.dev].ingress, k.Keys, c);
      Result(k[c.dev := k[c.dev].(ingress := s.ingress)], s.err)
  }

  /** The kernel after a command list, failing commands skipped. */
  function RunAll(k: Kernel, cmds: seq<Command>): Kernel
    decreases cmds
  {
    if cmds == [] then k else RunAll(Exec(k, cmds[0]).kernel, cmds[1..])
  }

  predicate IsSevere(r: Result) {
    r.err.Some? && !IsBenignError(r.err.value)
  }

  /** Some command of the list fails with an error that the service reports. */
  predicate Reports(k: Kernel, cmds: seq<Command>)
    decreases cmds
  {
    cmds != [] && (IsSevere(Exec(k, cmds[0])) || Reports(Exec(k, cmds[0]).kernel, cmds[1..]))
  }

  /** A list reports exactly if one of its commands is a removal that is refused when its turn comes: every
      other failure is passed over. */
  lemma {:induction false} ReportsExact(k: Kernel, cmds: seq<Command>)
    ensures Reports(k, cmds) <==> exists i :: 0 <= i < |cmds| && Exec(RunAll(k, cmds[..i]), cmds[i]).err == Some(Busy)
    decreases cmds
  {
    if cmds == [] {
    } else {
      var k1, rest := Exec(k, cmds[0]).kernel, cmds[1..];
      ReportsExact(k1, rest);
      forall i | 0 <= i < |rest|
        ensures RunAll(k1, rest[..i]) == RunAll(k, cmds[..i+1]) && rest[i] == cmds[i+1]
      {
        assert cmds[..i+1][0] == cmds[0] && cmds[..i+1][1..] == rest[..i];
      }
      assert cmds[..0] == [] && RunAll(k, cmds[..0]) == k;
      if i :| 0 <= i < |cmds| && Exec(RunAll(k, cmds[..i]), cmds[i]).err == Some(Busy) {
        if i > 0 {
          assert Exec(RunAll(k1, rest[..i-1]), rest[i-1]).err == Some(Busy);
        }
      }
      if i :| 0 <= i < |rest| && Exec(RunAll(k1, rest[..i]), rest[i]).err == Some(Busy) {
        assert Exec(RunAll(k, cmds[..i+1]), cmds[i+1]).err == Some(Busy);
      }
    }
  }

  lemma {:induction false} RunAllConcat(k: Kernel, a: seq<Command>, b: seq<Command>)
    ensures RunAll(k, a + b) == RunAll(RunAll(k, a), b)
    ensures Reports(k, a + b) <==> Reports(k, a) || Reports(RunAll(k, a), b)
    decreases a
  {
    if a == [] {
      assert a + b == b;
    } else {
      assert (a + b)[1..] == a[1..] + b;
      RunAllConcat(Exec(k, a[0]).kernel, a[1..], b);
    }
  }

  /** Commands of one device's root qdisc, run on that qdisc alone. */
  function RunRoot(r: RootQdisc, cmds: seq<Command>): RootQdisc
    requires forall c :: c in cmds ==> OnRoot(c)
    decreases cmds
  {
    if cmds == [] then r else RunRoot(RootStep(r, cmds[0]).root, cmds[1..])
  }

  predicate RootReports(r: RootQdisc, cmds: seq<Command>)
    requires forall c :: c in cmds ==> OnRoot(c)
    decreases cmds
  {
    cmds != [] && (RootStep(r, cmds[0]).err == Some(Busy) || RootReports(RootStep(r, cmds[0]).root, cmds[1..]))
  }

  lemma {:induction false} RunRootConcat(r: RootQdisc, a: seq<Command>, b: seq<Command>)
    requires forall c :: c in a ==> OnRoot(c)
    requires forall c :: c in b ==> OnRoot(c)
    ensures forall c :: c in a + b ==> OnRoot(c)
    ensures RunRoot(r, a + b) == RunRoot(RunRoot(r, a), b)
    ensures RootReports(r, a + b) <==> RootReports(r, a) || RootReports(RunRoot(r, a), b)
    decreases a
  {
    if a == [] {
      assert a + b == b;
    } else {
      assert (a + b)[1..] == a[1..] + b;
      RunRootConcat(RootStep(r, a[0]).root, a[1..], b);
    }
  }

  /** A list that addresses one device's root qdisc changes nothing else in the kernel. */
  lemma {:induction false} RunAllOnRoot(k: Kernel, dev: string, cmds: seq<Command>)
    requires dev in k
    requires forall c :: c in cmds ==> OnRoot(c) && c.dev == dev
    ensures RunAll(k, cmds) == k[dev := k[dev].(root := RunRoot(k[dev].root, cmds))]
    ensures Reports(k, cmds) <==> RootReports(k[dev].root, cmds)
    decreases cmds
  {
    if cmds == [] {
      assert k[dev := k[dev]] == k;
    } else {
      RunAllOnRoot(Exec(k, cmds[0]).kernel, dev, cmds[1..]);
    }
  }

  /** On a device that does not exist every command fails, and only benignly. */
  lemma {:induction false} RunAllOnMissingDevice(k: Kernel, cmds: seq<Command>)
    requires forall c :: c in cmds ==> c.dev !in k && !c.LinkAdd?
    ensures RunAll(k, cmds) == k && !Reports(k, cmds)
  {
    if cmds == [] {
    } else {
      RunAllOnMissingDevice(k, cmds[1..]);
    }
  }
}
