/**
  The control loop as a state machine: what one round does to the service's state and to the kernel.
  Arbitrary map iteration orders are part of the input of a round.
 */
module QosModel {
  import opened Basics
  import opened TrafficControl
  import opened QosCompiler
  import opened QosAllocator
  import opened QosActivity
  import opened QosShares

  const SECOND := 1000000000
  const MANUAL_ROOT_MBPS := 100000.0

  datatype ManualItem = ManualItem(name: string, outMbps: real, inMbps: real)

  datatype QosConfig = QosConfig(
    mode: string, budgetOut: real, budgetIn: real, activeKBps: real, hysteresisSec: int,
    interface_: string, manual: seq<ManualItem>)

  datatype ServiceError = NoInterface | SampleFailed | CommandFailed(error: Error)

  datatype State = State(
    iface: string, activity: Activity, appliedOut: Classes, appliedIn: Classes, alloc: Alloc,
    lastErr: Option<ServiceError>, kernel: Kernel)

  function Applied(s: State, dir: Direction): Classes {
    if dir.In? then s.appliedIn else s.appliedOut
  }

  function Other(s: State, dir: Direction): Classes {
    if dir.In? then s.appliedOut else s.appliedIn
  }

  function WithApplied(s: State, dir: Direction, cs: Classes): State {
    if dir.In? then s.(appliedIn := cs) else s.(appliedOut := cs)
  }

  function Budget(cfg: QosConfig, dir: Direction): real {
    if dir.In? then cfg.budgetIn else cfg.budgetOut
  }

  // ---- The desired set of a direction ----

  datatype Entry = Entry(name: string, rate: real, port: int)

  predicate Counted(m: MachineSample) {
    m.online && m.active
  }

  function CountActive(samples: seq<MachineSample>): nat
    decreases samples
  {
    if samples == [] then 0
    else CountActive(samples[..|samples|-1]) + if Counted(samples[|samples|-1]) then 1 else 0
  }

  function OnlinePorts(samples: seq<MachineSample>): map<string, int>
    decreases samples
  {
    if samples == [] then map[]
    else
      var ports, m := OnlinePorts(samples[..|samples|-1]), samples[|samples|-1];
      if m.online then ports[m.name := m.port] else ports
  }

  function AutoEntries(samples: seq<MachineSample>, share: real): seq<Entry>
    decreases samples
  {
    if samples == [] then []
    else
      var front, m := AutoEntries(samples[..|samples|-1], share), samples[|samples|-1];
      if Counted(m) then front + [Entry(m.name, share, m.port)] else front
  }

  function Quota(it: ManualItem, dir: Direction): real {
    if dir.In? then it.inMbps else it.outMbps
  }

  function ManualEntries(items: seq<ManualItem>, ports: map<string, int>, dir: Direction): seq<Entry>
    decreases items
  {
    if items == [] then []
    else
      var front, it := ManualEntries(items[..|items|-1], ports, dir), items[|items|-1];
      if it.name in ports && Quota(it, dir) > 0.0
      then front + [Entry(it.name, Quota(it, dir) * 1000000.0, ports[it.name])]
      else front
  }

  function Entries(samples: seq<MachineSample>, dir: Direction, cfg: QosConfig): seq<Entry> {
    if cfg.mode == "manual" then ManualEntries(cfg.manual, OnlinePorts(samples), dir)
    else if Budget(cfg, dir) <= 0.0 || CountActive(samples) == 0 then []
    else AutoEntries(samples, Share(Budget(cfg, dir), CountActive(samples)))
  }

  function RootRate(samples: seq<MachineSample>, dir: Direction, cfg: QosConfig): real {
    if cfg.mode == "manual" then MANUAL_ROOT_MBPS * 1000000.0
    else if Budget(cfg, dir) <= 0.0 || CountActive(samples) == 0 then 0.0
    else Budget(cfg, dir) * 1000000.0
  }

  function Names(entries: seq<Entry>): seq<string> {
    seq(|entries|, i requires 0 <= i < |entries| => entries[i].name)
  }

  /** The class map of a list of entries, given ids for all of them. */
  function WantOf(entries: seq<Entry>, ids: map<string, int>): Classes
    requires forall e :: e in entries ==> e.name in ids
    decreases entries
  {
    if entries == [] then map[]
    else
      var e := entries[|entries|-1];
      WantOf(entries[..|entries|-1], ids)[e.name := ClassState(ids[e.name], e.rate, e.port)]
  }

  lemma NamesHaveIds(a: Alloc, entries: seq<Entry>)
    ensures forall e :: e in entries ==> e.name in AssignAll(a, Names(entries)).ids
  {
    AssignAllShape(a, Names(entries));
    forall e | e in entries
      ensures e.name in AssignAll(a, Names(entries)).ids
    {
      var i :| 0 <= i < |entries| && entries[i] == e;
      assert Names(entries)[i] == e.name;
    }
  }

  // ---- One direction applied or cleared ----

  /** The names, in `order`, that are neither wanted here nor applied in the other direction. */
  function UnusedNames(order: seq<string>, want: Classes, other: Classes): seq<string>
    decreases order
  {
    if order == [] then []
    else
      var front, n := UnusedNames(order[..|order|-1], want, other), order[|order|-1];
      if n in want || n in other then front else front + [n]
  }

  ghost function ErrAfter(err: Option<ServiceError>, k: Kernel, cmds: seq<Command>): Option<ServiceError> {
    if Reports(k, cmds) then Some(CommandFailed(Busy)) else err
  }

  ghost function ApplyDirection(s: State, dev: string, dir: Direction, rootRate: real, want: Classes, o: Orders): State
    requires ValidOrders(o, Applied(s, dir), want)
  {
    var cmds := ApplyCommands(dev, dir, rootRate, Applied(s, dir), want, o);
    WithApplied(s, dir, want).(
      alloc := ReleaseAll(s.alloc, UnusedNames(o.remove, want, Other(s, dir))),
      lastErr := ErrAfter(s.lastErr, s.kernel, cmds),
      kernel := RunAll(s.kernel, cmds))
  }

  ghost function ClearDirection(s: State, dev: string, dir: Direction): State {
    var cmds := ClearCommands(dev, dir);
    WithApplied(s, dir, map[]).(
      lastErr := ErrAfter(s.lastErr, s.kernel, cmds),
      kernel := RunAll(s.kernel, cmds))
  }

  ghost function CleanupAll(s: State): State {
    ClearDirection(ClearDirection(s, s.iface, Out), s.iface, In).(activity := IDLE)
  }

  // ---- A round ----

  /** What a round reads: configuration, the detected default interface, the dashboard's samples
      (`None` when it cannot be read), and the clock. */
  datatype Round = Round(cfg: QosConfig, detected: string, samples: Option<seq<MachineSample>>, now: int)

  datatype RoundOrders = RoundOrders(outward: Orders, inward: Orders)

  function Iface(s: State, r: Round): string {
    if s.iface != "" then s.iface else if r.cfg.interface_ != "" then r.cfg.interface_ else r.detected
  }

  /** The round gets as far as shaping. */
  predicate Shapes(s: State, r: Round) {
    Iface(s, r) != "" && r.cfg.mode != "off" && r.samples.Some?
  }

  /** What a direction should carry; `want` is empty when it is not enabled. */
  datatype Desired = Desired(enabled: bool, rootRate: real, want: Classes)

  /** Everything a shaping round decides before it issues a command. */
  datatype Plan = Plan(activity: Activity, alloc: Alloc, outward: Desired, inward: Desired)

  function DesiredFor(samples: seq<MachineSample>, dir: Direction, cfg: QosConfig, a: Alloc): (Desired, Alloc) {
    var entries := Entries(samples, dir, cfg);
    var b := AssignAll(a, Names(entries));
    NamesHaveIds(a, entries);
    (Desired(entries != [], RootRate(samples, dir, cfg), WantOf(entries, b.ids)), b)
  }

  function PlanFrom(activity: Activity, a: Alloc, cfg: QosConfig, samples: seq<MachineSample>, now: int): Plan {
    var act := UpdateActive(activity, samples, cfg.activeKBps * 1024.0, cfg.hysteresisSec * SECOND, now);
    var flagged := Flag(samples, act.active);
    var (outward, a1) := DesiredFor(flagged, Out, cfg, a);
    var (inward, a2) := DesiredFor(flagged, In, cfg, a1);
    Plan(act, a2, outward, inward)
  }

  function PlanRound(s: State, r: Round): Plan
    requires r.samples.Some?
  {
    PlanFrom(s.activity, s.alloc, r.cfg, r.samples.value, r.now)
  }

  ghost predicate ValidPlanOrders(s: State, p: Plan, o: RoundOrders) {
    && (p.outward.enabled ==> ValidOrders(o.outward, s.appliedOut, p.outward.want))
    && (p.inward.enabled ==> ValidOrders(o.inward, s.appliedIn, p.inward.want))
  }

  ghost predicate ValidRoundOrders(s: State, r: Round, o: RoundOrders) {
    Shapes(s, r) ==> ValidPlanOrders(s, PlanRound(s, r), o)
  }

  ghost function SteerDirection(s: State, dir: Direction, d: Desired, o: Orders): State
    requires d.enabled ==> ValidOrders(o, Applied(s, dir), d.want)
  {
    if d.enabled then ApplyDirection(s, s.iface, dir, d.rootRate, d.want, o) else ClearDirection(s, s.iface, dir)
  }

  /** The state when the first command of a shaping round is issued. */
  function Planned(s: State, dev: string, p: Plan): State {
    s.(iface := dev, activity := p.activity, alloc := p.alloc, lastErr := None)
  }

  /** A plan carried out: outbound first, then inbound. */
  ghost function CarryOut(s: State, dev: string, p: Plan, o: RoundOrders): State
    requires ValidPlanOrders(s, p, o)
  {
    SteerDirection(SteerDirection(Planned(s, dev, p), Out, p.outward, o.outward), In, p.inward, o.inward)
  }

  ghost function Reconcile(s: State, r: Round, o: RoundOrders): State
    requires ValidRoundOrders(s, r, o)
  {
    var t := s.(iface := Iface(s, r));
    if t.iface == "" then CleanupAll(t.(lastErr := Some(NoInterface)))
    else if r.cfg.mode == "off" then CleanupAll(t).(lastErr := None)
    else if r.samples.None? then CleanupAll(t.(lastErr := Some(SampleFailed)))
    else CarryOut(s, t.iface, PlanRound(s, r), o)
  }
}
