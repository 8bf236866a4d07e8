/**
  The bandwidth service as an object: its maps and counter are updated in place, its commands go to a
  runner one by one. Every method is tied to the corresponding step of the model.
 */
module QosService {
  import opened Basics
  import opened TrafficControl
  import opened QosCompiler
  import opened QosActivity
  import A = QosAllocator
  import M = QosModel
  import R = QosRuns
  import S = QosSampling

  class Runner {
    var kernel: Kernel

    constructor (k: Kernel)
      ensures kernel == k
    {
      kernel := k;
    }

    method Run(c: Command) returns (err: Option<Error>)
      modifies this
      ensures kernel == Exec(old(kernel), c).kernel && err == Exec(old(kernel), c).err
    {
      var result := Exec(kernel, c);
      kernel := result.kernel;
      err := result.err;
    }
  }

  /** The two directions of a plan make up its carrying out. */
  lemma CarriedState(s: M.State, p: M.Plan, o: M.RoundOrders, planned: M.State, between: M.State, u: M.State)
    requires planned == M.Planned(s, s.iface, p)
    requires p.outward.enabled ==> ValidOrders(o.outward, M.Applied(planned, Out), p.outward.want)
    requires between == M.SteerDirection(planned, Out, p.outward, o.outward)
    requires p.inward.enabled ==> ValidOrders(o.inward, M.Applied(between, In), p.inward.want)
    requires u == M.SteerDirection(between, In, p.inward, o.inward)
    ensures M.ValidPlanOrders(s, p, o) && u == M.CarryOut(s, s.iface, p, o)
  {
  }

  /** A round that only cleans up. */
  lemma DownRound(s: M.State, r: M.Round, o: M.RoundOrders, chosen: M.State, u: M.State)
    requires chosen == s.(iface := M.Iface(s, r)) && !M.Shapes(s, r)
    requires u ==
      if chosen.iface == "" then M.CleanupAll(chosen.(lastErr := Some(M.NoInterface)))
      else if r.cfg.mode == "off" then M.CleanupAll(chosen).(lastErr := None)
      else M.CleanupAll(chosen.(lastErr := Some(M.SampleFailed)))
    ensures M.ValidRoundOrders(s, r, o) && u == M.Reconcile(s, r, o)
  {
  }

  /** A round that shapes. */
  lemma ShapedRound(s: M.State, r: M.Round, o: M.RoundOrders, chosen: M.State, u: M.State)
    requires chosen == s.(iface := M.Iface(s, r)) && M.Shapes(s, r)
    requires var p := M.PlanFrom(chosen.activity, chosen.alloc, r.cfg, r.samples.value, r.now);
      M.ValidPlanOrders(chosen, p, o) && u == M.CarryOut(chosen, chosen.iface, p, o)
    ensures M.ValidRoundOrders(s, r, o) && u == M.Reconcile(s, r, o)
  {
    var p := M.PlanRound(s, r);
    assert M.Planned(chosen, chosen.iface, p) == M.Planned(s, chosen.iface, p);
  }

  /** The parts of an application make up its step. */
  lemma AppliedState(s: M.State, t: M.State, dev: string, dir: Direction, rootRate: real, want: Classes, o: Orders)
    requires ValidOrders(o, M.Applied(s, dir), want)
    requires M.Applied(t, dir) == want && M.Other(t, dir) == M.Other(s, dir)
    requires t.iface == s.iface && t.activity == s.activity
    requires t.alloc == A.ReleaseAll(s.alloc, M.UnusedNames(o.remove, want, M.Other(s, dir)))
    requires var cmds := ApplyCommands(dev, dir, rootRate, M.Applied(s, dir), want, o);
      t.lastErr == M.ErrAfter(s.lastErr, s.kernel, cmds) && t.kernel == RunAll(s.kernel, cmds)
    ensures t == M.ApplyDirection(s, dev, dir, rootRate, want, o)
  {
  }

  /** Entry after entry, each name admitted when its class is made. */
  function AdmitAll(start: A.Alloc, entries: seq<M.Entry>): (Classes, A.Alloc)
    decreases entries
  {
    if entries == [] then (map[], start)
    else
      var (res, a) := AdmitAll(start, entries[..|entries|-1]);
      var e := entries[|entries|-1];
      var b := A.ClassID(a, e.name);
      (res[e.name := ClassState(b.ids[e.name], e.rate, e.port)], b)
  }

  lemma {:induction false} WantOfExtends(entries: seq<M.Entry>, before: map<string, int>, after: map<string, int>)
    requires forall x :: x in entries ==> x.name in before
    requires forall n :: n in before ==> n in after && after[n] == before[n]
    ensures M.WantOf(entries, after) == M.WantOf(entries, before)
    decreases entries
  {
    if entries == [] {
    } else {
      WantOfExtends(entries[..|entries|-1], before, after);
    }
  }

  /** Admitting on the way gives the same classes as admitting everyone first. */
  lemma {:induction false} AdmitAllAtOnce(start: A.Alloc, entries: seq<M.Entry>)
    ensures var b := A.AssignAll(start, M.Names(entries));
      && (forall e :: e in entries ==> e.name in b.ids)
      && AdmitAll(start, entries) == (M.WantOf(entries, b.ids), b)
    decreases entries
  {
    M.NamesHaveIds(start, entries);
    if entries == [] {
    } else {
      var front, e := entries[..|entries|-1], entries[|entries|-1];
      AdmitAllAtOnce(start, front);
      assert M.Names(entries)[..|front|] == M.Names(front);
      WantOfExtends(front, A.AssignAll(start, M.Names(front)).ids, A.AssignAll(start, M.Names(entries)).ids);
    }
  }

  lemma OneMoreItem(items: seq<M.ManualItem>, i: int, online: map<string, int>, dir: Direction)
    requires 0 <= i < |items|
    ensures var front, it := M.ManualEntries(items[..i], online, dir), items[i];
      M.ManualEntries(items[..i+1], online, dir) ==
        if it.name in online && M.Quota(it, dir) > 0.0
        then front + [M.Entry(it.name, M.Quota(it, dir) * 1000000.0, online[it.name])]
        else front
  {
    assert items[..i+1][..i] == items[..i];
  }

  lemma {:induction false} ActiveHaveEntries(samples: seq<MachineSample>, share: real)
    ensures |M.AutoEntries(samples, share)| == M.CountActive(samples)
    decreases samples
  {
    if samples == [] {
    } else {
      ActiveHaveEntries(samples[..|samples|-1], share);
    }
  }

  class Service {
    const runner: Runner
    var iface: string
    var active: set<string>
    var lastActive: map<string, int>
    var appliedOut: Classes
    var appliedIn: Classes
    var nextID: int
    var ids: map<string, int>
    var lastErr: Option<M.ServiceError>
    /** The counters of the dashboard's list before. */
    var prevTotals: S.Totals
    /** Whether the control loop has been started and not stopped. */
    var running: bool

    ghost function View(): M.State
      reads this, runner
    {
      M.State(iface, Activity(active, lastActive), appliedOut, appliedIn, A.Alloc(ids, nextID), lastErr, runner.kernel)
    }

    /** The applied classes of one direction, and those of the other. */
    ghost function Mine(dir: Direction): Classes
      reads this
    {
      if dir.In? then appliedIn else appliedOut
    }

    ghost function Theirs(dir: Direction): Classes
      reads this
    {
      if dir.In? then appliedOut else appliedIn
    }

    constructor (runner: Runner)
      ensures this.runner == runner && View() == R.Start(runner.kernel) && prevTotals == map[] && !running
    {
      this.runner := runner;
      iface, active, lastActive := "", {}, map[];
      appliedOut, appliedIn := map[], map[];
      nextID, ids := A.FIRST_CLASS_ID, map[];
      lastErr := None;
      prevTotals := map[];
      running := false;
    }

    // ---- Class ids ----

    method ClassID(name: string) returns (id: int)
      modifies this`ids, this`nextID
      ensures A.Alloc(ids, nextID) == A.ClassID(A.Alloc(old(ids), old(nextID)), name)
      ensures name in ids && id == ids[name]
    {
      if name in ids {
        return ids[name];
      }
      id := nextID;
      nextID := nextID + 1;
      ids := ids[name := id];
    }

    method ReleaseIfUnused(name: string)
      modifies this`ids, this`nextID
      ensures A.Alloc(ids, nextID) ==
              if name in appliedOut || name in appliedIn then A.Alloc(old(ids), old(nextID))
              else A.Release(A.Alloc(old(ids), old(nextID)), name)
    {
      if name in appliedOut {
        return;
      }
      if name in appliedIn {
        return;
      }
      if name in ids {
        var id := ids[name];
        ids := ids - {name};
        if id < nextID {
          nextID := id;
        }
      }
    }

    // ---- Activity ----

    /** The pass over the samples; `online` is each name's last reported state. */
    method MarkSamples(samples: seq<MachineSample>, threshold: real, hysteresis: int, now: int)
      returns (online: map<string, bool>)
      modifies this`active, this`lastActive
      ensures Activity(active, lastActive) == MarkAll(Activity(old(active), old(lastActive)), samples, threshold,
        hysteresis, now)
      ensures forall n :: n in OnlineNames(samples) <==> n in online && online[n]
    {
      ghost var start := Activity(active, lastActive);
      online := map[];
      for i := 0 to |samples|
        invariant Activity(active, lastActive) == MarkAll(start, samples[..i], threshold, hysteresis, now)
        invariant forall n :: n in OnlineNames(samples[..i]) <==> n in online && online[n]
      {
        assert samples[..i+1][..i] == samples[..i];
        var m := samples[i];
        online := online[m.name := m.online];
        if m.online {
          if m.rateIn + m.rateOut > threshold {
            active := active + {m.name};
            lastActive := lastActive[m.name := now];
          } else if m.name in lastActive && now - lastActive[m.name] <= hysteresis {
            active := active + {m.name};
          } else {
            active := active - {m.name};
          }
        }
      }
      assert samples[..|samples|] == samples;
    }

    method DropStale(online: map<string, bool>, ghost up: set<string>)
      requires forall n :: n in up <==> n in online && online[n]
      modifies this`lastActive
      ensures forall n :: n in lastActive <==> n in old(lastActive) && n in up
      ensures forall n :: n in lastActive ==> lastActive[n] == old(lastActive)[n]
    {
      var order := RangeOver(lastActive.Keys);
      for i := 0 to |order|
        invariant forall n :: n in lastActive <==> n in old(lastActive) && (n in order[..i] ==> n in up)
        invariant forall n :: n in lastActive ==> lastActive[n] == old(lastActive)[n]
      {
        assert forall n :: n in order[..i+1] <==> n in order[..i] || n == order[i];
        if !(order[i] in online && online[order[i]]) {
          lastActive := lastActive - {order[i]};
        }
      }
      assert order[..|order|] == order;
    }

    /** The two passes that forget machines that are not online. */
    method DropOffline(online: map<string, bool>, ghost up: set<string>)
      requires forall n :: n in up <==> n in online && online[n]
      modifies this`active, this`lastActive
      ensures Activity(active, lastActive) == KeepOnline(Activity(old(active), old(lastActive)), up)
    {
      var order := RangeOver(active);
      for i := 0 to |order|
        invariant forall n :: n in active <==> n in old(active) && (n in order[..i] ==> n in up)
        invariant forall n :: n in lastActive <==> n in old(lastActive) && (n in order[..i] ==> n in up)
        invariant forall n :: n in lastActive ==> lastActive[n] == old(lastActive)[n]
      {
        assert forall n :: n in order[..i+1] <==> n in order[..i] || n == order[i];
        if !(order[i] in online && online[order[i]]) {
          active := active - {order[i]};
          lastActive := lastActive - {order[i]};
        }
      }
      assert order[..|order|] == order;
      DropStale(online, up);
    }

    method UpdateActive(samples: array<MachineSample>, threshold: real, hysteresis: int, now: int)
      modifies this`active, this`lastActive, samples
      ensures Activity(active, lastActive) ==
              QosActivity.UpdateActive(Activity(old(active), old(lastActive)), old(samples[..]), threshold,
                hysteresis, now)
      ensures samples[..] == Flag(old(samples[..]), active)
    {
      var online := MarkSamples(samples[..], threshold, hysteresis, now);
      DropOffline(online, OnlineNames(samples[..]));
      ghost var kept := Activity(active, lastActive);
      for i := 0 to samples.Length
        invariant Activity(active, lastActive) == kept
        invariant forall j :: 0 <= j < i ==> samples[j] == old(samples[j]).(active := old(samples[j]).name in active)
        invariant forall j :: i <= j < samples.Length ==> samples[j] == old(samples[j])
      {
        samples[i] := samples[i].(active := samples[i].name in active);
      }
    }

    // ---- Desired classes ----

    method CountActive(samples: seq<MachineSample>) returns (n: int)
      ensures n == M.CountActive(samples)
    {
      n := 0;
      for i := 0 to |samples|
        invariant n == M.CountActive(samples[..i])
      {
        assert samples[..i+1][..i] == samples[..i];
        if samples[i].online && samples[i].active {
          n := n + 1;
        }
      }
      assert samples[..|samples|] == samples;
    }

    method OnlinePorts(samples: seq<MachineSample>) returns (online: map<string, int>)
      ensures online == M.OnlinePorts(samples)
    {
      online := map[];
      for i := 0 to |samples|
        invariant online == M.OnlinePorts(samples[..i])
      {
        assert samples[..i+1][..i] == samples[..i];
        if samples[i].online {
          online := online[samples[i].name := samples[i].port];
        }
      }
      assert samples[..|samples|] == samples;
    }

    method Admit(ghost start: A.Alloc, ghost entries: seq<M.Entry>, res: Classes, e: M.Entry) returns (more: Classes)
      requires (res, A.Alloc(ids, nextID)) == AdmitAll(start, entries)
      modifies this`ids, this`nextID
      ensures (more, A.Alloc(ids, nextID)) == AdmitAll(start, entries + [e])
    {
      assert (entries + [e])[..|entries|] == entries;
      var id := ClassID(e.name);
      more := res[e.name := ClassState(id, e.rate, e.port)];
    }

    method ManualDesired(samples: seq<MachineSample>, dir: Direction, cfg: M.QosConfig)
      returns (res: Classes, enabled: bool)
      modifies this`ids, this`nextID
      ensures var entries := M.ManualEntries(cfg.manual, M.OnlinePorts(samples), dir);
        (res, A.Alloc(ids, nextID)) == AdmitAll(A.Alloc(old(ids), old(nextID)), entries) && enabled == (entries != [])
    {
      ghost var start := A.Alloc(ids, nextID);
      var online := OnlinePorts(samples);
      res, enabled := map[], false;
      ghost var entries: seq<M.Entry> := [];
      for i := 0 to |cfg.manual|
        invariant entries == M.ManualEntries(cfg.manual[..i], online, dir)
        invariant (res, A.Alloc(ids, nextID)) == AdmitAll(start, entries)
        invariant enabled == (entries != [])
      {
        OneMoreItem(cfg.manual, i, online, dir);
        var it := cfg.manual[i];
        if it.name in online {
          var v := if dir.In? then it.inMbps else it.outMbps;
          if v > 0.0 {
            ghost var e := M.Entry(it.name, v * 1000000.0, online[it.name]);
            res := Admit(start, entries, res, M.Entry(it.name, v * 1000000.0, online[it.name]));
            enabled, entries := true, entries + [e];
          }
        }
      }
      assert cfg.manual[..|cfg.manual|] == cfg.manual;
    }

    method AutoDesired(samples: seq<MachineSample>, share: real) returns (res: Classes)
      modifies this`ids, this`nextID
      ensures (res, A.Alloc(ids, nextID)) == AdmitAll(A.Alloc(old(ids), old(nextID)), M.AutoEntries(samples, share))
    {
      ghost var start := A.Alloc(ids, nextID);
      res := map[];
      for i := 0 to |samples|
        invariant (res, A.Alloc(ids, nextID)) == AdmitAll(start, M.AutoEntries(samples[..i], share))
      {
        assert samples[..i+1][..i] == samples[..i];
        var m := samples[i];
        if m.online && m.active {
          res := Admit(start, M.AutoEntries(samples[..i], share), res, M.Entry(m.name, share, m.port));
        }
      }
      assert samples[..|samples|] == samples;
    }

    method DesiredFor(samples: seq<MachineSample>, dir: Direction, cfg: M.QosConfig) returns (d: M.Desired)
      modifies this`ids, this`nextID
      ensures (d, A.Alloc(ids, nextID)) == M.DesiredFor(samples, dir, cfg, A.Alloc(old(ids), old(nextID)))
    {
      if cfg.mode == "manual" {
        var res, enabled := ManualDesired(samples, dir, cfg);
        AdmitAllAtOnce(A.Alloc(old(ids), old(nextID)), M.Entries(samples, dir, cfg));
        return M.Desired(enabled, M.MANUAL_ROOT_MBPS * 1000000.0, res);
      }
      d := M.Desired(false, 0.0, map[]);
      var budget := if dir.In? then cfg.budgetIn else cfg.budgetOut;
      if budget > 0.0 {
        var n := CountActive(samples);
        if n > 0 {
          var share := budget * 1000000.0 / n as real;
          var res := AutoDesired(samples, share);
          ActiveHaveEntries(samples, share);
          AdmitAllAtOnce(A.Alloc(old(ids), old(nextID)), M.Entries(samples, dir, cfg));
          d := M.Desired(true, budget * 1000000.0, res);
        }
      }
    }

    // ---- Commands ----

    method SetErr(e: M.ServiceError)
      modifies this`lastErr
      ensures lastErr == Some(e)
    {
      if lastErr.None? || lastErr.value != e {
        lastErr := Some(e);
      }
    }

    method RunCmds(cmds: seq<Command>)
      modifies this`lastErr, runner
      ensures runner.kernel == RunAll(old(runner.kernel), cmds)
      ensures lastErr == M.ErrAfter(old(lastErr), old(runner.kernel), cmds)
    {
      for i := 0 to |cmds|
        invariant RunAll(runner.kernel, cmds[i..]) == RunAll(old(runner.kernel), cmds)
        invariant M.ErrAfter(lastErr, runner.kernel, cmds[i..]) == M.ErrAfter(old(lastErr), old(runner.kernel), cmds)
      {
        assert cmds[i..][1..] == cmds[i+1..];
        var err := runner.Run(cmds[i]);
        if err.Some? && !IsBenignError(err.value) {
          SetErr(M.CommandFailed(err.value));
        }
      }
    }

    /** One class replacement per wanted machine. */
    method ReplaceAll(shaping: string, want: Classes) returns (cmds: seq<Command>, ghost order: seq<string>)
      ensures Enumerates(order, want.Keys)
      ensures cmds == ReplaceCommands(shaping, want, order)
    {
      var names := RangeOver(want.Keys);
      cmds := [];
      for i := 0 to |names|
        invariant forall n :: n in names[..i] ==> n in want
        invariant cmds == ReplaceCommands(shaping, want, names[..i])
      {
        assert names[..i+1][..i] == names[..i];
        cmds := cmds + [ReplaceCommand(shaping, want[names[i]])];
      }
      assert names[..|names|] == names;
      order := names;
    }

    method Forget(dir: Direction, name: string)
      modifies this`appliedOut, this`appliedIn, this`ids, this`nextID
      ensures Mine(dir) == old(Mine(dir)) - {name}
      ensures Theirs(dir) == old(Theirs(dir))
      ensures A.Alloc(ids, nextID) ==
              if name in old(Theirs(dir)) then A.Alloc(old(ids), old(nextID))
              else A.Release(A.Alloc(old(ids), old(nextID)), name)
    {
      if dir.In? {
        appliedIn := appliedIn - {name};
      } else {
        appliedOut := appliedOut - {name};
      }
      ReleaseIfUnused(name);
    }

    /** Deletes the classes of applied machines that are no longer wanted, and gives back the ids of
        those that the other direction does not use either. */
    method RemoveUnwanted(shaping: string, dir: Direction, want: Classes)
      returns (cmds: seq<Command>, ghost order: seq<string>)
      modifies this`appliedOut, this`appliedIn, this`ids, this`nextID
      ensures Enumerates(order, old(Mine(dir)).Keys)
      ensures cmds == DeleteCommands(shaping, old(Mine(dir)), want, order)
      ensures forall n :: n in Mine(dir) ==> n in want
      ensures Theirs(dir) == old(Theirs(dir))
      ensures A.Alloc(ids, nextID) ==
              A.ReleaseAll(A.Alloc(old(ids), old(nextID)), M.UnusedNames(order, want, old(Theirs(dir))))
    {
      var applied := if dir.In? then appliedIn else appliedOut;
      ghost var other, start := Theirs(dir), A.Alloc(ids, nextID);
      var names := RangeOver(applied.Keys);
      cmds := [];
      for i := 0 to |names|
        invariant forall n :: n in names[..i] ==> n in applied
        invariant cmds == DeleteCommands(shaping, applied, want, names[..i])
        invariant Mine(dir).Keys <= applied.Keys
        invariant forall j :: 0 <= j < i && names[j] in Mine(dir) ==> names[j] in want
        invariant Theirs(dir) == other
        invariant A.Alloc(ids, nextID) == A.ReleaseAll(start, M.UnusedNames(names[..i], want, other))
      {
        assert names[..i+1][..i] == names[..i];
        var name := names[i];
        if name !in want {
          cmds := cmds + [ClassDel(shaping, applied[name].id)];
          Forget(dir, name);
        }
      }
      assert names[..|names|] == names;
      order := names;
    }

    method Record(dir: Direction, name: string, c: ClassState)
      modifies this`appliedOut, this`appliedIn
      ensures Mine(dir) == old(Mine(dir))[name := c]
      ensures Theirs(dir) == old(Theirs(dir))
    {
      if dir.In? {
        appliedIn := appliedIn[name := c];
      } else {
        appliedOut := appliedOut[name := c];
      }
    }

    /** One filter per wanted machine, and its entry in the applied map. */
    method InstallWanted(shaping: string, dir: Direction, want: Classes)
      returns (cmds: seq<Command>, ghost order: seq<string>)
      requires forall n :: n in Mine(dir) ==> n in want
      modifies this`appliedOut, this`appliedIn
      ensures Enumerates(order, want.Keys)
      ensures cmds == FilterCommands(shaping, dir, want, order)
      ensures Mine(dir) == want && Theirs(dir) == old(Theirs(dir))
    {
      var names := RangeOver(want.Keys);
      cmds := [];
      for i := 0 to |names|
        invariant forall n :: n in names[..i] ==> n in want
        invariant cmds == FilterCommands(shaping, dir, want, names[..i])
        invariant forall n :: n in Mine(dir) ==> n in want
        invariant forall j :: 0 <= j < i ==> names[j] in Mine(dir) && Mine(dir)[names[j]] == want[names[j]]
        invariant Theirs(dir) == old(Theirs(dir))
      {
        assert names[..i+1][..i] == names[..i];
        var name := names[i];
        cmds := cmds + [FilterAddCommand(shaping, dir, want[name])];
        Record(dir, name, want[name]);
      }
      assert names[..|names|] == names;
      assert Mine(dir) == want;
      order := names;
    }

    /** The command list of an application, with the bookkeeping done while it grows. */
    method Compile(dev: string, dir: Direction, rootRate: real, want: Classes)
      returns (cmds: seq<Command>, ghost o: Orders)
      modifies this`appliedOut, this`appliedIn, this`ids, this`nextID
      ensures ValidOrders(o, old(Mine(dir)), want)
      ensures cmds == ApplyCommands(dev, dir, rootRate, old(Mine(dir)), want, o)
      ensures Mine(dir) == want && Theirs(dir) == old(Theirs(dir))
      ensures A.Alloc(ids, nextID) ==
              A.ReleaseAll(A.Alloc(old(ids), old(nextID)), M.UnusedNames(o.remove, want, old(Theirs(dir))))
    {
      var shaping := if dir.In? then IFB_DEV else dev;
      cmds := BuildBaseCommands(dev, dir, rootRate) + [FilterFlush(shaping)];
      var puts, replace := ReplaceAll(shaping, want);
      var deletes, remove := RemoveUnwanted(shaping, dir, want);
      var filters, filter := InstallWanted(shaping, dir, want);
      cmds := cmds + puts + deletes + filters;
      o := Orders(replace, remove, filter);
    }

    /** Applies `want` to one direction; `o` is the order in which the maps happened to be visited. */
    method ApplyDirection(dev: string, dir: Direction, rootRate: real, want: Classes) returns (ghost o: Orders)
      modifies this`appliedOut, this`appliedIn, this`ids, this`nextID, this`lastErr, runner
      ensures ValidOrders(o, M.Applied(old(View()), dir), want)
      ensures View() == M.ApplyDirection(old(View()), dev, dir, rootRate, want, o)
    {
      ghost var before := View();
      var cmds;
      cmds, o := Compile(dev, dir, rootRate, want);
      RunCmds(cmds);
      AppliedState(before, View(), dev, dir, rootRate, want, o);
    }

    /** Clears one direction. Every name is still applied when its release is tried, so no id is freed. */
    method ClearDirection(dev: string, dir: Direction)
      modifies this`appliedOut, this`appliedIn, this`ids, this`nextID, this`lastErr, runner
      ensures View() == M.ClearDirection(old(View()), dev, dir)
    {
      var order := RangeOver(if dir.In? then appliedIn.Keys else appliedOut.Keys);
      for i := 0 to |order|
        invariant View() == old(View())
      {
        ReleaseIfUnused(order[i]);
      }
      var cmds;
      if dir.In? {
        cmds := [IngressFlush(dev), IngressDel(dev), RootDel(IFB_DEV)];
        appliedIn := map[];
      } else {
        cmds := [RootDel(dev)];
        appliedOut := map[];
      }
      RunCmds(cmds);
    }

    method CleanupAll()
      modifies this, runner
      ensures View() == M.CleanupAll(old(View())) && running == old(running) && prevTotals == old(prevTotals)
    {
      ClearDirection(iface, Out);
      ClearDirection(iface, In);
      active := {};
      lastActive := map[];
    }

    /** Updates the active set and computes both directions' desired classes, handing out ids. */
    method MakePlan(cfg: M.QosConfig, samples: array<MachineSample>, now: int)
      returns (outward: M.Desired, inward: M.Desired)
      modifies this`active, this`lastActive, this`ids, this`nextID, samples
      ensures M.Plan(Activity(active, lastActive), A.Alloc(ids, nextID), outward, inward) ==
              M.PlanFrom(Activity(old(active), old(lastActive)), A.Alloc(old(ids), old(nextID)), cfg,
                old(samples[..]), now)
    {
      UpdateActive(samples, cfg.activeKBps * 1024.0, cfg.hysteresisSec * M.SECOND, now);
      outward := DesiredFor(samples[..], Out, cfg);
      inward := DesiredFor(samples[..], In, cfg);
    }

    method Steer(dir: Direction, d: M.Desired) returns (ghost o: Orders)
      modifies this`appliedOut, this`appliedIn, this`ids, this`nextID, this`lastErr, runner
      ensures d.enabled ==> ValidOrders(o, M.Applied(old(View()), dir), d.want)
      ensures View() == M.SteerDirection(old(View()), dir, d, o)
    {
      o := Orders([], [], []);
      if d.enabled {
        o := ApplyDirection(iface, dir, d.rootRate, d.want);
      } else {
        ClearDirection(iface, dir);
      }
    }

    /** Both directions of a plan `p` made in state `s`, outbound first. */
    method SteerBoth(ghost s: M.State, ghost p: M.Plan, outDesired: M.Desired, inDesired: M.Desired)
      returns (ghost o: M.RoundOrders)
      requires View() == M.Planned(s, s.iface, p) && outDesired == p.outward && inDesired == p.inward
      modifies this`appliedOut, this`appliedIn, this`ids, this`nextID, this`lastErr, runner
      ensures M.ValidPlanOrders(s, p, o) && View() == M.CarryOut(s, s.iface, p, o)
    {
      ghost var planned := View();
      ghost var outward := Steer(Out, outDesired);
      ghost var between := View();
      ghost var inward := Steer(In, inDesired);
      o := M.RoundOrders(outward, inward);
      CarriedState(s, p, o, planned, between, View());
    }

    /** Everything a round decides before it issues a command. */
    method Decide(cfg: M.QosConfig, samples: array<MachineSample>, now: int, ghost p: M.Plan)
      returns (outward: M.Desired, inward: M.Desired)
      requires p == M.PlanFrom(Activity(active, lastActive), A.Alloc(ids, nextID), cfg, samples[..], now)
      modifies this`active, this`lastActive, this`ids, this`nextID, this`lastErr, samples
      ensures View() == M.Planned(old(View()), iface, p) && outward == p.outward && inward == p.inward
    {
      outward, inward := MakePlan(cfg, samples, now);
      lastErr := None;
    }

    /** The part of a round that plans and steers both directions. */
    method Shape(cfg: M.QosConfig, samples: array<MachineSample>, now: int) returns (ghost o: M.RoundOrders)
      modifies this, runner, samples
      ensures var s := old(View());
        var p := M.PlanFrom(s.activity, s.alloc, cfg, old(samples[..]), now);
        && M.ValidPlanOrders(s, p, o)
        && View() == M.CarryOut(s, s.iface, p, o) && running == old(running) && prevTotals == old(prevTotals)
    {
      ghost var s := View();
      ghost var p := M.PlanFrom(s.activity, s.alloc, cfg, samples[..], now);
      var outDesired, inDesired := Decide(cfg, samples, now, p);
      o := SteerBoth(s, p, outDesired, inDesired);
    }

    /** Measures the dashboard's list against the one before. */
    method Sample(listings: seq<S.Listing>) returns (out: seq<MachineSample>)
      modifies this`prevTotals
      ensures S.Sampling(prevTotals, out) == S.Sample(old(prevTotals), listings)
    {
      out := [];
      for i := 0 to |listings|
        invariant S.Sampling(prevTotals, out) == S.Sample(old(prevTotals), listings[..i])
      {
        assert listings[..i+1][..i] == listings[..i];
        var l := listings[i];
        if l.remotePort > 0 {
          var rateIn, rateOut := 0.0, 0.0;
          if l.name in prevTotals && l.online {
            var rIn := (l.inBytes - prevTotals[l.name].0) as real / S.POLL_SECONDS;
            var rOut := (l.outBytes - prevTotals[l.name].1) as real / S.POLL_SECONDS;
            if rIn < 0.0 || rOut < 0.0 {
              rIn, rOut := 0.0, 0.0;
            }
            rateIn, rateOut := rIn, rOut;
          }
          prevTotals := prevTotals[l.name := (l.inBytes, l.outBytes)];
          out := out + [MachineSample(l.name, l.remotePort, l.online, rateIn, rateOut, false)];
        }
      }
      assert listings[..|listings|] == listings;
    }

    /** The part of a round that has a list to work on. */
    method SampleAndShape(cfg: M.QosConfig, listings: seq<S.Listing>, now: int) returns (ghost o: M.RoundOrders)
      modifies this, runner
      ensures var s, sampling := old(View()), S.Sample(old(prevTotals), listings);
        var p := M.PlanFrom(s.activity, s.alloc, cfg, sampling.samples, now);
        && M.ValidPlanOrders(s, p, o) && View() == M.CarryOut(s, s.iface, p, o)
        && prevTotals == sampling.prev && running == old(running)
    {
      var out := Sample(listings);
      var samples := new MachineSample[|out|](i requires 0 <= i < |out| => out[i]);
      assert samples[..] == out;
      o := Shape(cfg, samples, now);
    }

    /** The interface is chosen once, from the configuration or else as detected. */
    method ChooseIface(cfg: M.QosConfig, detected: string)
      modifies this`iface
      ensures iface ==
        if old(iface) != "" then old(iface) else if cfg.interface_ != "" then cfg.interface_ else detected
      ensures View() == old(View()).(iface := iface)
    {
      if iface == "" {
        if cfg.interface_ != "" {
          iface := cfg.interface_;
        } else {
          iface := detected;
        }
      }
    }

    /** Without an interface, in off mode and without a list there is nothing to shape, and the round only
        cleans up; `readable` tells whether there is a list. */
    method StandDown(cfg: M.QosConfig, readable: bool) returns (down: bool)
      modifies this, runner
      ensures down <==> old(iface) == "" || cfg.mode == "off" || !readable
      ensures View() ==
        if old(iface) == "" then M.CleanupAll(old(View()).(lastErr := Some(M.NoInterface)))
        else if cfg.mode == "off" then M.CleanupAll(old(View())).(lastErr := None)
        else if !readable then M.CleanupAll(old(View()).(lastErr := Some(M.SampleFailed)))
        else old(View())
      ensures running == old(running) && prevTotals == old(prevTotals)
    {
      down := true;
      if iface == "" {
        SetErr(M.NoInterface);
        CleanupAll();
        return;
      }
      if cfg.mode == "off" {
        CleanupAll();
        lastErr := None;
        return;
      }
      if !readable {
        SetErr(M.SampleFailed);
        CleanupAll();
        return;
      }
      down := false;
    }

    /** One control round; there is no dashboard when its list cannot be read. */
    method Reconcile(cfg: M.QosConfig, detected: string, dashboard: Option<seq<S.Listing>>, now: int)
      returns (ghost o: M.RoundOrders)
      modifies this, runner
      ensures var p := S.Poll.Poll(cfg, detected, dashboard, now);
        var r := S.RoundOf(old(prevTotals), p);
        && M.ValidRoundOrders(old(View()), r, o)
        && View() == M.Reconcile(old(View()), r, o)
        && prevTotals == S.TotalsAfter(old(View()), old(prevTotals), p) && running == old(running)
    {
      o := M.RoundOrders(Orders([], [], []), Orders([], [], []));
      ghost var s, p := View(), S.Poll.Poll(cfg, detected, dashboard, now);
      ghost var r := S.RoundOf(prevTotals, p);
      ChooseIface(cfg, detected);
      assert View() == s.(iface := M.Iface(s, r));
      ghost var chosen := View();
      var down := StandDown(cfg, dashboard.Some?);
      if down {
        DownRound(s, r, o, chosen, View());
        return;
      }
      o := SampleAndShape(cfg, dashboard.value, now);
      ShapedRound(s, r, o, chosen, View());
    }

    /** Starts the control loop, once; the rounds it runs are calls of `Reconcile`. */
    method Start()
      modifies this`running
      ensures running
    {
      if running {
        return;
      }
      running := true;
    }

    /** Stops the loop and cleans up; a service that is not running is left alone. */
    method Stop()
      modifies this, runner
      ensures View() == (if old(running) then M.CleanupAll(old(View())) else old(View())) && !running
    {
      if !running {
        return;
      }
      running := false;
      CleanupAll();
    }
  }
}
