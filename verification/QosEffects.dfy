/**
  What applying and clearing a direction does to a whole kernel: which devices change, that the
  two directions do not interfere, and that applying converges from any prior state.
 */
module QosEffects {
  import opened Basics
  import opened TrafficControl
  import opened QosCompiler

  /** The kernel after an application that leaves `root` on the shaping device. */
  ghost function ApplyKernel(k: Kernel, dev: string, dir: Direction, root: RootQdisc): Kernel {
    if dir.Out? then
      if dev in k then k[dev := k[dev].(root := root)] else k
    else
      var ifb := if IFB_DEV in k then k[IFB_DEV] else Device(false, Default, None);
      var linked := k[IFB_DEV := ifb.(up := true, root := root)];
      if dev in linked then linked[dev := linked[dev].(ingress := Some([IFB_DEV]))] else linked
  }

  ghost function ClearKernel(k: Kernel, dev: string, dir: Direction): Kernel {
    if dir.Out? then
      if dev in k then k[dev := k[dev].(root := Default)] else k
    else
      var cut := if dev in k then k[dev := k[dev].(ingress := None)] else k;
      if IFB_DEV in cut then cut[IFB_DEV := cut[IFB_DEV].(root := Default)] else cut
  }

  lemma RunSingle(k: Kernel, c: Command)
    ensures RunAll(k, [c]) == Exec(k, c).kernel
    ensures Reports(k, [c]) <==> IsSevere(Exec(k, c))
  {
    assert [c][1..] == [];
    assert RunAll(k, [c]) == RunAll(Exec(k, c).kernel, []);
  }

  lemma RunLinkCommands(k: Kernel)
    ensures RunAll(k, LinkCommands()) ==
            k[IFB_DEV := (if IFB_DEV in k then k[IFB_DEV] else Device(false, Default, None)).(up := true)]
    ensures !Reports(k, LinkCommands())
  {
    RunSingle(k, LinkAdd(IFB_DEV));
    var k1 := Exec(k, LinkAdd(IFB_DEV)).kernel;
    RunSingle(k1, LinkUp(IFB_DEV));
    RunAllConcat(k, [LinkAdd(IFB_DEV)], [LinkUp(IFB_DEV)]);
    assert LinkCommands() == [LinkAdd(IFB_DEV)] + [LinkUp(IFB_DEV)];
    assert RunAll(k, LinkCommands()) == Exec(k1, LinkUp(IFB_DEV)).kernel;
  }

  lemma RunRedirectCommands(k: Kernel, dev: string)
    requires IFB_DEV in k
    ensures RunAll(k, RedirectCommands(dev)) ==
            if dev in k then k[dev := k[dev].(ingress := Some([IFB_DEV]))] else k
    ensures !Reports(k, RedirectCommands(dev))
  {
    var add, flush, redirect := IngressAdd(dev), IngressFlush(dev), RedirectAdd(dev, IFB_DEV);
    var k1 := Exec(k, add).kernel;
    var k2 := Exec(k1, flush).kernel;
    RunSingle(k, add);
    RunSingle(k1, flush);
    RunSingle(k2, redirect);
    RunAllConcat(k, [add], [flush]);
    RunAllConcat(k, [add] + [flush], [redirect]);
    assert RedirectCommands(dev) == [add] + [flush] + [redirect];
    if dev in k {
      var d := k[dev];
      var d1 := d.(ingress := if d.ingress.Some? then d.ingress else Some([]));
      assert k1 == k[dev := d1];
      var d2 := d.(ingress := Some([]));
      assert k2 == k[dev := d2];
      assert Exec(k2, redirect).kernel == k[dev := d.(ingress := Some([] + [IFB_DEV]))];
      assert [] + [IFB_DEV] == [IFB_DEV];
    }
  }

  /** Hooking the redirect before or after filling ifb0's tables is the same. */
  lemma SwapIngressAndRoot(k: Kernel, dev: string, k1: Kernel, k2: Kernel, root: RootQdisc)
    requires k1 == k[IFB_DEV := (if IFB_DEV in k then k[IFB_DEV] else Device(false, Default, None)).(up := true)]
    requires k2 == if dev in k1 then k1[dev := k1[dev].(ingress := Some([IFB_DEV]))] else k1
    ensures k2[IFB_DEV := k2[IFB_DEV].(root := root)] == ApplyKernel(k, dev, In, root)
  {
  }

  lemma RunListOn(k: Kernel, dev: string, dir: Direction, rootRate: real, applied: Classes, want: Classes, o: Orders)
    requires ValidOrders(o, applied, want)
    requires IdsFromTwo(applied) && IdsFromTwo(want)
    ensures RunAll(k, RootList(dev, dir, rootRate, applied, want, o)) ==
            if dev in k then k[dev := k[dev].(root := AppliedRoot(dir, rootRate, applied, want, o))] else k
    ensures !Reports(k, RootList(dev, dir, rootRate, applied, want, o))
  {
    var list := RootList(dev, dir, rootRate, applied, want, o);
    RunRootList(if dev in k then k[dev].root else Default, dev, dir, rootRate, applied, want, o);
    if dev in k {
      RunAllOnRoot(k, dev, list);
    } else {
      RunAllOnMissingDevice(k, list);
    }
  }

  lemma ApplyInRuns(k: Kernel, dev: string, rootRate: real, applied: Classes, want: Classes, o: Orders)
    requires ValidOrders(o, applied, want)
    requires IdsFromTwo(applied) && IdsFromTwo(want)
    ensures RunAll(k, ApplyCommands(dev, In, rootRate, applied, want, o))
         == ApplyKernel(k, dev, In, AppliedRoot(In, rootRate, applied, want, o))
    ensures !Reports(k, ApplyCommands(dev, In, rootRate, applied, want, o))
  {
    var list := RootList(IFB_DEV, In, rootRate, applied, want, o);
    assert ApplyCommands(dev, In, rootRate, applied, want, o) == LinkCommands() + RedirectCommands(dev) + list;
    var k1 := RunAll(k, LinkCommands());
    RunLinkCommands(k);
    var k2 := RunAll(k1, RedirectCommands(dev));
    RunRedirectCommands(k1, dev);
    RunListOn(k2, IFB_DEV, In, rootRate, applied, want, o);
    RunAllConcat(k, LinkCommands(), RedirectCommands(dev));
    RunAllConcat(k, LinkCommands() + RedirectCommands(dev), list);
    SwapIngressAndRoot(k, dev, k1, k2, AppliedRoot(In, rootRate, applied, want, o));
  }

  /** Running the compiled list, on any kernel, in any iteration order: the closed form above,
      and no error that is reported. */
  lemma ApplyRuns(k: Kernel, dev: string, dir: Direction, rootRate: real, applied: Classes, want: Classes, o: Orders)
    requires ValidOrders(o, applied, want)
    requires IdsFromTwo(applied) && IdsFromTwo(want)
    ensures RunAll(k, ApplyCommands(dev, dir, rootRate, applied, want, o))
         == ApplyKernel(k, dev, dir, AppliedRoot(dir, rootRate, applied, want, o))
    ensures !Reports(k, ApplyCommands(dev, dir, rootRate, applied, want, o))
  {
    if dir.Out? {
      assert ApplyCommands(dev, dir, rootRate, applied, want, o) == RootList(dev, dir, rootRate, applied, want, o);
      RunListOn(k, dev, dir, rootRate, applied, want, o);
    } else {
      ApplyInRuns(k, dev, rootRate, applied, want, o);
    }
  }

  lemma CutIngress(k: Kernel, dev: string)
    ensures RunAll(k, [IngressFlush(dev)] + [IngressDel(dev)]) ==
            if dev in k then k[dev := k[dev].(ingress := None)] else k
    ensures !Reports(k, [IngressFlush(dev)] + [IngressDel(dev)])
  {
    var flush, del := IngressFlush(dev), IngressDel(dev);
    RunSingle(k, flush);
    RunSingle(Exec(k, flush).kernel, del);
    RunAllConcat(k, [flush], [del]);
  }

  lemma ClearRuns(k: Kernel, dev: string, dir: Direction)
    ensures RunAll(k, ClearCommands(dev, dir)) == ClearKernel(k, dev, dir)
    ensures !Reports(k, ClearCommands(dev, dir))
  {
    if dir.Out? {
      RunSingle(k, RootDel(dev));
    } else {
      var flush, del, root := IngressFlush(dev), IngressDel(dev), RootDel(IFB_DEV);
      CutIngress(k, dev);
      RunSingle(RunAll(k, [flush] + [del]), root);
      RunAllConcat(k, [flush] + [del], [root]);
      assert ClearCommands(dev, dir) == [flush] + [del] + [root];
    }
  }

  // ---- Refinement of the desired set ----

  lemma AppliedExactly(dir: Direction, rootRate: real, applied: Classes, want: Classes, o: Orders)
    requires ValidOrders(o, applied, want)
    requires IdsFromTwo(applied) && IdsFromTwo(want)
    ensures Realizes(AppliedRoot(dir, rootRate, applied, want, o), dir, rootRate, want) <==> Compilable(applied, want)
  {
    RunRootList(Default, IFB_DEV, dir, rootRate, applied, want, o);
    ApplicationExact(Default, IFB_DEV, dir, rootRate, applied, want, o);
  }

  lemma AppliedDevices(k: Kernel, dev: string, dir: Direction, root: RootQdisc)
    requires dev in k
    ensures var k' := ApplyKernel(k, dev, dir, root);
      var shaping := ShapingDevice(dev, dir);
      && shaping in k' && dev in k'
      && k'[shaping].root == root
      && (dir.In? ==> k'[shaping].up && k'[dev].ingress == Some([IFB_DEV]))
  {
  }

  /** From any kernel with the interface, under any iteration order: afterwards the shaping device
      carries exactly the desired tables if and only if ids and ports allow it, and no command
      failed in a way that is reported. */
  lemma CompilationRefinesDesired(k: Kernel, dev: string, dir: Direction, rootRate: real, applied: Classes,
                                  want: Classes, o: Orders)
    requires dev in k
    requires ValidOrders(o, applied, want)
    requires IdsFromTwo(applied) && IdsFromTwo(want)
    ensures var cmds := ApplyCommands(dev, dir, rootRate, applied, want, o);
      var k' := RunAll(k, cmds);
      var shaping := ShapingDevice(dev, dir);
      && !Reports(k, cmds)
      && shaping in k'
      && (Realizes(k'[shaping].root, dir, rootRate, want) <==> Compilable(applied, want))
      && dev in k'
      && (dir.In? ==> k'[shaping].up && k'[dev].ingress == Some([IFB_DEV]))
  {
    ApplyRuns(k, dev, dir, rootRate, applied, want, o);
    AppliedExactly(dir, rootRate, applied, want, o);
    AppliedDevices(k, dev, dir, AppliedRoot(dir, rootRate, applied, want, o));
  }

  /** What becomes of one machine's traffic: outbound what comes from its remote port, and inbound, on
      ifb0, what goes to it, is put into its class, which is limited to its rate. */
  lemma MachineIsClassified(k: Kernel, dev: string, dir: Direction, rootRate: real, applied: Classes, want: Classes,
                            o: Orders, n: string)
    requires dev in k && ValidOrders(o, applied, want) && IdsFromTwo(applied) && IdsFromTwo(want)
    requires Compilable(applied, want) && n in want
    ensures var k' := RunAll(k, ApplyCommands(dev, dir, rootRate, applied, want, o));
      var shaping := if dir.Out? then dev else "ifb0";
      var m := if dir.Out? then Sport(want[n].port) else Dport(want[n].port);
      && shaping in k' && k'[shaping].root.Htb?
      && m in k'[shaping].root.filters && k'[shaping].root.filters[m] == want[n].id
      && want[n].id in k'[shaping].root.classes
      && k'[shaping].root.classes[want[n].id] == HtbClass(1, Kbit(want[n].rate), Kbit(want[n].rate))
  {
    CompilationRefinesDesired(k, dev, dir, rootRate, applied, want, o);
    assert want[n].id in ClassIds(want);
  }

  lemma SameClasses(a: RootQdisc, b: RootQdisc, want: Classes)
    requires a.Htb? && b.Htb?
    requires a.classes.Keys == b.classes.Keys == {1} + ClassIds(want)
    requires a.classes[1] == b.classes[1]
    requires forall n :: n in want ==> want[n].id in ClassIds(want) && a.classes[want[n].id] == b.classes[want[n].id]
    ensures a.classes == b.classes
  {
    forall i | i in a.classes
      ensures a.classes[i] == b.classes[i]
    {
      if i != 1 {
        var n :| n in want && want[n].id == i;
      }
    }
  }

  lemma SameFilters(a: map<Match, int>, b: map<Match, int>, dir: Direction, want: Classes)
    requires FiltersSay(a, dir, want) && FiltersSay(b, dir, want)
    ensures a == b
  {
    forall m
      ensures m in a <==> m in b
      ensures m in a ==> a[m] == b[m]
    {
    }
  }

  /** At most one pair of tables says `want`. */
  lemma RealizesOnce(a: RootQdisc, b: RootQdisc, dir: Direction, rootRate: real, want: Classes)
    requires Realizes(a, dir, rootRate, want) && Realizes(b, dir, rootRate, want)
    ensures a == b
  {
    SameClasses(a, b, want);
    SameFilters(a.filters, b.filters, dir, want);
  }

  /** The same desired set, applied to any two kernels, from any two previously applied sets and in
      any two iteration orders, leaves the same tables. */
  lemma ApplicationConverges(k1: Kernel, k2: Kernel, dev: string, dir: Direction, rootRate: real, want: Classes,
                             applied1: Classes, o1: Orders, applied2: Classes, o2: Orders)
    requires dev in k1 && dev in k2
    requires ValidOrders(o1, applied1, want) && ValidOrders(o2, applied2, want)
    requires IdsFromTwo(applied1) && IdsFromTwo(applied2) && IdsFromTwo(want)
    requires Compilable(applied1, want) && Compilable(applied2, want)
    ensures var a := RunAll(k1, ApplyCommands(dev, dir, rootRate, applied1, want, o1));
      var b := RunAll(k2, ApplyCommands(dev, dir, rootRate, applied2, want, o2));
      var shaping := ShapingDevice(dev, dir);
      && shaping in a && shaping in b && dev in a && dev in b
      && a[shaping].root == b[shaping].root
      && (dir.In? ==> a[dev].ingress == b[dev].ingress)
  {
    CompilationRefinesDesired(k1, dev, dir, rootRate, applied1, want, o1);
    CompilationRefinesDesired(k2, dev, dir, rootRate, applied2, want, o2);
    var shaping := ShapingDevice(dev, dir);
    RealizesOnce(RunAll(k1, ApplyCommands(dev, dir, rootRate, applied1, want, o1))[shaping].root,
                 RunAll(k2, ApplyCommands(dev, dir, rootRate, applied2, want, o2))[shaping].root, dir, rootRate, want);
  }

  // ---- The two directions ----

  /** A command list that some call of apply or clear issues for direction `dir` on `dev`. */
  ghost predicate IssuedFor(cmds: seq<Command>, dev: string, dir: Direction) {
    || cmds == ClearCommands(dev, dir)
    || exists rootRate: real, applied, want, o ::
         && ValidOrders(o, applied, want) && IdsFromTwo(applied) && IdsFromTwo(want)
         && cmds == ApplyCommands(dev, dir, rootRate, applied, want, o)
  }

  ghost function Effect(k: Kernel, dev: string, dir: Direction, root: Option<RootQdisc>): Kernel {
    if root.Some? then ApplyKernel(k, dev, dir, root.value) else ClearKernel(k, dev, dir)
  }

  /** Every issued list acts as an application of some root or as a clear. */
  lemma IssuedEffect(cmds: seq<Command>, dev: string, dir: Direction) returns (root: Option<RootQdisc>)
    requires IssuedFor(cmds, dev, dir)
    ensures forall k :: RunAll(k, cmds) == Effect(k, dev, dir, root)
  {
    if cmds == ClearCommands(dev, dir) {
      root := None;
      forall k {
        ClearRuns(k, dev, dir);
      }
    } else {
      var rootRate: real, applied, want, o :|
        ValidOrders(o, applied, want) && IdsFromTwo(applied) && IdsFromTwo(want)
        && cmds == ApplyCommands(dev, dir, rootRate, applied, want, o);
      root := Some(AppliedRoot(dir, rootRate, applied, want, o));
      forall k {
        ApplyRuns(k, dev, dir, rootRate, applied, want, o);
      }
    }
  }

  lemma OutEffect(k: Kernel, dev: string, root: Option<RootQdisc>)
    requires dev != IFB_DEV
    ensures Effect(k, dev, Out, root) ==
            if dev in k then k[dev := k[dev].(root := if root.Some? then root.value else Default)] else k
  {
  }

  lemma InEffect(k: Kernel, dev: string, root: Option<RootQdisc>)
    requires dev != IFB_DEV
    ensures var k' := Effect(k, dev, In, root);
      && k'.Keys == k.Keys + (if root.Some? then {IFB_DEV} else {})
      && (dev in k ==> k'[dev] == k[dev].(ingress := if root.Some? then Some([IFB_DEV]) else None))
      && (root.Some? ==>
            k'[IFB_DEV] ==
            (if IFB_DEV in k then k[IFB_DEV] else Device(false, Default, None)).(up := true, root := root.value))
      && (root.None? && IFB_DEV in k ==> k'[IFB_DEV] == k[IFB_DEV].(root := Default))
      && (forall d :: d in k && d != dev && d != IFB_DEV ==> k'[d] == k[d])
  {
  }

  lemma EffectsCommute(k: Kernel, dev: string, a: Option<RootQdisc>, b: Option<RootQdisc>)
    requires dev != IFB_DEV
    ensures Effect(Effect(k, dev, Out, a), dev, In, b) == Effect(Effect(k, dev, In, b), dev, Out, a)
  {
    var ko, ki := Effect(k, dev, Out, a), Effect(k, dev, In, b);
    OutEffect(k, dev, a);
    InEffect(k, dev, b);
    InEffect(ko, dev, b);
    OutEffect(ki, dev, a);
    var left, right := Effect(ko, dev, In, b), Effect(ki, dev, Out, a);
    forall d | d in left
      ensures left[d] == right[d]
    {
      if d != dev && d != IFB_DEV {
        assert d in k;
      }
    }
  }

  /** On any interface but ifb0, outbound and inbound lists commute, and each leaves the other
      direction's tables as they were. */
  lemma DirectionsCommute(k: Kernel, dev: string, out: seq<Command>, inn: seq<Command>)
    requires dev != IFB_DEV
    requires IssuedFor(out, dev, Out) && IssuedFor(inn, dev, In)
    ensures RunAll(k, out + inn) == RunAll(k, inn + out)
    ensures dev in k ==> dev in RunAll(k, inn) && RunAll(k, inn)[dev].root == k[dev].root
    ensures dev in k ==> dev in RunAll(k, out) && RunAll(k, out)[dev].ingress == k[dev].ingress
    ensures IFB_DEV in k ==> IFB_DEV in RunAll(k, out) && RunAll(k, out)[IFB_DEV] == k[IFB_DEV]
  {
    var a := IssuedEffect(out, dev, Out);
    var b := IssuedEffect(inn, dev, In);
    RunAllConcat(k, out, inn);
    RunAllConcat(k, inn, out);
    OutEffect(k, dev, a);
    InEffect(k, dev, b);
    EffectsCommute(k, dev, a, b);
  }
}
