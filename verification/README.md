# FRPilot: a Dafny model of its control logic

FRPilot watches an frps tunnel server. This project models the parts of it that keep state over time or
transform one representation into another, and proves what they keep, where they meet their purpose, and
exactly where they do not.

* **The bandwidth controller** (`TrafficControl`, `QosCompiler`, `QosEffects`, `QosAllocator`, `QosActivity`,
  `QosShares`, `QosModel`, `QosRuns`, `QosAgreement`, `QosQuotas`, `QosSampling`, `QosWitnesses`, `QosHistory`,
  `QosCounters`, `QosScenarios`, `QosService`). Every round it samples the proxies, decides with a threshold and a
  hysteresis window which machines are active, divides the budget among them, hands out class ids, and compiles the
  result into a list of `tc` and `ip` commands.
  `TrafficControl` is a small kernel those commands run against: per device a link, a root qdisc with a class
  table and a filter table, and an ingress hook; a failing command changes nothing, and only a refused removal
  is a failure that the service reports. The controller is then a compiler inside a loop. `Realizes` says,
  without looking at any command, what the tables must contain; the command list is proved against it from any
  kernel and under any map order. `QosService.Service` is the object itself, its maps updated in place, each of
  its methods tied to a step of `QosModel`; `QosRuns.After` is the state after any sequence of rounds and stops.
* **The login limiter** (`LoginLimits`, `LoginLocks`, `Auth`, `GuessBounds`, `NameBounds`, `AuthKeys`,
  `ConcurrentLogins`, `OverlapRuns`): a persistent counter per account and per address, with a lock, an observation
  window and a garbage collector; logins one after another, and logins whose database calls interleave in any way.
* **Secret migration** (`Secrets`, `SecretsProofs`): three secrets move from the configuration file into an
  encrypted settings table, with a crash allowed after every single write.
* **Three smaller pieces**: the traffic analysis (`Traffic`, `TrafficProofs`, `TrafficExact`), the shell quoter against the
  tokenising rules of sections 2.2.1 and 2.2.2 of the POSIX Shell Command Language (`ShellQuote`), and the
  bounded table of background jobs with its in-place sort (`TaskTable`).

Map iteration orders are arbitrary everywhere: `Basics.RangeOver` chooses one, and the specifications take it
as a parameter (`Orders`, `order`). Clock readings are parameters too.

What each part is for is also said without its own vocabulary, in the terms of whoever reads its result:
`QosCounters` tells the active set from the dashboard's counters, `QosAgreement.AutoRunByField` the rates from the
two budgets of the configuration, `QosEffects.MachineIsClassified` the filters as source and destination ports,
`LoginLocks` a lock from the failures before it, `AuthKeys` accounts from the codes of characters and limits in
nanoseconds, and `TrafficExact` rates, flags and shares from numbers. `QosScenarios.SendingHappens` goes all the way:
from two lists of a machine that only sends to the filters that catch its port.

## Where the code does not do what it says

* **Class ids collide.** Releasing an id lowers `nextID` to it (`internal/qos/qos.go:494-499`), and admission
  hands out `nextID` without looking at live ids (`internal/qos/qos.go:286-288`). `QosAllocator.AdmissionExact`
  and `ReleaseExact` say exactly when ids stay distinct, `QosAgreement.RunSoundExact` says it for whole runs,
  `QosWitnesses.CollisionRun` is a run on which they do not, and `QosScenarios.CollisionHappens` makes a dashboard
  give it.
* **Ids are released while in use.** The comment at `internal/qos/qos.go:486` promises release only when neither
  direction refers to the machine. The inbound set is computed before the outbound one is applied
  (`internal/qos/qos.go:211-223`), so a machine that moves from outbound to inbound in one manual round loses the
  id its new class carries. `QosAgreement.LinkedExact` is the exact condition, `AutoNeverCrosses` shows that
  automatic mode always meets it, and `QosWitnesses.CrossingRun` shows what follows.
* **So controller and kernel need not agree.** `QosAgreement.AgreementExact` says after which automatic rounds
  they do, whatever has happened before: agreement comes back as soon as a round's own ids and ports are distinct
  and no machine it removes holds one of its ids.
* **Clearing never releases.** `clearDirection` tries to release ids while the names are still in the applied map
  (`internal/qos/qos.go:412-426`), so none is ever released; `QosService.Service.ClearDirection` proves it.
* **A secret cannot be blanked.** The save hook ignores empty values (`internal/config/secrets.go:79-81`), so the
  old value is back after a restart; `RestartAfterSaveExact` says exactly when a restart finds what was saved,
  and `DetectionForgetsForNow` shows a caller that meets the other case.
* **The collector can be seen** with a window that is not positive or longer than its fixed 24 hours;
  `LoginLimits.CollectorExact`. With a lock and a window both longer than that it lets more failures through
  than the limits promise; `LoginLimits.SpacingExact`.
* **The limit for a user name can be lifted by a namesake.** User names are case-sensitive
  (`internal/store/store.go:87`), the limiter's key is lower-cased (`internal/auth/auth.go:142`), and a right
  password clears the key before the user's approval is looked at (`internal/auth/auth.go:163-166`). So whoever owns
  `Admin`, or `admin` with a dotted capital I in it, approved or not, clears the failures of `admin`
  (`AuthKeys.AdminForgets`).
  `NameBounds.NameBoundExact` says exactly when the bound for a name holds on all runs, and `TwinForgets` is the
  step that undoes it.
* **The limit for an address ends with any login from it** (`internal/auth/auth.go:231-233`);
  `NameBounds.AddressBoundExact`.
* **Some addresses have no limit.** A key that ends in a colon is neither looked up nor recorded for an address
  (`internal/auth/auth.go:187`, `218`, `231`). That is meant for an address that is not known, but an address is the
  host text of the connection (`internal/web/handlers_auth.go:132-138`), and an IPv6 address may be written with
  two colons at its end. `NameBounds.AddressBoundExact` says that the bound fails for each of these, and
  `ShortenedAddress` is one. No user's name may hold a colon (`internal/auth/auth.go:114-125`), so for accounts it
  only concerns names that no user has; `Auth.UsersAreLimited`.
* **The limiter can be overrun by requests in flight.** `LoginWithClient` asks, compares and records in separate
  calls (`internal/auth/auth.go:143-162`), so requests that asked before a lock are still compared after it.
  `OverlapRuns.OverlapExact`: for an account as for an address the sequential bound holds on all runs exactly when
  one request at a time is open; `ConcurrentLogins.ComparedBound` is the bound for any number. One with the right
  password lifts the lock; `OverlapRuns.FlightLiftsLock`.
* **The spike detector's minimum of three samples never decides** once the judged sample itself is in the window;
  `TrafficProofs.FlaggedMeansSpike`.

## Model

| member | source | states |
|---|---|---|
| TrafficControl.RunAllConcat | internal/qos/qos.go:476-484 | a list run in two parts ends in the same kernel and reports an error exactly when one of the parts does |
| TrafficControl.ReportsExact | internal/qos/qos.go:476-484 | a list reports an error exactly when one of its commands is a removal that is refused when its turn comes; no other failure is ever reported |
| TrafficControl.RunAllOnRoot | internal/qos/qos.go:476-484 | commands for one device's root qdisc act on that qdisc alone, whatever else is in the kernel |
| TrafficControl.RunAllOnMissingDevice | internal/qos/qos.go:527-537 | on a device that does not exist nothing changes and nothing is reported |
| QosCompiler.RunReplaces | internal/qos/qos.go:379-382 | the class replacements, in any order, fill the class table and report nothing |
| QosCompiler.RunDeletes | internal/qos/qos.go:383-391 | with the filters flushed first, no deletion ever meets a class in use, and exactly the classes of the removed machines go |
| QosCompiler.RunFilters | internal/qos/qos.go:392-396 | the filter rebuild fills the filter table, a machine's source port outbound and its destination port inbound, and reports nothing |
| QosCompiler.RunRootList | internal/qos/qos.go:369-397 | from any root qdisc whatever, the list leaves one table that does not depend on it, and reports nothing |
| QosCompiler.ApplicationExact | internal/qos/qos.go:369-397 | the tables left are the wanted ones (outbound a filter on the source port of each wanted machine and no other filter, inbound one on its destination port and no other) if and only if wanted ids and ports are distinct and no removed machine holds a wanted id |
| QosEffects.ApplyRuns | internal/qos/qos.go:369-397 | the whole list on the whole kernel, ifb0 link and redirect included: what changes on which device, and that no error is reported |
| QosEffects.ClearRuns | internal/qos/qos.go:407-429 | clearing a direction empties its root or its ingress hook and ifb0, touches nothing else, and reports nothing |
| QosEffects.CompilationRefinesDesired | internal/qos/qos.go:369-474 | from any kernel with the interface, under any map order: no error is reported, and the shaping device has exactly the wanted classes, and as filters exactly the wanted source ports outbound and destination ports inbound, each leading to its class, if and only if the desired set is compilable; inbound traffic then goes to ifb0 and nowhere else |
| QosEffects.MachineIsClassified | internal/qos/qos.go:467-474 | so a wanted machine's traffic is put into its class: what comes from its port on the interface outbound, what goes to it on ifb0 inbound, at its rate as rate and ceiling |
| QosEffects.RealizesOnce | internal/qos/qos.go:364-368 | the desired set determines the tables |
| QosEffects.ApplicationConverges | internal/qos/qos.go:364-368 | applying a desired set twice, after any drift, or from another applied set, gives the same tables as once |
| QosEffects.DirectionsCommute | internal/qos/qos.go:213-223 | on an interface other than ifb0 the lists of the two directions commute and each leaves the other's tables alone |
| QosAllocator.AssignAllShape | internal/qos/qos.go:282-290 | names keep the ids they have; the others, and only they, fill the next block of ids, no two alike |
| QosAllocator.AdmissionExact | internal/qos/qos.go:282-290 | admissions keep distinct ids distinct if and only if the block they will use holds no live id |
| QosAllocator.CompactAdmits | internal/qos/qos.go:282-290 | with distinct ids all below the counter there always is room, and admission keeps both |
| QosAllocator.ReleaseAllShape | internal/qos/qos.go:384-391 | a batch of releases forgets exactly the named ids and takes the counter to the least of itself and those ids |
| QosAllocator.ReleaseOrderIrrelevant | internal/qos/qos.go:384-391 | the map order in which a batch is released does not matter |
| QosAllocator.ReleaseExact | internal/qos/qos.go:487-500 | a batch keeps all ids below the counter if and only if the released ids are above all that stay |
| QosAllocator.FromTwoKept | internal/qos/qos.go:21-22 | no id is ever the root class's or less, collisions or not |
| QosActivity.UpdateSeen | internal/qos/qos.go:327-360 | one update as it looks to one machine: what its presence, the sum of its two rates and its recorded time make of its two entries |
| QosActivity.LastActiveIsLatest | internal/qos/qos.go:336-343 | the recorded time is that of the latest round over the threshold from which the machine stayed online, and there is one exactly if such a round exists |
| QosActivity.ActiveIsHistory | internal/qos/qos.go:327-360 | active after the last round if and only if some round found inbound and outbound rate together over its own threshold, is within the last round's window, and the machine was online ever since with no cleanup between |
| QosActivity.ActiveWithinOnline | internal/qos/qos.go:345-355 | active machines are recorded, recorded ones are online |
| QosActivity.ActiveAfter | internal/qos/qos.go:327-360 | the same equivalence after every round of a run |
| QosActivity.DropsApart | internal/qos/qos.go:336-343 | any two drops of a machine that stays online are more than the window apart |
| QosActivity.FewDrops | internal/qos/qos.go:336-343 | so at most t/h + 1 of them fall into any duration t |
| QosShares.SharesAddUp | internal/qos/qos.go:272-278 | equal shares add up to the root rate, and another active machine never raises a share |
| QosShares.RoundingError | internal/qos/qos.go:519-525 | the formatted rate is a nearest whole kbit, on a tie the even one |
| QosShares.KbitError | internal/qos/qos.go:519-525 | a commanded rate is off by at most half a kbit, or by less than the 1 kbit floor |
| QosShares.CommandedTotal | internal/qos/qos.go:519-525 | n equal shares as commanded are off the budget by at most n/2 kbit, or above it by less than n with the floor |
| QosRuns.PlanIsOk | internal/qos/qos.go:208-212 | what a round decides before any command: everyone wanted has an id, only those without one got a new one, a direction is enabled exactly when something is wanted in it |
| QosRuns.CarryShape | internal/qos/qos.go:213-223 | carrying out a plan leaves the wanted sets applied, reports no error, and acts on the kernel as the closed forms say, outbound first |
| QosRuns.CleanupShape | internal/qos/qos.go:431-439 | a cleanup empties applied sets and activity and both directions' rules, and changes no id |
| QosRuns.TakeCleans | internal/qos/qos.go:188-206 | a round without an interface, in off mode or without samples, and a stop, are all exactly a cleanup, each with its own last error |
| QosRuns.NoCommandEverReports | internal/qos/qos.go:476-484 | on every run, collisions included, no command failure is ever reported: the last error is none, a missing interface or a failed sampling |
| QosRuns.RulesStayPut | internal/qos/qos.go:179-225 | on every run all rules lie on the interface's root and ingress and on ifb0; the rest of the kernel is as it was found |
| QosRuns.IfaceFixed | internal/qos/qos.go:181-187 | once not empty, the interface never changes |
| QosRuns.IfaceIsFirstChosen | internal/qos/qos.go:181-187 | after any run it is the one that the first round to find any has found: the configured one, or else the detected |
| QosRuns.CleanupLeavesNothing | internal/qos/qos.go:431-439 | a run that ends in a cleanup leaves no qdisc, class, filter or hook in any place the service uses, and empty applied, active and recorded sets |
| QosAgreement.CarryAlloc | internal/qos/qos.go:384-391 | exactly the names removed from one direction and unused in the other lose their ids in a round |
| QosAgreement.LinkedExact | internal/qos/qos.go:211-223 | every applied class still carries its machine's live id after a round if and only if no machine moved from outbound to inbound in it |
| QosAgreement.AutoNeverCrosses | internal/qos/qos.go:255-278 | automatic mode never makes that move |
| QosAgreement.FitsExact | internal/qos/qos.go:282-290 | the ids a round works with are distinct if and only if there was room for its admissions |
| QosAgreement.CarriedTables | internal/qos/qos.go:213-223 | a plan leaves in each direction exactly the wanted tables, or none and no redirection where nothing is wanted, if and only if wanted ids and ports are distinct and no machine to be removed holds a wanted id |
| QosAgreement.CountedAreActive | internal/qos/qos.go:263-268 | the machines counted for a share are exactly the active ones |
| QosAgreement.AutoPlan | internal/qos/qos.go:255-278 | in automatic mode the wanted machines are the active ones if the direction's budget is positive, else none, each with an equal share: outbound of `budgetOut`, inbound of `budgetIn`, which is also the root rate |
| QosAgreement.FairCarryAgrees | internal/qos/qos.go:208-223 | such a plan, carried out, leaves applied set, rates and kernel tables of a direction in agreement with the active set under exactly that condition |
| QosAgreement.TurnSoundExact | internal/qos/qos.go:179-225 | one turn keeps ids distinct and applied classes linked if and only if it fits: there is room and no machine moves across |
| QosAgreement.RunSoundExact | internal/qos/qos.go:179-225 | the same for every run from the start, by induction over its turns |
| QosAgreement.AgreementExact | internal/qos/qos.go:179-279 | after every successful automatic round of every run, collisions before it included, and for each direction: applied is the active set (none if the budget is 0), every rate is the outbound budget over its size outbound and the inbound one inbound, and classes and filters on the shaping device are exactly the image of applied, source ports outbound and destination ports inbound, if and only if the wanted ids and ports are distinct and no machine to be removed holds a wanted id; every port is a sampled one |
| QosAgreement.AutoRunByField | internal/qos/qos.go:255-278 | after every such round the outbound rates are equal and add up to `budgetOut`, the inbound ones to `budgetIn`, and where a direction agrees the root class of the interface has the outbound, that of ifb0 the inbound budget |
| QosAgreement.WholeRunAgreement | internal/qos/qos.go:179-279 | so both directions agree after every such round of a run that fits, with one online proxy per port |
| QosAgreement.FirstRoundAgrees | internal/qos/qos.go:179-225 | the first automatic round on an existing interface fits and agrees, whatever rules the kernel held before; as a dashboard's first list gives no rates, it is a round with nothing active (`QosHistory.FirstRoundIdle`) |
| QosQuotas.QuotaOfExact | internal/qos/qos.go:239-252 | a machine has a quota exactly if some item of the list gives it a positive one |
| QosQuotas.QuotaOfLast | internal/qos/qos.go:239-252 | and where several do, the last of them counts, outbound by its `outMbps` and inbound by its `inMbps` |
| QosQuotas.ManualAgreementExact | internal/qos/qos.go:179-253 | after every successful manual round of every run, collisions before it included, and for each direction: applied are exactly the online machines with a positive quota, each at its `outMbps` outbound and its `inMbps` inbound and at a sampled port, and classes and filters on the shaping device are exactly the image of applied if and only if the wanted ids and ports are distinct and no machine to be removed holds a wanted id |
| QosQuotas.ManualRunAgreement | internal/qos/qos.go:179-253 | so both directions agree after every such round of a run that fits, with one online proxy per port |
| QosAgreement.TidyExact | internal/qos/qos.go:487-500 | a run keeps fitting with its counter above every live id if and only if every turn gives back only ids above all that stay and moves no machine across |
| QosAgreement.InstalledAfterRun | internal/qos/qos.go:380-382 | after any run, in a direction that agrees, the rates in the kernel's class table add up to that direction's own budget but for n/2 kbit, or less than n with the floor |
| QosAgreement.StaleIdBreaksTables | internal/qos/qos.go:383-391 | whenever a removed machine holds a wanted id the tables left are not the wanted ones |
| QosWitnesses.RoundBy | internal/qos/qos.go:208-223 | any shaping round, told by the names it wants in each direction: the ids it admits and gives back, in any map orders |
| QosSampling.SampleShape | internal/qos/qos.go:294-323 | with every name listed once: a sample for exactly the proxies with a port, with the rates since the counters of the list before (none at first sight, offline, or if a counter went back), whose counters then replace those; the rest keep theirs |
| QosSampling.SampleByCounters | internal/qos/qos.go:304-317 | the two rates of a sample are the growth of the two counters over 15 seconds, or both zero if either went back, at first sight and offline |
| QosSampling.SampleEach | internal/qos/qos.go:294-323 | if all have a port, the samples come one by one in the list's order |
| QosWitnesses.CollisionRun | internal/qos/qos.go:282-290 | from the start on any kernel, in any map orders, four automatic rounds (nobody is busy, two machines join, the first goes offline, two more join) end with two applied classes of one id and outbound tables that do not agree; the first three fit |
| QosWitnesses.CrossingRun | internal/qos/qos.go:211-223 | from the start on any kernel, in any map orders, three manual rounds (two machines outbound, one of them moves to inbound, a third takes its place there): the second does not fit, and after the third ifb0 does not carry the wanted class |
| QosScenarios.CollisionHappens | internal/qos/qos.go:294-323 | on every kernel with the interface, four lists that a dashboard can give, 15 seconds apart and with one online proxy per port, are measured by a service just started into such a run |
| QosScenarios.CrossingHappens | internal/qos/qos.go:211-223 | and three lists of idle machines, under changing quotas, into a run in which a machine moves across and ifb0 does not carry the wanted class |
| QosScenarios.SendingHappens | internal/qos/qos.go:179-279 | on every kernel with the interface, two lists of one machine that only sends: it is active, alone, and with budgets of 100 and 20 Mbit/s its source port leads to a class of 100 Mbit/s on the interface and its destination port to one of 20 Mbit/s on ifb0, which are also the root rates |
| QosHistory.ActivityOfRun | internal/qos/qos.go:179-225 | the controller's activity after any run is that of its updates, with every cleanup a reset |
| QosHistory.ControllerActiveIsHistory | internal/qos/qos.go:325-360 | the history equivalence for whole runs of the controller, off periods, failures and stops included |
| QosHistory.ControllerDropsApart | internal/qos/qos.go:336-343 | on every run of the controller two rounds that drop a machine which stays online, under one window, are more than that window apart |
| QosHistory.ControllerFewDrops | internal/qos/qos.go:336-343 | so within a duration t it is dropped at most t/h + 1 times |
| QosHistory.ActiveWasListed | internal/qos/qos.go:310-317 | on every run that a dashboard feeds, a machine is active or recorded only if a list read in an earlier round had it |
| QosHistory.FirstRoundIdle | internal/qos/qos.go:310-317 | so the first round after a start finds nothing active |
| QosCounters.ActiveByCounters | internal/qos/qos.go:294-360 | on every run that a dashboard feeds, whatever came before: a machine is active after the last round if and only if some round found its two counters together grown by more than 15 * 1024 * activeKBps since the list before, neither having gone back, every list since has it online, and that is not longer ago than the last round's window |
| QosCounters.OnlyBusyIsActive | internal/qos/qos.go:327-360 | so a machine that moved enough in the last round, either way, is active, and the only one where no other is online |
| QosService.Service.constructor | internal/qos/qos.go:100-108 | a new service is the start of a run |
| QosService.Service.ClassID | internal/qos/qos.go:282-290 | refines the allocator's admission of one name |
| QosService.Service.Sample | internal/qos/qos.go:294-323 | the sampling loop over the dashboard's list equals the specified pass, samples and new counters |
| QosService.Service.ReleaseIfUnused | internal/qos/qos.go:487-500 | refines the allocator's release, or nothing while either direction has the name applied |
| QosService.Service.UpdateActive | internal/qos/qos.go:327-360 | the in-place update, three loops, equals the activity step whatever the map orders, and writes each sample's flag back |
| QosService.Service.DesiredFor | internal/qos/qos.go:228-279 | both modes: desired set, root rate, enabled, and the ids handed out on the way, in list order |
| QosService.Service.RunCmds | internal/qos/qos.go:476-484 | the command loop equals the list semantics, and records an error exactly when some failure is not benign |
| QosService.Service.RemoveUnwanted | internal/qos/qos.go:383-391 | deletes while iterating over the very map: commands, what stays applied, and the ids given back |
| QosService.Service.InstallWanted | internal/qos/qos.go:392-396 | afterwards the applied map is the desired one and the other direction's is untouched |
| QosService.AdmitAllAtOnce | internal/qos/qos.go:228-279 | handing out ids entry by entry while the classes are made gives the same classes as handing them out first |
| QosService.Service.Compile | internal/qos/qos.go:369-396 | the loops produce exactly the command list of the visited map orders, leave the desired set applied and the other direction alone, and give back the ids of the removed names not used there |
| QosService.Service.ApplyDirection | internal/qos/qos.go:369-404 | the method refines the application step for the map orders it happened to use |
| QosService.Service.ClearDirection | internal/qos/qos.go:407-429 | refines the clearing step; the release loop releases nothing |
| QosService.Service.CleanupAll | internal/qos/qos.go:432-439 | refines the cleanup step |
| QosService.Service.Reconcile | internal/qos/qos.go:179-225 | a whole round, from the dashboard's list or its failure, refines the state machine's round on the measured samples, and keeps the counters of the list it read, so every lemma on runs speaks of the object |
| QosService.Service.Stop | internal/qos/qos.go:136-143 | a stop of a running service is a cleanup, any other changes nothing |
| LoginLimits.LoginStore.RegisterLoginFailure | internal/store/users.go:178-230 | refines the counting step, of which `LoginLocks.LockExact` says when it locks: locked keys are left alone, an ended lock or a passed window starts from zero |
| LoginLimits.KeysIndependent | internal/store/users.go:156-241 | tables that agree on a key go on agreeing on it, whatever happens to the other keys |
| LoginLimits.SuccessResets | internal/store/users.go:232-235 | after a success the key is as if it had never failed: every later answer about it is the one an empty table would give |
| LoginLimits.LockIsExact | internal/store/users.go:199-213 | a key is refused exactly until its lock ends, and the first failure from then on is number 1 |
| LoginLimits.LockIsFrozen | internal/store/users.go:199-201 | until then no sequence of failures, of other keys' successes or of collections changes the row |
| LoginLimits.AttemptsSpread | internal/store/users.go:178-230 | from any table, under a fixed positive policy: any maxFails + 1 consecutive counted failures of a key without a success span at least every gap up to the shorter of lock and window, up to the time in which the collector forgets if there is one |
| LoginLimits.AttemptBound | internal/store/users.go:178-230 | so at most maxFails * (t / gap + 1) are counted in any interval of length t |
| LoginLimits.SpacingExact | internal/store/users.go:178-241 | the full spacing, the shorter of lock and window, holds on all runs if and only if one failure locks or that spacing is at most the 24 hours the collector remembers |
| LoginLimits.LocksSpread | internal/store/users.go:199-213 | any two locks of a key begin at least the lock's length apart |
| LoginLimits.CollectorHidden | internal/store/users.go:237-241 | for 0 < window <= 24h a run with collections anywhere gives the same answers as the run without them (a bisimulation over tables) |
| LoginLimits.CollectorSeen | internal/store/users.go:204-207 | for every other window a run of two failures with a collection between gives different answers |
| LoginLimits.CollectorExact | internal/store/users.go:178-241 | the collector is unobservable if and only if 0 < window <= 24h |
| LoginLimits.SweepExact | internal/store/users.go:237-241 | the collector keeps exactly the rows whose lock has not ended or whose last failure is at most 24 hours old, unchanged |
| LoginLocks.LockExact | internal/store/users.go:178-230 | on every run of the store: a counted failure locks its key if and only if at least maxFails (or one) counted failures end with it of which each follows the one before with no lock, success, collection of the row or pause longer than the window between; and what row it leaves |
| LoginLocks.FarApartNeverLock | internal/store/users.go:203-208 | so failures further apart than their windows never lock a key that may fail more than once |
| LoginLocks.VolleyLocks | internal/store/users.go:209-213 | and of maxFails failures, each within the window after the one before, exactly the last locks, and the key is refused exactly until the lock's length after it |
| Auth.Service.IsLoginLimited | internal/auth/auth.go:185-199 | refused exactly if one of the two keys that are looked up is locked |
| Auth.Service.RegisterLoginFailure | internal/auth/auth.go:201-225 | the defaults for parameters that are not positive, and one failure per key |
| Auth.Service.ClearLoginFailures | internal/auth/auth.go:227-235 | both keys' rows go, the address's only if it has one |
| Auth.Service.LoginWithClient | internal/auth/auth.go:140-183 | the method refines the login step: outcome, limiter rows, session, last login |
| Auth.LimitsFollowEvents | internal/auth/auth.go:140-183 | a run of logins acts on the limiter as the store events it issues |
| Auth.LockedStep | internal/auth/auth.go:143-147 | with a locked key every login on that account or address is refused, right password or not, and changes nothing at all |
| Auth.LockedRun | internal/auth/auth.go:143-147 | the same at every point of any run before the lock ends, and the lock neither grows nor shrinks |
| Auth.FirstFailureAfterLock | internal/auth/auth.go:201-225 | the first failed login at or after the lock's end counts as failure 1, for account and address |
| Auth.CollectorHidden | internal/auth/auth.go:185-225 | with windows of at most a day, leaving out every collection changes no login's outcome, session or user |
| Auth.UsersAreLimited | internal/auth/auth.go:114-125 | no name that a user may have gives a key that is never looked up |
| Auth.LettersThatMeet | internal/auth/auth.go:114-142 | the dotted capital I and the Kelvin sign are letters a name may have, and lower-case to i and k: two pairs of names with one account |
| Auth.ColonsAreNeverRefused | internal/auth/auth.go:185-235 | a login whose address key ends in a colon is refused for its account only, and not at all if the name ends in one too; and no row of the address is made or removed |
| GuessBounds.GuessBound | internal/auth/auth.go:140-162 | logins one after another, from any state, for an account or an address whose key is looked up (does not end in a colon), in a run in which no right password is given on that key while it is not refused: any maxFails + 1 compared wrong guesses in a row span at least every such gap, from however many addresses, or at however many names |
| GuessBounds.GuessCount | internal/auth/auth.go:140-162 | so, for a key that is looked up and under that hypothesis, at most maxFails * (t / gap + 1) guesses are compared in any interval of length t |
| GuessBounds.FirstLocks | internal/auth/auth.go:140-162 | where the first failure locks a key that is looked up, there is no hypothesis on successes: compared guesses are a lock apart, whoever logs in between |
| NameBounds.TwinForgets | internal/auth/auth.go:142-166 | a wrong guess at a name and a right login as a user whose name differs in case only, from one address: neither is refused and both limiter rows are as before; if that user waits for approval the whole state is |
| NameBounds.NameBoundExact | internal/auth/auth.go:140-199 | on all runs over a table of users in which nobody logs in as that very name, any maxFails + 1 compared guesses at it are every such gap apart, if and only if its account key is looked up and either maxFails is 1 or no other user's name has the same lower-casing and a password that opens; or nothing is a wrong guess at it. For names of ASCII characters the lower-casing is that of the source |
| NameBounds.TwinBreaksBound | internal/auth/auth.go:142-166 | the run that breaks it, all from one address, whichever it is |
| NameBounds.AddressBoundExact | internal/auth/auth.go:185-235 | for every address, on all runs over a table of users, any maxFails + 1 compared guesses from it, at whatever names, are every such gap apart, if and only if its key is looked up (does not end in a colon) and either maxFails is 1 or nobody has a password that opens |
| NameBounds.ShortenedAddress | internal/web/handlers_auth.go:132-138 | for the client address 2001:db8:1:2:3:4:: the bound fails, under every policy and whoever the users are |
| AuthKeys.CaseDoesNotMatter | internal/auth/auth.go:142 | names that differ only in ASCII letters which are capital in one and small in the other, told by their codes, have one account key |
| AuthKeys.AddressesAreApart | internal/auth/auth.go:143 | no two addresses have one key |
| AuthKeys.NotLookedUp | internal/auth/auth.go:185-189 | a key is not looked up exactly if its name or address is empty or ends in a colon |
| AuthKeys.LockedUnderEveryCase | internal/auth/auth.go:142-147 | so a lock on an account refuses every login under any such way of writing its name, and none of them changes anything |
| AuthKeys.DefaultLimits | internal/auth/auth.go:201-213 | 5 failures, 3 times the account's for an address, 10 minutes of lock and a window of 15, each only in place of a parameter that is not positive |
| AuthKeys.WrongPasswordsLock | internal/auth/auth.go:140-199 | from an empty limiter as many wrong passwords as the limit says lock the account, for exactly the lock's length and under every way of writing the name; fewer do not |
| AuthKeys.AdminIsLocked | internal/auth/auth.go:142-147 | five wrong passwords at Admin refuse the right one at admin, from elsewhere, for ten minutes |
| AuthKeys.AdminForgets | internal/auth/auth.go:142-166 | a wrong password at admin and then a login as Admin from the same address leave the limiter as it was |
| AuthKeys.LoginOpens | internal/auth/auth.go:163-182 | a login gets through exactly with the right password of an approved user on two keys that are not refused, with a token not in use; it then opens a session of that user which ends `ttlDays` days later, and notes the time; no other login opens any |
| AuthKeys.SessionsAreEarned | internal/auth/auth.go:174-182 | on every run every session was opened by such a login, for that user and that long |
| ConcurrentLogins.AloneIsLogin | internal/auth/auth.go:140-183 | a request whose calls nobody interrupts does exactly what the login step does, whoever else is waiting |
| ConcurrentLogins.LimitsFollowEvents | internal/auth/auth.go:140-183 | under any interleaving of the calls of any number of requests the limiter is that of the store events in their order |
| ConcurrentLogins.CountedSpread | internal/auth/auth.go:201-225 | so under any interleaving the counted failures of an account or an address are as far apart as under none |
| ConcurrentLogins.ComparedByCounted | internal/auth/auth.go:143-162 | for an account or an address whose key is looked up, under any interleaving without a success on it, with at most k others open beside any request: the wrong guesses compared are at most those counted, plus k for every lock, plus those open at the start and at the end |
| ConcurrentLogins.ComparedBound | internal/auth/auth.go:143-162 | so, for such a key, within a duration t at most maxFails * (t / gap + 1) + k * (t / lockFor + 1) wrong guesses are compared, beside those open at the start; with k = 0 and none open this is the sequential bound |
| ConcurrentLogins.LockHolds | internal/auth/auth.go:185-235 | while an account or an address is locked no request passes its check, and the lock stays as it is until a request that passed before it turns out to have the right password, which lifts it |
| OverlapRuns.OverlapExact | internal/auth/auth.go:143-162 | for every account and every address whose key is looked up: on all runs from a desk without requests, with at most c open at once for it and no success on it, at most maxFails * (t / gap + 1) wrong guesses are compared, if and only if c is at most 1 |
| OverlapRuns.TwoBreakBound | internal/auth/auth.go:143-162 | the run that breaks it: one and the same guess again and again, at any name and from any address |
| OverlapRuns.FlightLiftsLock | internal/auth/auth.go:143-166 | from a desk without requests, two requests at one instant, as any user and from any address: the wrong one locks account and address, and the right one, past its checks already, takes both locks away |
| Secrets.Storage.SaveSecretIfChanged | internal/config/secrets.go:78-100 | refines the saving of one secret, at most one write |
| Secrets.Storage.LoadOrMigrateSecret | internal/config/secrets.go:61-76 | refines the loading of one secret, at most one write |
| Secrets.Manager.constructor | internal/config/config.go:221-251 | a start reads the file into memory, without a hook |
| Secrets.Manager.SaveHook | internal/config/secrets.go:38-50 | the hook saves all three in some map order and stops at the first error |
| Secrets.Manager.Update | internal/config/config.go:261-278 | hook first, then the file, then memory; memory and file unchanged if the hook fails |
| Secrets.Manager.SyncEncryptedSecrets | internal/config/secrets.go:21-59 | refines the start-up step, with the disk after each of its writes recorded |
| SecretsProofs.SyncCompletes | internal/config/secrets.go:17-59 | on readable settings the start gets through: file without secrets, memory with every secret's value, settings with exactly the known secrets, and at every write each secret's value is what it was |
| SecretsProofs.SyncFailsSafely | internal/config/secrets.go:21-36 | on unreadable settings it fails, and then too file and every value are kept |
| SecretsProofs.CrashesKeep | internal/config/secrets.go:21-100 | after any number of starts, each crashing after any of its writes, no secret's effective value has changed |
| SecretsProofs.MigrationIsCrashSafe | internal/config/secrets.go:21-100 | the start that finally gets through ends with the same file, memory and plaintexts as one never interrupted, with no secret left in the file |
| SecretsProofs.SaveKeepsSecrets | internal/config/config.go:261-311 | a later save gets through exactly when it replaces no unreadable setting; given secrets take effect, blank ones keep what was stored, and every intermediate disk has each secret old or new |
| SecretsProofs.RestartAfterSaveExact | internal/config/secrets.go:78-81 | a restart after a save finds what was saved if and only if every secret saved blank was blank before |
| SecretsProofs.BlankSaveReverts | internal/config/secrets.go:78-81 | a secret saved blank is blank in memory until the next start, which brings the stored one back |
| SecretsProofs.DetectionForgetsForNow | internal/registry/registry.go:146-168 | if the frps file names no dashboard password, the detection drops the stored one from memory until the next start |
| ShellQuote.LexQuote | internal/sshx/sshx.go:68-71 | anywhere in a line where a word may begin or go on, a quoted string adds exactly its text |
| ShellQuote.QuoteRoundTrip | internal/sshx/sshx.go:68-71 | the shell reads a quoted string as one word, the string itself, for every string |
| ShellQuote.QuoteInjective | internal/sshx/sshx.go:68-71 | no two strings are quoted alike |
| ShellQuote.SudoLineTokens | internal/sshx/sshx.go:60-66 | the sudo line reads as the two intended commands, with password and command each one intact word |
| TaskTable.TaskManager.NewTask | internal/actions/cleanup.go:278-296 | the new entry carries the next id, what was asked for and the status running; it is in the table, and the table is again exactly the newest 50 of all ever created, each as created |
| TaskTable.TaskManager.ListTasks | internal/actions/cleanup.go:384-410 | the newest min(limit, size) entries counting down from the last id, 10 when the limit is not from 1 to 50 |
| TaskTable.Pass | internal/actions/cleanup.go:395-401 | one pass of the exchange sort puts the greatest of the rest in its place and permutes |
| TaskTable.SortDescending | internal/actions/cleanup.go:394-401 | the in-place sort sorts and permutes |
| TaskTable.CreateHolds | internal/actions/cleanup.go:285-294 | a creation moves the window of kept ids by one, and what it evicts is the least |
| TaskTable.TableAfter | internal/actions/cleanup.go:278-296 | after any sequence of creations the table has exactly the last 50 of them, each with what it was asked for, and running |
| TaskTable.DescendingInterval | internal/actions/cleanup.go:394-401 | a strictly descending listing of an interval counts down from its top |
| Traffic.Service.MeasureProxy | internal/traffic/traffic.go:105-121 | one online proxy: its rates since the last poll, its new base counters, and a new flow object filed under its name |
| Traffic.Service.SampleProxies | internal/traffic/traffic.go:95-129 | the sampling loop: base counters, rates, one new flow object per online proxy, filed under its name, later ones last |
| Traffic.Service.Averages | internal/traffic/traffic.go:167-178 | the running sums and counts per proxy |
| Traffic.Service.DetectAnomalies | internal/traffic/traffic.go:162-194 | each polled flow is marked in place by comparison with the hour's means, and the table of flags follows |
| Traffic.Service.Poll | internal/traffic/traffic.go:94-134 | a poll stores first and judges after, so the judged sample is in the history it is judged by; the base counters, the flags and the table of last samples, which now files the new flow objects, are as specified |
| Traffic.Service.Latest | internal/traffic/traffic.go:197-241 | totals, rounded shares written into the shared flow objects, a flow of greatest rate, the flagged ones, the busy count |
| Traffic.SampledFlows | internal/traffic/traffic.go:106-113 | no sampled rate is ever negative, whatever the counters do |
| TrafficProofs.FlaggedMeansSpike | internal/traffic/traffic.go:162-194 | if the judged sample is in the window, flagged means more than 5 times a mean over 100 kB/s among at least 6 samples, and the minimum of three never decides |
| TrafficProofs.PollJudgesItself | internal/traffic/traffic.go:130-133 | every stored poll that reads the hour back within it judges in that way, over all histories |
| TrafficProofs.UnstoredSpike | internal/traffic/traffic.go:130-133 | after three stored polls of one proxy, a fourth poll is flagged among three samples if its own could not be stored, and not flagged if they were |
| TrafficProofs.RatesNeverNegative | internal/traffic/traffic.go:106-113 | no run of polls stores a negative rate |
| TrafficProofs.Round1Error | internal/traffic/traffic.go:243 | a rounded value is a nearest tenth, on a tie the one away from zero |
| TrafficProofs.SharesStray | internal/traffic/traffic.go:217-223 | rounded shares together are off their exact share by at most 0.05 per flow |
| TrafficProofs.ReportAddsUp | internal/traffic/traffic.go:217-223 | a report's percentages add up to 100 within 0.05 per flow in each direction that moved anything |
| TrafficExact.SampleExact | internal/traffic/traffic.go:99-121 | after a poll in which no name comes twice: exactly the online proxies have a flow, its rates the growth of the two counters over 30 seconds, or both zero if either went back or there is no earlier one; their counters are what the next poll starts from, and all others keep theirs |
| TrafficExact.StoredExact | internal/traffic/traffic.go:123-132 | such a poll stores for exactly the online proxies one sample each, with its time, and those two rates |
| TrafficExact.FlaggedExact | internal/traffic/traffic.go:167-193 | flagged if and only if the proxy has at least three samples without a negative rate and, inbound or outbound, the rate is over five times the mean of that direction's rates and that mean over 100000 |
| TrafficExact.JudgedExact | internal/traffic/traffic.go:178-193 | judging a flow by some samples changes its flag only, to what they say of its two rates; by none it changes nothing |
| TrafficExact.MarksExact | internal/traffic/traffic.go:178-193 | the table of flags afterwards has for every judged flow what its own samples say, and for every other proxy what it had |
| TrafficExact.LooksBackAnHour | internal/traffic/traffic.go:163 | the samples judged by are exactly those at most an hour old |
| TrafficExact.TotalsExact | internal/traffic/traffic.go:206-210 | the four totals of a report are the sums of that quantity over its flows |
| TrafficExact.BusyCountExact | internal/traffic/traffic.go:211-213 | the busy count is the number of flows that have a rate, or have received anything |
| TrafficExact.PercentagesExact | internal/traffic/traffic.go:217-223 | each percentage is the flow's part of its own direction's total, within 0.05 |

## Left out

- QosService.Service.Sample: the HTTP client; the dashboard's list, or nothing if it is not configured or cannot be read, is an input. Names are taken as listed once, and a port shared by two online proxies is one of the cases in which `AgreementExact` says there is no agreement.
- Interface detection (`internal/qos/qos.go:539-552`) and `Status`: the detected name and the clock are inputs of a round.
- QosRuns.NoCommandEverReports: the kernel answers with one of six errors, of which only a refused removal is not benign; messages of real `tc` that the benign list does not match are not part of this model.
- QosAgreement.AgreementExact: the interface must exist and not be ifb0, as for `QosQuotas.ManualAgreementExact`; on a missing one every command on it fails benignly (`TrafficControl.RunAllOnMissingDevice`), while inbound shaping still sets up ifb0, to which then nothing is redirected.
- QosService.Service.Reconcile: atomic. Goroutines, tickers and mutexes are left out, and so is the last-applied time; in `Stop` the loop is taken to have ended before the cleanup.
- Class ids are unbounded integers; the 16 bits that `tc` has for them, and the 64 of the byte counters, are not modelled.
- `float64` is `real`; only the explicit roundings of `rateStr` and `round1` are kept.
- Auth.Service.LoginWithClient: one login at a time and one clock reading for it (`ConcurrentLogins` has neither restriction); the user name is taken as trimmed; lower-casing is that of every character which ends up in ASCII, and leaves those of other scripts alone; password comparison, token and database errors other than a token already in use are parameters or left out.
- GuessBounds.GuessBound: logins one after another; for overlapping ones see `ConcurrentLogins.ComparedBound`. It and the bounds after it are for one fixed policy.
- ConcurrentLogins.ComparedBound: each call is atomic and reads the clock once, in the order of the calls; the two bounds on guesses are for one fixed policy, for keys that do not end in a colon, and for runs that no success on the key interrupts, after which the count starts anew.
- Registration, sessions after login, roles and user approval: they touch neither limiter nor lock.
- Secrets.Storage.SaveSecretIfChanged: encryption is a sealed value that opens to its plaintext, or one that this installation cannot open; an empty setting is an absent one; failing reads and writes of the settings table are crashes.
- Secrets.Manager.Update: the public part of the configuration is one opaque string; the writing of the temporary file before its rename is left out.
- Secrets.Manager.constructor: defaults, and a missing or malformed configuration file, are left out.
- ShellQuote.SudoLineTokens: only blanks and `|` separate words, and a line with another unquoted special character is not read at all; what `echo` makes of its argument, and quotes nested in the command, are the remote commands' own business.
- Progress, results and cancellation of background jobs; only creation, eviction and listing are modelled.
- Traffic.Service.Poll: machine ids and the retention of old samples are left out; the table of samples is a sequence in order of storing.
- Traffic.Service.Latest: totals are summed as integers, as if `float64` were exact.
- SSH sessions, HTTP, SQL text, JSON, the dashboard client, collectors, health checks, the command line and the web interface: plumbing, or one-branch facts about strings.
