/** The migration is crash-safe, and saving through the hook loses nothing; what a blank value does. */
module SecretsProofs {
  import opened Basics
  import opened Secrets

  const ALL_KEYS := {DashboardPass, SshPass, Token}

  /** `w` is `t` with some of the missing keys migrated from the file. */
  ghost predicate Migrates(t: Table, legacy: Triple, w: Table) {
    && (forall k :: k in t ==> k in w && w[k] == t[k])
    && (forall k :: k in w && k !in t ==> w[k].Sealed? && w[k].plain == legacy.Get(k) != "")
  }

  /** All that the file offers for the keys in `order` is in the table. */
  ghost predicate Covers(w: Table, legacy: Triple, order: seq<SecretKey>) {
    forall k :: k in order && legacy.Get(k) != "" ==> k in w
  }

  function ValueOf(t: Table, legacy: Triple, k: SecretKey): string {
    if k in t && t[k].Sealed? then t[k].plain else legacy.Get(k)
  }

  lemma EveryKey(k: SecretKey)
    ensures k in ALL_KEYS && k in LOAD_ORDER
  {
    match k {
      case DashboardPass => assert LOAD_ORDER[0] == k;
      case SshPass => assert LOAD_ORDER[1] == k;
      case Token => assert LOAD_ORDER[2] == k;
    }
  }

  lemma LoadStep(t: Table, legacy: Triple, w: Table, key: SecretKey, nonce: int)
    requires Migrates(t, legacy, w) && (key in w ==> key in t)
    ensures var l := LoadOrMigrate(w, key, legacy.Get(key), nonce);
      && Migrates(t, legacy, l.table)
      && l.table.Keys == w.Keys + (if key in t || legacy.Get(key) == "" then {} else {key})
      && (l.value.Some? <==> key in t ==> t[key].Sealed?)
      && (l.value.Some? ==> l.value.value == ValueOf(t, legacy, key))
  {
  }

  lemma WithGet(v: Triple, key: SecretKey, value: string, k: SecretKey)
    ensures v.With(key, value).Get(k) == if k == key then value else v.Get(k)
  {
  }

  /** What loading the keys of `order` from `t` has come to. */
  ghost predicate LoadedShape(t: Table, legacy: Triple, order: seq<SecretKey>, e: Effect) {
    && Migrates(t, legacy, e.table)
    && (forall k :: k in e.table ==> k in t || k in order)
    && (forall w :: w in e.writes ==> Migrates(t, legacy, w))
    && (e.ok <==> forall k :: k in order && k in t ==> t[k].Sealed?)
    && (e.ok ==> Covers(e.table, legacy, order))
    && (e.ok ==> forall k :: e.values.Get(k) == if k in order then ValueOf(t, legacy, k) else legacy.Get(k))
  }

  /** One more key, after the others got through. */
  lemma LoadedStep(t: Table, legacy: Triple, front: seq<SecretKey>, order: seq<SecretKey>, key: SecretKey, e: Effect,
                   l: Loaded, e2: Effect)
    requires LoadedShape(t, legacy, front, e) && e.ok && key !in front
    requires forall k :: k in order <==> k in front || k == key
    requires Migrates(t, legacy, l.table) && l.table.Keys ==
      e.table.Keys + (if key in t || legacy.Get(key) == "" then {} else {key})
    requires l.value.Some? <==> key in t ==> t[key].Sealed?
    requires l.value.Some? ==> l.value.value == ValueOf(t, legacy, key)
    requires forall w :: w in e2.writes ==> w in e.writes || w == l.table
    requires if l.value.Some? then e2.ok && e2.table == l.table
      && e2.values == e.values.With(key, l.value.value) else !e2.ok && e2.table == e.table
    ensures LoadedShape(t, legacy, order, e2)
  {
    if l.value.Some? {
      forall k
        ensures e2.values.Get(k) == if k in order then ValueOf(t, legacy, k) else legacy.Get(k)
      {
        WithGet(e.values, key, l.value.value, k);
      }
    }
  }

  lemma FailedStays(t: Table, legacy: Triple, front: seq<SecretKey>, order: seq<SecretKey>, key: SecretKey, e: Effect)
    requires LoadedShape(t, legacy, front, e) && !e.ok
    requires forall k :: k in order <==> k in front || k == key
    ensures LoadedShape(t, legacy, order, e)
  {
  }

  lemma {:induction false} LoadAllShape(t: Table, legacy: Triple, nonces: Nonces, order: seq<SecretKey>)
    requires forall i, j :: 0 <= i < j < |order| ==> order[i] != order[j]
    ensures LoadedShape(t, legacy, order, LoadAll(t, legacy, nonces, order))
    decreases order
  {
    if order == [] {
    } else {
      var front, key := order[..|order|-1], order[|order|-1];
      LoadAllShape(t, legacy, nonces, front);
      var e := LoadAll(t, legacy, nonces, front);
      assert forall k :: k in order <==> k in front || k == key by {
        assert front + [key] == order;
      }
      if e.ok {
        LoadStep(t, legacy, e.table, key, nonces(key));
        LoadedStep(t, legacy, front, order, key, e, LoadOrMigrate(e.table, key, legacy.Get(key), nonces(key)),
          LoadAll(t, legacy, nonces, order));
      } else {
        FailedStays(t, legacy, front, order, key, e);
      }
    }
  }

  /** Saving values the table already has writes nothing. */
  lemma {:induction false} SaveAllIdle(t: Table, values: Triple, nonces: Nonces, order: seq<SecretKey>)
    requires forall k :: values.Get(k) == "" || (k in t && t[k].Sealed? && t[k].plain == values.Get(k))
    ensures SaveAll(t, values, nonces, order) == Effect([], t, true, values)
    decreases order
  {
    if order == [] {
    } else {
      SaveAllIdle(t, values, nonces, order[..|order|-1]);
    }
  }

  /** `x` differs from `d` only by migrated values, and by a file without secrets once all are in. */
  ghost predicate SameSecrets(d: Disk, x: Disk) {
    && Migrates(d.table, d.file.legacy, x.table)
    && x.file.settings == d.file.settings
    && (x.file == d.file || (x.file.legacy == NO_SECRETS && Covers(x.table, d.file.legacy, LOAD_ORDER)))
  }

  function EffectiveTriple(d: Disk): Triple {
    Triple(ValueOf(d.table, d.file.legacy, DashboardPass), ValueOf(d.table, d.file.legacy, SshPass),
      ValueOf(d.table, d.file.legacy, Token))
  }

  lemma EffectiveGet(d: Disk, k: SecretKey)
    ensures EffectiveTriple(d).Get(k) == ValueOf(d.table, d.file.legacy, k)
    ensures Readable(d.table) ==> Effective(d, k) == Some(EffectiveTriple(d).Get(k))
  {
  }

  /** The plaintexts the settings open to; nonces are fresh at every sealing and do not show here. */
  function Opened(t: Table): map<SecretKey, Option<string>> {
    map k | k in t :: if t[k].Sealed? then Some(t[k].plain) else None
  }

  /** The plaintexts the settings of a fully migrated disk open to. */
  ghost function OpenedWhenDone(d: Disk): map<SecretKey, Option<string>> {
    map k | k in ALL_KEYS && (k in d.table || d.file.legacy.Get(k) != "") :: Effective(d, k)
  }

  /** Every secret keeps its value, and the work left to do leads to the same place. */
  lemma SameSecretsSameEnd(d: Disk, x: Disk)
    requires SameSecrets(d, x)
    ensures forall k :: Effective(x, k) == Effective(d, k)
    ensures Readable(x.table) <==> Readable(d.table)
    ensures OpenedWhenDone(x) == OpenedWhenDone(d)
    ensures Readable(d.table) ==> EffectiveTriple(x) == EffectiveTriple(d)
  {
    forall k: SecretKey
      ensures Effective(x, k) == Effective(d, k)
      ensures Readable(d.table) ==> ValueOf(x.table, x.file.legacy, k) == ValueOf(d.table, d.file.legacy, k)
      ensures (k in x.table || x.file.legacy.Get(k) != "") <==> (k in d.table || d.file.legacy.Get(k) != "")
    {
      EveryKey(k);
    }
  }

  lemma SameGets(a: Triple, b: Triple)
    requires forall k: SecretKey :: a.Get(k) == b.Get(k)
    ensures a == b
  {
    assert a.Get(DashboardPass) == b.Get(DashboardPass) && a.Get(SshPass) == b.Get(SshPass)
      && a.Get(Token) == b.Get(Token);
  }

  lemma OpenedDone(d: Disk, w: Table)
    requires Migrates(d.table, d.file.legacy, w) && Covers(w, d.file.legacy, LOAD_ORDER)
    ensures Opened(w) == OpenedWhenDone(d)
  {
    forall k: SecretKey
      ensures k in ALL_KEYS && k in LOAD_ORDER
    {
      EveryKey(k);
    }
  }

  /** Loading gets through on a readable disk, produces every secret's value, and puts it into the settings. */
  lemma LoadsAll(d: Disk, nonces: Nonces)
    requires Readable(d.table)
    ensures var e := LoadAll(d.table, d.file.legacy, nonces, LOAD_ORDER);
      && e.ok && e.values == EffectiveTriple(d) && Opened(e.table) == OpenedWhenDone(d)
      && Migrates(d.table, d.file.legacy, e.table) && Covers(e.table, d.file.legacy, LOAD_ORDER)
      && (forall w :: w in e.writes ==> Migrates(d.table, d.file.legacy, w))
      && forall k ::
          e.values.Get(k) == "" || (k in e.table && e.table[k].Sealed? && e.table[k].plain == e.values.Get(k))
  {
    var e := LoadAll(d.table, d.file.legacy, nonces, LOAD_ORDER);
    LoadAllShape(d.table, d.file.legacy, nonces, LOAD_ORDER);
    forall k: SecretKey
      ensures k in LOAD_ORDER && e.values.Get(k) == EffectiveTriple(d).Get(k)
    {
      EveryKey(k);
      EffectiveGet(d, k);
    }
    SameGets(e.values, EffectiveTriple(d));
    OpenedDone(d, e.table);
  }

  lemma LogKeeps(d: Disk, writes: seq<Table>, last: Disk)
    requires forall w :: w in writes ==> Migrates(d.table, d.file.legacy, w)
    requires SameSecrets(d, last)
    ensures forall x :: x in OnDisk(writes, d.file) + [last] ==> SameSecrets(d, x)
  {
    forall x | x in OnDisk(writes, d.file)
      ensures SameSecrets(d, x)
    {
      var i :| 0 <= i < |writes| && OnDisk(writes, d.file)[i] == x;
      assert writes[i] in writes;
    }
  }

  /** A start on a readable disk gets through: the file is rewritten without secrets, memory holds every
      secret's value, the settings hold exactly the known secrets, and no write along the way changed
      what any secret is. */
  lemma SyncCompletes(d: Disk, nonces: Nonces, again: Nonces, order: seq<SecretKey>)
    requires Readable(d.table)
    ensures var (m, ok) := SyncStep(Boot(d), nonces, again, order);
      && ok && m.hooked
      && m.disk.file == File(d.file.settings, NO_SECRETS)
      && m.cfg == AppConfig(d.file.settings, EffectiveTriple(d))
      && Opened(m.disk.table) == OpenedWhenDone(d)
      && forall x :: x in m.log ==> SameSecrets(d, x)
  {
    var e := LoadAll(d.table, d.file.legacy, nonces, LOAD_ORDER);
    LoadsAll(d, nonces);
    SaveAllIdle(e.table, e.values, again, order);
    var m := SyncStep(Boot(d), nonces, again, order).0;
    assert m.log == OnDisk(e.writes, d.file) + [m.disk] by {
      assert [] + OnDisk(e.writes, d.file) + OnDisk([], d.file) == OnDisk(e.writes, d.file);
    }
    LogKeeps(d, e.writes, m.disk);
  }

  /** With a setting that cannot be opened the start fails, and then too the file keeps its secrets and
      no secret changes value. */
  lemma SyncFailsSafely(d: Disk, nonces: Nonces, again: Nonces, order: seq<SecretKey>)
    requires !Readable(d.table)
    ensures var (m, ok) := SyncStep(Boot(d), nonces, again, order);
      && !ok && m.cfg == Unmarshal(d.file) && m.disk.file == d.file
      && SameSecrets(d, m.disk)
      && forall x :: x in m.log ==> SameSecrets(d, x)
  {
    var e := LoadAll(d.table, d.file.legacy, nonces, LOAD_ORDER);
    LoadAllShape(d.table, d.file.legacy, nonces, LOAD_ORDER);
    forall k: SecretKey
      ensures k in LOAD_ORDER
    {
      EveryKey(k);
    }
    var m := SyncStep(Boot(d), nonces, again, order).0;
    forall x | x in m.log
      ensures SameSecrets(d, x)
    {
      var i :| 0 <= i < |e.writes| && OnDisk(e.writes, d.file)[i] == x;
      assert e.writes[i] in e.writes;
    }
  }

  // ---- Any number of crashes ----

  /** A start that crashes after its `writes`-th write, or before the first when that is 0. */
  datatype Crash = Crash(nonces: Nonces, again: Nonces, order: seq<SecretKey>, writes: nat)

  function AfterCrash(d: Disk, c: Crash): Disk {
    var log := SyncStep(Boot(d), c.nonces, c.again, c.order).0.log;
    if 0 < c.writes <= |log| then log[c.writes - 1] else d
  }

  function AfterCrashes(d: Disk, crashes: seq<Crash>): Disk
    decreases crashes
  {
    if crashes == [] then d else AfterCrash(AfterCrashes(d, crashes[..|crashes|-1]), crashes[|crashes|-1])
  }

  lemma CrashKeeps(d: Disk, c: Crash)
    ensures SameSecrets(d, AfterCrash(d, c))
  {
    if Readable(d.table) {
      SyncCompletes(d, c.nonces, c.again, c.order);
    } else {
      SyncFailsSafely(d, c.nonces, c.again, c.order);
    }
  }

  lemma {:induction false} CrashesKeep(d: Disk, crashes: seq<Crash>)
    ensures var x := AfterCrashes(d, crashes);
      && (forall k :: Effective(x, k) == Effective(d, k))
      && (Readable(x.table) <==> Readable(d.table))
      && OpenedWhenDone(x) == OpenedWhenDone(d)
      && (Readable(d.table) ==> EffectiveTriple(x) == EffectiveTriple(d))
      && x.file.settings == d.file.settings
    decreases crashes
  {
    if crashes == [] {
    } else {
      var y := AfterCrashes(d, crashes[..|crashes|-1]);
      CrashesKeep(d, crashes[..|crashes|-1]);
      CrashKeeps(y, crashes[|crashes|-1]);
      SameSecretsSameEnd(y, AfterCrash(y, crashes[|crashes|-1]));
    }
  }

  /** However often and wherever earlier starts crashed, no secret's value changes, and the start that
      finally gets through ends with the same file, the same memory and the same plaintexts in the
      settings as one that was never interrupted; the file has no secret left in it. */
  lemma MigrationIsCrashSafe(d: Disk, crashes: seq<Crash>, n1: Nonces, a1: Nonces, o1: seq<SecretKey>, n2: Nonces,
                             a2: Nonces, o2: seq<SecretKey>)
    requires Readable(d.table)
    ensures var x := AfterCrashes(d, crashes);
      var (m, ok) := SyncStep(Boot(x), n1, a1, o1);
      var (straight, fine) := SyncStep(Boot(d), n2, a2, o2);
      && (forall k :: Effective(x, k) == Effective(d, k))
      && ok && fine
      && m.disk.file == straight.disk.file && m.disk.file.legacy == NO_SECRETS
      && m.cfg == straight.cfg
      && Opened(m.disk.table) == Opened(straight.disk.table)
  {
    CrashesKeep(d, crashes);
    SyncCompletes(AfterCrashes(d, crashes), n1, a1, o1);
    SyncCompletes(d, n2, a2, o2);
  }

  // ---- Saving through the hook ----

  /** After a completed start: the hook is in and the file has no secrets. */
  ghost predicate Settled(m: Machine) {
    m.hooked && m.disk.file.legacy == NO_SECRETS
  }

  /** Each secret is the old or the new one, and only the new one where a new one is given. */
  ghost predicate OldOrNew(t: Table, values: Triple, w: Table) {
    forall k :: (k in w && k in t && w[k] == t[k]) || (k !in w && k !in t)
             || (values.Get(k) != "" && k in w && w[k].Sealed? && w[k].plain == values.Get(k))
  }

  predicate GivenHere(order: seq<SecretKey>, values: Triple, k: SecretKey) {
    k in order && values.Get(k) != ""
  }

  /** What saving the keys of `order` over `t` has come to. */
  ghost predicate SavedShape(t: Table, values: Triple, order: seq<SecretKey>, e: Effect) {
    && OldOrNew(t, values, e.table)
    && (forall w :: w in e.writes ==> OldOrNew(t, values, w))
    && (forall k :: !GivenHere(order, values, k) ==> (k in e.table <==> k in t) && (k in t ==> e.table[k] == t[k]))
    && (e.ok <==> forall k :: GivenHere(order, values, k) && k in t ==> t[k].Sealed?)
    && (e.ok ==> forall k :: GivenHere(order, values, k) ==>
      k in e.table && e.table[k].Sealed? && e.table[k].plain == values.Get(k))
  }

  lemma SaveStep(t: Table, values: Triple, w: Table, key: SecretKey, nonce: int)
    requires OldOrNew(t, values, w) && (key in w <==> key in t) && (key in t ==> w[key] == t[key])
    ensures var s := SaveIfChanged(w, key, values.Get(key), nonce);
      && OldOrNew(t, values, s.table)
      && (forall k :: k != key ==> (k in s.table <==> k in w) && (k in w ==> s.table[k] == w[k]))
      && (s.ok <==> values.Get(key) != "" && key in t ==> t[key].Sealed?)
      && (values.Get(key) == "" || !s.ok ==> s.table == w)
      && (s.ok && values.Get(key) != "" ==>
          key in s.table && s.table[key].Sealed? && s.table[key].plain == values.Get(key))
  {
  }

  lemma SavedStep(t: Table, values: Triple, front: seq<SecretKey>, order: seq<SecretKey>, key: SecretKey, e: Effect,
                  s: Saved, e2: Effect)
    requires SavedShape(t, values, front, e) && e.ok && key !in front
    requires forall k :: k in order <==> k in front || k == key
    requires OldOrNew(t, values, s.table)
    requires forall k :: k != key ==> (k in s.table <==> k in e.table) && (k in e.table ==> s.table[k] == e.table[k])
    requires s.ok <==> values.Get(key) != "" && key in t ==> t[key].Sealed?
    requires values.Get(key) == "" || !s.ok ==> s.table == e.table
    requires s.ok && values.Get(key) != "" ==>
        key in s.table && s.table[key].Sealed? && s.table[key].plain == values.Get(key)
    requires e2.ok == s.ok && e2.table == s.table && forall w :: w in e2.writes ==> w in e.writes || w == s.table
    ensures SavedShape(t, values, order, e2)
  {
    assert !GivenHere(front, values, key);
    assert forall k :: GivenHere(order, values, k) <==>
      GivenHere(front, values, k) || (k == key && values.Get(key) != "");
  }

  lemma SaveFailedStays(t: Table, values: Triple, front: seq<SecretKey>, order: seq<SecretKey>, key: SecretKey,
                        e: Effect)
    requires SavedShape(t, values, front, e) && !e.ok
    requires forall k :: k in order <==> k in front || k == key
    ensures SavedShape(t, values, order, e)
  {
  }

  lemma {:induction false} SaveAllShape(t: Table, values: Triple, nonces: Nonces, order: seq<SecretKey>)
    requires forall i, j :: 0 <= i < j < |order| ==> order[i] != order[j]
    ensures SavedShape(t, values, order, SaveAll(t, values, nonces, order))
    decreases order
  {
    if order == [] {
    } else {
      var front, key := order[..|order|-1], order[|order|-1];
      SaveAllShape(t, values, nonces, front);
      var e := SaveAll(t, values, nonces, front);
      assert forall k :: k in order <==> k in front || k == key by {
        assert front + [key] == order;
      }
      if e.ok {
        assert !GivenHere(front, values, key);
        SaveStep(t, values, e.table, key, nonces(key));
        SavedStep(t, values, front, order, key, e, SaveIfChanged(e.table, key, values.Get(key), nonces(key)),
          SaveAll(t, values, nonces, order));
      } else {
        SaveFailedStays(t, values, front, order, key, e);
      }
    }
  }

  /** A save gets through exactly when no given secret would replace an unreadable setting. If it does,
      the given secrets are the effective ones, blank ones keep what was stored, and the file has none.
      If it does not, memory and file are as before. At every write each secret is the old or the new one. */
  lemma SaveKeepsSecrets(m: Machine, candidate: AppConfig, nonces: Nonces, order: seq<SecretKey>)
    requires Settled(m) && Enumerates(order, ALL_KEYS)
    ensures var (u, ok) := UpdateStep(m, candidate, nonces, order);
      && Settled(u)
      && (ok <==> forall k :: candidate.secrets.Get(k) != "" && k in m.disk.table ==> m.disk.table[k].Sealed?)
      && (ok ==> u.cfg == candidate && u.disk.file == Marshal(candidate))
      && (ok ==> forall k ::
            Effective(u.disk, k) ==
            (if candidate.secrets.Get(k) != "" then Some(candidate.secrets.Get(k)) else Effective(m.disk, k)))
      && (!ok ==> u.cfg == m.cfg && u.disk.file == m.disk.file)
      && |m.log| <= |u.log| && u.log[..|m.log|] == m.log
      && forall i :: |m.log| <= i < |u.log| ==>
          OldOrNew(m.disk.table, candidate.secrets, u.log[i].table) && u.log[i].file.legacy == NO_SECRETS
  {
    var e := SaveAll(m.disk.table, candidate.secrets, nonces, order);
    SaveAllShape(m.disk.table, candidate.secrets, nonces, order);
    forall k: SecretKey
      ensures k in order && (GivenHere(order, candidate.secrets, k) <==> candidate.secrets.Get(k) != "")
    {
      EveryKey(k);
    }
    var u := UpdateStep(m, candidate, nonces, order).0;
    forall i | |m.log| <= i < |u.log|
      ensures OldOrNew(m.disk.table, candidate.secrets, u.log[i].table) && u.log[i].file.legacy == NO_SECRETS
    {
      if i < |m.log| + |e.writes| {
        assert u.log[i] == OnDisk(e.writes, m.disk.file)[i - |m.log|];
        assert e.writes[i - |m.log|] in e.writes;
      }
    }
  }

  lemma ReadableAfterSave(m: Machine, candidate: AppConfig, nonces: Nonces, order: seq<SecretKey>)
    requires Settled(m) && Readable(m.disk.table) && Enumerates(order, ALL_KEYS)
    ensures Readable(UpdateStep(m, candidate, nonces, order).0.disk.table)
  {
    SaveAllShape(m.disk.table, candidate.secrets, nonces, order);
  }

  /** A restart after a successful save finds exactly the saved configuration if and only if every
      secret that was saved blank was blank before: the hook never removes a stored secret. */
  lemma RestartAfterSaveExact(m: Machine, candidate: AppConfig, nonces: Nonces, order: seq<SecretKey>, n2: Nonces,
                              a2: Nonces, o2: seq<SecretKey>)
    requires Settled(m) && Readable(m.disk.table) && Enumerates(order, ALL_KEYS)
    ensures var (u, ok) := UpdateStep(m, candidate, nonces, order);
      var (again, fine) := SyncStep(Boot(u.disk), n2, a2, o2);
      && ok && fine
      && (again.cfg == u.cfg <==> forall k :: candidate.secrets.Get(k) == "" ==> Effective(m.disk, k) == Some(""))
  {
    var u := UpdateStep(m, candidate, nonces, order).0;
    SaveKeepsSecrets(m, candidate, nonces, order);
    ReadableAfterSave(m, candidate, nonces, order);
    SyncCompletes(u.disk, n2, a2, o2);
    forall k: SecretKey
      ensures EffectiveTriple(u.disk).Get(k) == candidate.secrets.Get(k) <==>
              (candidate.secrets.Get(k) == "" ==> Effective(m.disk, k) == Some(""))
    {
      EffectiveGet(u.disk, k);
    }
    if forall k :: candidate.secrets.Get(k) == "" ==> Effective(m.disk, k) == Some("") {
      SameGets(EffectiveTriple(u.disk), candidate.secrets);
    }
  }

  /** A secret saved blank is blank in memory until the next start, which brings the stored one back. */
  lemma BlankSaveReverts(m: Machine, candidate: AppConfig, nonces: Nonces, order: seq<SecretKey>,
                         n2: Nonces, a2: Nonces, o2: seq<SecretKey>, k: SecretKey, v: string)
    requires Settled(m) && Readable(m.disk.table) && Enumerates(order, ALL_KEYS)
    requires candidate.secrets.Get(k) == "" && Effective(m.disk, k) == Some(v)
    ensures var (u, ok) := UpdateStep(m, candidate, nonces, order);
      var (again, fine) := SyncStep(Boot(u.disk), n2, a2, o2);
      ok && fine && u.cfg.secrets.Get(k) == "" && again.cfg.secrets.Get(k) == v
  {
    var u := UpdateStep(m, candidate, nonces, order).0;
    SaveKeepsSecrets(m, candidate, nonces, order);
    RestartAfterSaveExact(m, candidate, nonces, order, n2, a2, o2);
    ReadableAfterSave(m, candidate, nonces, order);
    SyncCompletes(u.disk, n2, a2, o2);
    EffectiveGet(u.disk, k);
  }

  /** What the detection of the frps settings saves: the values it found, and the SSH password as it is. */
  function Detected(cfg: AppConfig, settings: string, dashboardPass: string, token: string): AppConfig {
    AppConfig(settings, Triple(dashboardPass, cfg.secrets.sshPass, token))
  }

  /** If the frps file names no dashboard password, the detection drops the stored one until the next start. */
  lemma DetectionForgetsForNow(m: Machine, settings: string, token: string, nonces: Nonces, order: seq<SecretKey>,
                               n2: Nonces, a2: Nonces, o2: seq<SecretKey>, v: string)
    requires Settled(m) && Readable(m.disk.table) && Enumerates(order, ALL_KEYS)
    requires Effective(m.disk, DashboardPass) == Some(v) && v != ""
    ensures var (u, ok) := UpdateStep(m, Detected(m.cfg, settings, "", token), nonces, order);
      var (again, fine) := SyncStep(Boot(u.disk), n2, a2, o2);
      ok && fine && u.cfg.secrets.dashboardPass == "" && again.cfg.secrets.dashboardPass == v && again.cfg != u.cfg
  {
    BlankSaveReverts(m, Detected(m.cfg, settings, "", token), nonces, order, n2, a2, o2, DashboardPass, v);
  }
}
