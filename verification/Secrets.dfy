/**
  Moving the three frps secrets out of the configuration file into the encrypted settings, and
  keeping them there. Every write to the settings table or to the file is one step that a crash may
  follow; memory is lost in a crash, the disk is not.
 */
module Secrets {
  import opened Basics

  datatype SecretKey = DashboardPass | SshPass | Token

  /** A stored setting: what it opens to, and the nonce it was sealed with; or a value that this
      installation's key cannot open. */
  datatype Cipher = Sealed(plain: string, nonce: int) | Unreadable

  datatype Triple = Triple(dashboardPass: string, sshPass: string, token: string) {
    function Get(key: SecretKey): string {
      match key
      case DashboardPass => dashboardPass
      case SshPass => sshPass
      case Token => token
    }

    function With(key: SecretKey, value: string): Triple {
      match key
      case DashboardPass => this.(dashboardPass := value)
      case SshPass => this.(sshPass := value)
      case Token => this.(token := value)
    }
  }

  const NO_SECRETS := Triple("", "", "")
  const LOAD_ORDER := [DashboardPass, SshPass, Token]

  /** The configuration in memory: everything that is not secret, and the secrets. */
  datatype AppConfig = AppConfig(settings: string, secrets: Triple)

  /** The configuration file: an old one may still carry secrets. */
  datatype File = File(settings: string, legacy: Triple)

  type Table = map<SecretKey, Cipher>

  datatype Disk = Disk(table: Table, file: File)

  /** The serializer leaves the secrets out; the parser still accepts them. */
  function Marshal(cfg: AppConfig): File {
    File(cfg.settings, NO_SECRETS)
  }

  function Unmarshal(f: File): AppConfig {
    AppConfig(f.settings, f.legacy)
  }

  predicate Readable(t: Table) {
    forall key :: key in t ==> t[key].Sealed?
  }

  /** The value of a secret as the next start will see it; none if it cannot be opened. */
  function Effective(d: Disk, key: SecretKey): Option<string> {
    if key !in d.table then Some(d.file.legacy.Get(key))
    else if d.table[key].Sealed? then Some(d.table[key].plain)
    else None
  }

  // ---- The two operations on one secret ----

  datatype Loaded = Loaded(table: Table, value: Option<string>)
  datatype Saved = Saved(table: Table, ok: bool)

  function SaveIfChanged(t: Table, key: SecretKey, plain: string, nonce: int): Saved {
    if plain == "" then Saved(t, true)
    else if key in t && t[key].Unreadable? then Saved(t, false)
    else if key in t && t[key].plain == plain then Saved(t, true)
    else Saved(t[key := Sealed(plain, nonce)], true)
  }

  function LoadOrMigrate(t: Table, key: SecretKey, legacy: string, nonce: int): Loaded {
    if key in t then Loaded(t, if t[key].Sealed? then Some(t[key].plain) else None)
    else if legacy == "" then Loaded(t, Some(""))
    else Loaded(t[key := Sealed(legacy, nonce)], Some(legacy))
  }

  // ---- Sequences of them, with the states a crash may leave ----

  /** What a multi-step operation does: the tables after each of its writes, the last of them, whether
      it got through, and the values it produced. */
  datatype Effect = Effect(writes: seq<Table>, table: Table, ok: bool, values: Triple)

  type Nonces = SecretKey -> int

  function Note(writes: seq<Table>, before: Table, after: Table): seq<Table> {
    if after == before then writes else writes + [after]
  }

  function LoadAll(t: Table, legacy: Triple, nonces: Nonces, order: seq<SecretKey>): Effect
    decreases order
  {
    if order == [] then Effect([], t, true, legacy)
    else
      var e, key := LoadAll(t, legacy, nonces, order[..|order|-1]), order[|order|-1];
      if !e.ok then e
      else
        var l := LoadOrMigrate(e.table, key, legacy.Get(key), nonces(key));
        if l.value.None? then e.(ok := false)
        else Effect(Note(e.writes, e.table, l.table), l.table, true, e.values.With(key, l.value.value))
  }

  function SaveAll(t: Table, values: Triple, nonces: Nonces, order: seq<SecretKey>): Effect
    decreases order
  {
    if order == [] then Effect([], t, true, values)
    else
      var e, key := SaveAll(t, values, nonces, order[..|order|-1]), order[|order|-1];
      if !e.ok then e
      else
        var s := SaveIfChanged(e.table, key, values.Get(key), nonces(key));
        if s.ok then Effect(Note(e.writes, e.table, s.table), s.table, true, values) else e.(ok := false)
  }

  /** A machine: disk, configuration in memory, whether the save hook is installed, and the disk
      states since the start, one per write. */
  datatype Machine = Machine(disk: Disk, cfg: AppConfig, hooked: bool, log: seq<Disk>)

  function OnDisk(tables: seq<Table>, file: File): seq<Disk> {
    seq(|tables|, i requires 0 <= i < |tables| => Disk(tables[i], file))
  }

  function UpdateStep(m: Machine, candidate: AppConfig, nonces: Nonces, order: seq<SecretKey>): (Machine, bool) {
    var e := if m.hooked then SaveAll(m.disk.table, candidate.secrets, nonces, order)
             else Effect([], m.disk.table, true, candidate.secrets);
    var saved := m.(disk := m.disk.(table := e.table), log := m.log + OnDisk(e.writes, m.disk.file));
    if !e.ok then (saved, false)
    else
      var disk := Disk(e.table, Marshal(candidate));
      (Machine(disk, candidate, m.hooked, saved.log + [disk]), true)
  }

  function SyncStep(m: Machine, nonces: Nonces, again: Nonces, order: seq<SecretKey>): (Machine, bool) {
    var e := LoadAll(m.disk.table, m.cfg.secrets, nonces, LOAD_ORDER);
    var loaded := m.(disk := m.disk.(table := e.table), log := m.log + OnDisk(e.writes, m.disk.file));
    if !e.ok then (loaded, false)
    else UpdateStep(loaded.(hooked := true), m.cfg.(secrets := e.values), again, order)
  }

  /** Starting on a disk reads the file into memory. */
  function Boot(d: Disk): Machine {
    Machine(d, Unmarshal(d.file), false, [])
  }

  // ---- The objects ----

  class Storage {
    var table: Table
    var file: File
    ghost var log: seq<Disk>

    constructor (d: Disk)
      ensures table == d.table && file == d.file && log == []
    {
      table, file, log := d.table, d.file, [];
    }

    method SetSetting(key: SecretKey, value: Cipher)
      modifies this
      ensures table == old(table)[key := value] && file == old(file)
      ensures log == old(log) + [Disk(table, file)]
    {
      table := table[key := value];
      log := log + [Disk(table, file)];
    }

    /** The temporary file takes the old one's place in one step. */
    method Rename(f: File)
      modifies this
      ensures table == old(table) && file == f && log == old(log) + [Disk(table, file)]
    {
      file := f;
      log := log + [Disk(table, file)];
    }

    method SaveSecretIfChanged(key: SecretKey, plain: string, nonce: int) returns (ok: bool)
      modifies this
      ensures Saved(table, ok) == SaveIfChanged(old(table), key, plain, nonce) && file == old(file)
      ensures log == old(log) + OnDisk(Note([], old(table), table), file)
    {
      if plain == "" {
        return true;
      }
      if key in table {
        if table[key].Unreadable? {
          return false;
        }
        if table[key].plain == plain {
          return true;
        }
      }
      SetSetting(key, Sealed(plain, nonce));
      assert key !in old(table) || old(table)[key].plain != plain;
      ok := true;
    }

    method LoadOrMigrateSecret(key: SecretKey, legacy: string, nonce: int) returns (value: Option<string>)
      modifies this
      ensures Loaded(table, value) == LoadOrMigrate(old(table), key, legacy, nonce) && file == old(file)
      ensures log == old(log) + OnDisk(Note([], old(table), table), file)
    {
      if key in table {
        return if table[key].Sealed? then Some(table[key].plain) else None;
      }
      if legacy == "" {
        return Some("");
      }
      var ok := SaveSecretIfChanged(key, legacy, nonce);
      value := if ok then Some(legacy) else None;
    }
  }

  lemma {:induction false} LoadFailureSticks(t: Table, legacy: Triple, nonces: Nonces, order: seq<SecretKey>, i: int)
    requires 0 <= i <= |order| && !LoadAll(t, legacy, nonces, order[..i]).ok
    ensures LoadAll(t, legacy, nonces, order) == LoadAll(t, legacy, nonces, order[..i])
    decreases order
  {
    if i < |order| {
      assert order[..|order|-1][..i] == order[..i];
      LoadFailureSticks(t, legacy, nonces, order[..|order|-1], i);
    } else {
      assert order[..i] == order;
    }
  }

  /** Once a save has failed the rest of the keys are not tried. */
  lemma {:induction false} FailureSticks(t: Table, values: Triple, nonces: Nonces, order: seq<SecretKey>, i: int)
    requires 0 <= i <= |order| && !SaveAll(t, values, nonces, order[..i]).ok
    ensures SaveAll(t, values, nonces, order) == SaveAll(t, values, nonces, order[..i])
    decreases order
  {
    if i < |order| {
      assert order[..|order|-1][..i] == order[..i];
      FailureSticks(t, values, nonces, order[..|order|-1], i);
    } else {
      assert order[..i] == order;
    }
  }

  class Manager {
    const db: Storage
    var cfg: AppConfig
    var hooked: bool

    ghost function View(): Machine
      reads this, db
    {
      Machine(Disk(db.table, db.file), cfg, hooked, db.log)
    }

    constructor (db: Storage)
      requires db.log == []
      ensures this.db == db && View() == Boot(Disk(db.table, db.file))
    {
      this.db := db;
      cfg := Unmarshal(db.file);
      hooked := false;
    }

    /** The keys in `done` have been saved without an error, starting from `t0` and log `log0`. */
    ghost predicate SavedSoFar(t0: Table, log0: seq<Disk>, values: Triple, nonces: Nonces, done: seq<SecretKey>)
      reads db
    {
      var e := SaveAll(t0, values, nonces, done);
      e.ok && e.table == db.table && db.log == log0 + OnDisk(e.writes, db.file)
    }

    method SaveNext(ghost t0: Table, ghost log0: seq<Disk>, values: Triple, nonces: Nonces,
                    ghost done: seq<SecretKey>, key: SecretKey)
      returns (ok: bool)
      requires SavedSoFar(t0, log0, values, nonces, done)
      modifies db
      ensures db.file == old(db.file)
      ensures ok ==> SavedSoFar(t0, log0, values, nonces, done + [key])
      ensures !ok ==> var e := SaveAll(t0, values, nonces, done + [key]);
        !e.ok && e.table == db.table && db.log == log0 + OnDisk(e.writes, db.file)
    {
      assert (done + [key])[..|done|] == done;
      ok := db.SaveSecretIfChanged(key, values.Get(key), nonces(key));
    }

    /** The save hook: the candidate's secrets, in whatever order the map yields them. */
    method SaveHook(candidate: AppConfig, nonces: Nonces) returns (ok: bool, ghost order: seq<SecretKey>)
      modifies db
      ensures Enumerates(order, {DashboardPass, SshPass, Token})
      ensures var e := SaveAll(old(db.table), candidate.secrets, nonces, order);
        && db.table == e.table && ok == e.ok && db.file == old(db.file)
        && db.log == old(db.log) + OnDisk(e.writes, db.file)
    {
      ghost var t0, log0 := db.table, db.log;
      var keys := RangeOver({DashboardPass, SshPass, Token});
      order := keys;
      assert log0 + OnDisk([], db.file) == log0;
      for i := 0 to |keys|
        invariant SavedSoFar(t0, log0, candidate.secrets, nonces, keys[..i]) && db.file == old(db.file)
      {
        assert keys[..i+1] == keys[..i] + [keys[i]];
        ok := SaveNext(t0, log0, candidate.secrets, nonces, keys[..i], keys[i]);
        if !ok {
          FailureSticks(t0, candidate.secrets, nonces, keys, i + 1);
          return;
        }
      }
      assert keys[..|keys|] == keys;
      ok := true;
    }

    method Update(candidate: AppConfig, nonces: Nonces) returns (ok: bool, ghost order: seq<SecretKey>)
      modifies this, db
      ensures Enumerates(order, {DashboardPass, SshPass, Token})
      ensures (View(), ok) == UpdateStep(old(View()), candidate, nonces, order)
    {
      order := LOAD_ORDER;
      if hooked {
        ok, order := SaveHook(candidate, nonces);
        if !ok {
          return;
        }
      }
      assert !hooked ==> old(db.log) + OnDisk([], old(db.file)) == old(db.log);
      db.Rename(Marshal(candidate));
      cfg := candidate;
      ok := true;
    }

    /** The keys in `done` have been loaded without an error, starting from `t0` and log `log0`. */
    ghost predicate LoadedSoFar(t0: Table, log0: seq<Disk>, nonces: Nonces, done: seq<SecretKey>, current: Triple)
      reads this, db
    {
      var e := LoadAll(t0, cfg.secrets, nonces, done);
      e.ok && e.table == db.table && e.values == current && db.log == log0 + OnDisk(e.writes, db.file)
    }

    method LoadNext(ghost t0: Table, ghost log0: seq<Disk>, nonces: Nonces, ghost done: seq<SecretKey>,
                    current: Triple, key: SecretKey)
      returns (ok: bool, more: Triple)
      requires LoadedSoFar(t0, log0, nonces, done, current)
      modifies db
      ensures db.file == old(db.file)
      ensures ok ==> LoadedSoFar(t0, log0, nonces, done + [key], more)
      ensures !ok ==> var e := LoadAll(t0, cfg.secrets, nonces, done + [key]);
        !e.ok && e.table == db.table && db.log == log0 + OnDisk(e.writes, db.file)
    {
      assert (done + [key])[..|done|] == done;
      more := current;
      var value := db.LoadOrMigrateSecret(key, cfg.secrets.Get(key), nonces(key));
      ok := value.Some?;
      if ok {
        more := current.With(key, value.value);
      }
    }

    method LoadSecrets(nonces: Nonces) returns (ok: bool, current: Triple)
      modifies db
      ensures var e := LoadAll(old(db.table), cfg.secrets, nonces, LOAD_ORDER);
        && db.table == e.table && db.file == old(db.file) && ok == e.ok && (ok ==> current == e.values)
        && db.log == old(db.log) + OnDisk(e.writes, db.file)
    {
      ghost var t0, log0 := db.table, db.log;
      assert log0 + OnDisk([], db.file) == log0;
      assert [] + [DashboardPass] == LOAD_ORDER[..1] && [DashboardPass] + [SshPass] == LOAD_ORDER[..2]
             && [DashboardPass, SshPass] + [Token] == LOAD_ORDER == LOAD_ORDER[..3];
      ok, current := LoadNext(t0, log0, nonces, [], cfg.secrets, DashboardPass);
      if !ok {
        LoadFailureSticks(t0, cfg.secrets, nonces, LOAD_ORDER, 1);
        return;
      }
      ok, current := LoadNext(t0, log0, nonces, [DashboardPass], current, SshPass);
      if !ok {
        LoadFailureSticks(t0, cfg.secrets, nonces, LOAD_ORDER, 2);
        return;
      }
      ok, current := LoadNext(t0, log0, nonces, [DashboardPass, SshPass], current, Token);
    }

    method SyncEncryptedSecrets(nonces: Nonces, again: Nonces) returns (ok: bool, ghost order: seq<SecretKey>)
      modifies this, db
      ensures Enumerates(order, {DashboardPass, SshPass, Token})
      ensures (View(), ok) == SyncStep(old(View()), nonces, again, order)
    {
      order := LOAD_ORDER;
      var current;
      ok, current := LoadSecrets(nonces);
      if !ok {
        return;
      }
      hooked := true;
      ok, order := Update(cfg.(secrets := current), again);
    }
  }
}
