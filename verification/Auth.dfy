/**
  Logging in: the limiter is asked first, for the account and for the client address, then the
  password is checked, and the outcome is recorded against both keys. A user name is taken here as
  already trimmed.
 */
module Auth {
  import opened Basics
  import L = LoginLimits

  const MINUTE := 60000000000

  datatype User = User(id: int, hash: string, approved: bool, lastLogin: Option<int>)
  datatype Session = Session(userID: int, expiresAt: int)

  datatype AuthState = AuthState(limits: L.Rows, users: map<string, User>, sessions: map<string, Session>)

  datatype Request = Request(
    username: string, password: string, clientKey: string, ttlDays: int,
    maxFails: int, ipMaxFails: int, lockMinutes: int, windowMinutes: int, token: string)

  datatype Outcome = AccountLocked | InvalidCreds | PendingApproval | TokenTaken | LoggedIn(token: string)

  type PasswordCheck = (string, string) -> bool

  /** Every character that is lower-cased to one of ASCII: the capitals, the dotted capital I and the Kelvin
      sign. What other scripts do is left out. */
  function LowerChar(c: char): char {
    if 'A' <= c <= 'Z' then (c as int + 32) as char
    else if c == '\U{0130}' then 'i'
    else if c == '\U{212A}' then 'k'
    else c
  }

  function Lower(s: string): string {
    seq(|s|, i requires 0 <= i < |s| => LowerChar(s[i]))
  }

  function AccountKey(username: string): string {
    "account:" + Lower(username)
  }

  function IpKey(clientKey: string): string {
    "ip:" + clientKey
  }

  /** A key without a name or an address, or with one that ends in a colon, is not looked up. */
  predicate Skipped(key: string) {
    |key| > 0 && key[|key|-1] == ':'
  }

  function OrDefault(x: int, default: int): int {
    if x <= 0 then default else x
  }

  function AccountPolicy(q: Request): L.Policy {
    L.Policy(OrDefault(q.maxFails, 5), OrDefault(q.lockMinutes, 10) * MINUTE, OrDefault(q.windowMinutes, 15) * MINUTE)
  }

  function IpPolicy(q: Request): L.Policy {
    AccountPolicy(q).(maxFails := OrDefault(q.ipMaxFails, OrDefault(q.maxFails, 5) * 3))
  }

  predicate Refused(limits: L.Rows, key: string, now: int) {
    !Skipped(key) && L.Limited(limits, key, now)
  }

  predicate RefusedRequest(s: AuthState, q: Request, now: int) {
    Refused(s.limits, AccountKey(q.username), now) || Refused(s.limits, IpKey(q.clientKey), now)
  }

  predicate ValidCreds(s: AuthState, q: Request, check: PasswordCheck) {
    q.username in s.users && check(s.users[q.username].hash, q.password)
  }

  function RegisterBoth(limits: L.Rows, q: Request, now: int): L.Rows {
    var rows := L.Register(limits, AccountKey(q.username), AccountPolicy(q), now).0;
    if Skipped(IpKey(q.clientKey)) then rows else L.Register(rows, IpKey(q.clientKey), IpPolicy(q), now).0
  }

  function ClearBoth(limits: L.Rows, q: Request): L.Rows {
    var rows := L.Clear(limits, AccountKey(q.username));
    if Skipped(IpKey(q.clientKey)) then rows else L.Clear(rows, IpKey(q.clientKey))
  }

  function Login(s: AuthState, q: Request, check: PasswordCheck, now: int): (AuthState, Outcome) {
    if RefusedRequest(s, q, now) then (s, AccountLocked)
    else if !ValidCreds(s, q, check) then (s.(limits := RegisterBoth(s.limits, q, now)), InvalidCreds)
    else
      var t, u := s.(limits := ClearBoth(s.limits, q)), s.users[q.username];
      if !u.approved then (t, PendingApproval)
      else if q.token in s.sessions then (t, TokenTaken)
      else
        (t.(sessions := s.sessions[q.token := Session(u.id, now + q.ttlDays * L.DAY)],
            users := s.users[q.username := u.(lastLogin := Some(now))]),
         LoggedIn(q.token))
  }

  /** The service over its store. */
  class Service {
    const db: L.LoginStore
    var users: map<string, User>
    var sessions: map<string, Session>

    ghost function View(): AuthState
      reads this, db
    {
      AuthState(db.rows, users, sessions)
    }

    constructor (db: L.LoginStore, users: map<string, User>)
      ensures this.db == db && View() == AuthState(db.rows, users, map[])
    {
      this.db := db;
      this.users := users;
      sessions := map[];
    }

    method IsLoginLimited(accountKey: string, ipKey: string, now: int) returns (limited: bool)
      ensures limited == (Refused(db.rows, accountKey, now) || Refused(db.rows, ipKey, now))
    {
      var keys := [accountKey, ipKey];
      for i := 0 to 2
        invariant forall j :: 0 <= j < i ==> !Refused(db.rows, keys[j], now)
      {
        if !Skipped(keys[i]) {
          var limit := db.GetLoginLimit(keys[i]);
          if limit.Some? && limit.value.lockedUntil.Some? && now < limit.value.lockedUntil.value {
            assert Refused(db.rows, keys[i], now);
            return true;
          }
        }
      }
      assert !Refused(db.rows, keys[0], now) && !Refused(db.rows, keys[1], now);
      limited := false;
    }

    method RegisterLoginFailure(q: Request, now: int)
      modifies db
      ensures db.rows == RegisterBoth(old(db.rows), q, now)
    {
      var accountKey, ipKey := AccountKey(q.username), IpKey(q.clientKey);
      var maxFails, ipMaxFails, lockMinutes, windowMinutes := q.maxFails, q.ipMaxFails, q.lockMinutes, q.windowMinutes;
      if maxFails <= 0 {
        maxFails := 5;
      }
      if ipMaxFails <= 0 {
        ipMaxFails := maxFails * 3;
      }
      if lockMinutes <= 0 {
        lockMinutes := 10;
      }
      if windowMinutes <= 0 {
        windowMinutes := 15;
      }
      var _ := db.RegisterLoginFailure(accountKey, maxFails, lockMinutes * MINUTE, windowMinutes * MINUTE, now);
      if !Skipped(ipKey) {
        var _ := db.RegisterLoginFailure(ipKey, ipMaxFails, lockMinutes * MINUTE, windowMinutes * MINUTE, now);
      }
    }

    method ClearLoginFailures(q: Request)
      modifies db
      ensures db.rows == ClearBoth(old(db.rows), q)
    {
      db.ClearLoginLimit(AccountKey(q.username));
      if !Skipped(IpKey(q.clientKey)) {
        db.ClearLoginLimit(IpKey(q.clientKey));
      }
    }

    method LoginWithClient(q: Request, check: PasswordCheck, now: int) returns (outcome: Outcome)
      modifies this, db
      ensures (View(), outcome) == Login(old(View()), q, check, now)
    {
      var limited := IsLoginLimited(AccountKey(q.username), IpKey(q.clientKey), now);
      if limited {
        return AccountLocked;
      }
      var valid := q.username in users && check(users[q.username].hash, q.password);
      if !valid {
        RegisterLoginFailure(q, now);
        return InvalidCreds;
      }
      var u := users[q.username];
      ClearLoginFailures(q);
      if !u.approved {
        return PendingApproval;
      }
      if q.token in sessions {
        return TokenTaken;
      }
      sessions := sessions[q.token := Session(u.id, now + q.ttlDays * L.DAY)];
      users := users[q.username := u.(lastLogin := Some(now))];
      outcome := LoggedIn(q.token);
    }
  }

  // ---- Runs ----

  datatype Step = Attempt(request: Request, at: int) | Collect(at: int)

  function Take(s: AuthState, check: PasswordCheck, step: Step): AuthState {
    match step
    case Attempt(q, at) => Login(s, q, check, at).0
    case Collect(at) => s.(limits := L.Sweep(s.limits, at))
  }

  function Run(s: AuthState, check: PasswordCheck, steps: seq<Step>): AuthState
    decreases steps
  {
    if steps == [] then s else Take(Run(s, check, steps[..|steps|-1]), check, steps[|steps|-1])
  }

  /** What a step does to the limiter's table. */
  function EventsOf(s: AuthState, check: PasswordCheck, step: Step): seq<L.Event> {
    match step
    case Collect(at) => [L.Event.Collect(at)]
    case Attempt(q, at) =>
      if RefusedRequest(s, q, at) then []
      else if !ValidCreds(s, q, check) then
        [L.Fail(AccountKey(q.username), AccountPolicy(q), at)] +
        (if Skipped(IpKey(q.clientKey)) then [] else [L.Fail(IpKey(q.clientKey), IpPolicy(q), at)])
      else
        [L.Success(AccountKey(q.username), at)] +
        (if Skipped(IpKey(q.clientKey)) then [] else [L.Success(IpKey(q.clientKey), at)])
  }

  function Events(s: AuthState, check: PasswordCheck, steps: seq<Step>): seq<L.Event>
    decreases steps
  {
    if steps == [] then []
    else
      var front := steps[..|steps|-1];
      Events(s, check, front) + EventsOf(Run(s, check, front), check, steps[|steps|-1])
  }

  lemma {:induction false} RunConcat(rows: L.Rows, a: seq<L.Event>, b: seq<L.Event>)
    ensures L.Run(rows, a + b) == L.Run(L.Run(rows, a), b)
    decreases b
  {
    if b == [] {
      assert a + b == a;
    } else {
      RunConcat(rows, a, b[..|b|-1]);
      assert (a + b)[..|a+b|-1] == a + b[..|b|-1];
    }
  }

  lemma RunOne(rows: L.Rows, e: L.Event)
    ensures L.Run(rows, [e]) == L.Take(rows, e)
  {
    assert [e][..0] == [];
    assert L.Run(rows, [e][..0]) == rows;
  }

  lemma StepEvents(s: AuthState, check: PasswordCheck, step: Step)
    ensures Take(s, check, step).limits == L.Run(s.limits, EventsOf(s, check, step))
  {
    var events := EventsOf(s, check, step);
    if |events| == 1 {
      RunOne(s.limits, events[0]);
      assert events == [events[0]];
    } else if |events| == 2 {
      RunOne(s.limits, events[0]);
      RunOne(L.Take(s.limits, events[0]), events[1]);
      RunConcat(s.limits, [events[0]], [events[1]]);
      assert events == [events[0]] + [events[1]];
    }
  }

  /** The limiter's table after a run of logins is that of the store events they issue. */
  lemma {:induction false} LimitsFollowEvents(s: AuthState, check: PasswordCheck, steps: seq<Step>)
    ensures Run(s, check, steps).limits == L.Run(s.limits, Events(s, check, steps))
    decreases steps
  {
    if steps == [] {
    } else {
      var front := steps[..|steps|-1];
      LimitsFollowEvents(s, check, front);
      StepEvents(Run(s, check, front), check, steps[|steps|-1]);
      RunConcat(s.limits, Events(s, check, front), EventsOf(Run(s, check, front), check, steps[|steps|-1]));
    }
  }

  // ---- A lock refuses everything and stays as it is ----

  predicate Concerns(q: Request, key: string) {
    key == AccountKey(q.username) || key == IpKey(q.clientKey)
  }

  /** While a key is locked a login on its account or address is refused, right password or not, and
      changes nothing; any other login leaves the key's row alone. */
  lemma LockedStep(s: AuthState, check: PasswordCheck, key: string, step: Step)
    requires key in s.limits && s.limits[key].lockedUntil.Some? && !Skipped(key)
    requires step.at < s.limits[key].lockedUntil.value
    ensures var t := Take(s, check, step);
      && key in t.limits && t.limits[key] == s.limits[key]
      && (step.Attempt? && Concerns(step.request, key) ==>
        t == s && Login(s, step.request, check, step.at).1 == AccountLocked)
  {
  }

  lemma {:induction false} LockedRun(s: AuthState, check: PasswordCheck, key: string, steps: seq<Step>)
    requires key in s.limits && s.limits[key].lockedUntil.Some? && !Skipped(key)
    requires forall step :: step in steps ==> step.at < s.limits[key].lockedUntil.value
    ensures var t := Run(s, check, steps);
      key in t.limits && t.limits[key] == s.limits[key]
    ensures forall i :: 0 <= i < |steps| && steps[i].Attempt? && Concerns(steps[i].request, key) ==>
      && Login(Run(s, check, steps[..i]), steps[i].request, check, steps[i].at).1 == AccountLocked
      && Run(s, check, steps[..i+1]) == Run(s, check, steps[..i])
    decreases steps
  {
    if steps == [] {
    } else {
      var front, last := steps[..|steps|-1], steps[|steps|-1];
      assert last in steps && forall x :: x in front ==> x in steps;
      LockedRun(s, check, key, front);
      LockedStep(Run(s, check, front), check, key, last);
      forall i | 0 <= i < |steps| && steps[i].Attempt? && Concerns(steps[i].request, key)
        ensures Login(Run(s, check, steps[..i]), steps[i].request, check, steps[i].at).1 == AccountLocked
        ensures Run(s, check, steps[..i+1]) == Run(s, check, steps[..i])
      {
        if i < |front| {
          assert front[..i] == steps[..i] && front[..i+1] == steps[..i+1];
        } else {
          assert steps[..i+1] == steps && steps[..i] == front;
        }
      }
    }
  }

  lemma KindsDiffer(username: string, clientKey: string)
    ensures AccountKey(username) != IpKey(clientKey)
  {
    assert AccountKey(username)[0] == 'a' && IpKey(clientKey)[0] == 'i';
  }

  /** A name that a user may have: 1 to 64 letters, digits, dots, dashes and underscores. Beyond ASCII every
      character is let pass, as a letter or digit of some script. */
  predicate ValidUsername(username: string) {
    && 0 < |username| <= 64
    && forall i :: 0 <= i < |username| ==>
        var c := username[i];
        'a' <= c <= 'z' || 'A' <= c <= 'Z' || '0' <= c <= '9' || c == '.' || c == '-' || c == '_' || c > '~'
  }

  /** No user's account is one of the keys that are never looked up. */
  lemma UsersAreLimited(username: string)
    requires ValidUsername(username)
    ensures !Skipped(AccountKey(username))
  {
    var key := AccountKey(username);
    assert key[|key|-1] == LowerChar(username[|username|-1]);
  }

  /** A login whose address is not looked up, because it is not known or its text ends in a colon, is never
      refused on an account whose name ends in a colon, and anywhere else only for the account. */
  lemma ColonsAreNeverRefused(s: AuthState, q: Request, check: PasswordCheck, now: int)
    requires Skipped(IpKey(q.clientKey))
    ensures Login(s, q, check, now).1 == AccountLocked ==> Refused(s.limits, AccountKey(q.username), now)
    ensures q.username != "" && q.username[|q.username|-1] == ':' ==> Login(s, q, check, now).1 != AccountLocked
    ensures IpKey(q.clientKey) in Login(s, q, check, now).0.limits <==> IpKey(q.clientKey) in s.limits
  {
    var key := AccountKey(q.username);
    KindsDiffer(q.username, q.clientKey);
    assert q.username != "" ==> key[|key|-1] == LowerChar(q.username[|q.username|-1]);
  }

  /** Names that Unicode lower-casing brings together with names of ASCII letters; users may have them. */
  lemma LettersThatMeet()
    ensures ValidUsername("adm\U{0130}n") && Lower("adm\U{0130}n") == Lower("admin")
    ensures ValidUsername("\U{212A}im") && Lower("\U{212A}im") == Lower("kim")
  {
    assert Lower("adm\U{0130}n") == "admin" == Lower("admin");
    assert Lower("\U{212A}im") == "kim" == Lower("kim");
  }

  /** From the end of a lock on, a failed login counts as the first, on the account as on the address. */
  lemma FirstFailureAfterLock(s: AuthState, q: Request, check: PasswordCheck, key: string, now: int)
    requires Concerns(q, key) && !Skipped(key)
    requires key in s.limits && s.limits[key].lockedUntil.Some? && s.limits[key].lockedUntil.value <= now
    requires Login(s, q, check, now).1 == InvalidCreds
    ensures var t := Login(s, q, check, now).0;
      key in t.limits && t.limits[key].failures == 1
  {
    KindsDiffer(q.username, q.clientKey);
  }

  // ---- The collector is hidden from logins ----

  function Outcomes(s: AuthState, check: PasswordCheck, steps: seq<Step>): seq<Outcome>
    decreases steps
  {
    if steps == [] then []
    else
      var front, last := steps[..|steps|-1], steps[|steps|-1];
      Outcomes(s, check, front) +
      if last.Attempt? then [Login(Run(s, check, front), last.request, check, last.at).1] else []
  }

  function Uncollected(steps: seq<Step>): seq<Step>
    decreases steps
  {
    if steps == [] then []
    else Uncollected(steps[..|steps|-1]) + if steps[|steps|-1].Collect? then [] else [steps[|steps|-1]]
  }

  ghost predicate OrderedSteps(steps: seq<Step>) {
    && (forall i, j :: 0 <= i <= j < |steps| ==> steps[i].at <= steps[j].at)
    && (forall step :: step in steps && step.Attempt? ==> AccountPolicy(step.request).window <= L.DAY)
  }

  ghost predicate Alike(a: AuthState, b: AuthState, now: int) {
    L.Thinned(a.limits, b.limits, now) && a.users == b.users && a.sessions == b.sessions
  }

  lemma FailAlike(a: L.Rows, b: L.Rows, now: int, key: string, p: L.Policy, at: int)
    requires L.Thinned(a, b, now) && now <= at && 0 < p.window <= L.DAY
    ensures L.Thinned(L.Register(a, key, p, at).0, L.Register(b, key, p, at).0, at)
  {
    L.ThinnedStep(a, b, now, L.Fail(key, p, at));
  }

  lemma RegisterBothAlike(a: L.Rows, b: L.Rows, now: int, q: Request, at: int)
    requires L.Thinned(a, b, now) && now <= at && AccountPolicy(q).window <= L.DAY
    ensures L.Thinned(RegisterBoth(a, q, at), RegisterBoth(b, q, at), at)
  {
    var account, p := AccountKey(q.username), AccountPolicy(q);
    FailAlike(a, b, now, account, p, at);
    var a1, b1 := L.Register(a, account, p, at).0, L.Register(b, account, p, at).0;
    FailAlike(a1, b1, at, IpKey(q.clientKey), IpPolicy(q), at);
  }

  lemma ClearBothAlike(a: L.Rows, b: L.Rows, now: int, q: Request, at: int)
    requires L.Thinned(a, b, now) && now <= at
    ensures L.Thinned(ClearBoth(a, q), ClearBoth(b, q), at)
  {
    L.ThinnedStep(a, b, now, L.Success(AccountKey(q.username), at));
    L.ThinnedStep(L.Clear(a, AccountKey(q.username)), L.Clear(b, AccountKey(q.username)), at,
      L.Success(IpKey(q.clientKey), at));
  }

  lemma LoginAlike(a: AuthState, b: AuthState, check: PasswordCheck, now: int, q: Request, at: int)
    requires Alike(a, b, now) && now <= at && AccountPolicy(q).window <= L.DAY
    ensures Login(a, q, check, at).1 == Login(b, q, check, at).1
    ensures Alike(Login(a, q, check, at).0, Login(b, q, check, at).0, at)
  {
    if RefusedRequest(a, q, at) {
    } else if !ValidCreds(a, q, check) {
      RegisterBothAlike(a.limits, b.limits, now, q, at);
    } else {
      ClearBothAlike(a.limits, b.limits, now, q, at);
    }
  }

  lemma RunMore(s: AuthState, check: PasswordCheck, steps: seq<Step>, front: seq<Step>, step: Step)
    requires steps == front + [step]
    ensures Run(s, check, steps) == Take(Run(s, check, front), check, step)
    ensures Outcomes(s, check, steps) == Outcomes(s, check, front) +
      if step.Attempt? then [Login(Run(s, check, front), step.request, check, step.at).1] else []
  {
    assert steps[..|steps|-1] == front;
    assert step.Collect? ==> Outcomes(s, check, front) + [] == Outcomes(s, check, front);
  }

  lemma CollectAlike(a: AuthState, b: AuthState, check: PasswordCheck, now: int, step: Step)
    requires Alike(a, b, now) && now <= step.at && step.Collect?
    ensures Alike(Take(a, check, step), b, step.at)
  {
    L.ThinnedStep(a.limits, b.limits, now, L.Event.Collect(step.at));
  }

  lemma AttemptAlike(a: AuthState, b: AuthState, check: PasswordCheck, now: int, step: Step)
    requires Alike(a, b, now) && now <= step.at && step.Attempt? && AccountPolicy(step.request).window <= L.DAY
    ensures Login(a, step.request, check, step.at).1 == Login(b, step.request, check, step.at).1
    ensures Alike(Take(a, check, step), Take(b, check, step), step.at)
  {
    LoginAlike(a, b, check, now, step.request, step.at);
  }

  lemma OneMoreHidden(s: AuthState, check: PasswordCheck, steps: seq<Step>, front: seq<Step>, last: Step,
                      more: seq<Step>, rest: seq<Step>, now: int)
    requires steps == front + [last] && more == rest + if last.Collect? then [] else [last]
    requires Outcomes(s, check, front) == Outcomes(s, check, rest)
    requires Alike(Run(s, check, front), Run(s, check, rest), now) && now <= last.at
    requires last.Attempt? ==> AccountPolicy(last.request).window <= L.DAY
    ensures Outcomes(s, check, steps) == Outcomes(s, check, more)
    ensures Alike(Run(s, check, steps), Run(s, check, more), last.at)
  {
    RunMore(s, check, steps, front, last);
    if last.Collect? {
      CollectAlike(Run(s, check, front), Run(s, check, rest), check, now, last);
      assert more == rest;
    } else {
      RunMore(s, check, more, rest, last);
      AttemptAlike(Run(s, check, front), Run(s, check, rest), check, now, last);
    }
  }

  /** Steps in order of time, with windows of at most a day, the last of them at `now`. */
  predicate StepByStep(steps: seq<Step>, now: int)
    decreases steps
  {
    steps == [] ||
    var front, last := steps[..|steps|-1], steps[|steps|-1];
    && StepByStep(front, if front == [] then now else front[|front|-1].at)
    && (front != [] ==> front[|front|-1].at <= last.at) && now == last.at
    && (last.Attempt? ==> AccountPolicy(last.request).window <= L.DAY)
  }

  lemma {:induction false} OrderedStepByStep(steps: seq<Step>, now: int)
    requires OrderedSteps(steps) && (steps != [] ==> now == steps[|steps|-1].at)
    ensures StepByStep(steps, now)
    decreases steps
  {
    if steps == [] {
    } else {
      var front := steps[..|steps|-1];
      assert steps[|front|] in steps && forall x :: x in front ==> x in steps;
      OrderedStepByStep(front, if front == [] then now else front[|front|-1].at);
    }
  }

  lemma {:induction false} HiddenStepByStep(s: AuthState, check: PasswordCheck, steps: seq<Step>, now: int)
    requires s.limits == map[] && StepByStep(steps, now)
    ensures Outcomes(s, check, steps) == Outcomes(s, check, Uncollected(steps))
    ensures Alike(Run(s, check, steps), Run(s, check, Uncollected(steps)), now)
    decreases steps
  {
    if steps == [] {
    } else {
      var front, last := steps[..|steps|-1], steps[|steps|-1];
      var before := if front == [] then now else front[|front|-1].at;
      HiddenStepByStep(s, check, front, before);
      OneMoreHidden(s, check, steps, front, last, Uncollected(steps), Uncollected(front), before);
    }
  }

  /** With windows of at most a day, leaving out every run of the collector changes no login's outcome. */
  lemma CollectorHidden(s: AuthState, check: PasswordCheck, steps: seq<Step>)
    requires s.limits == map[] && OrderedSteps(steps)
    ensures Outcomes(s, check, steps) == Outcomes(s, check, Uncollected(steps))
    ensures Alike(Run(s, check, steps), Run(s, check, Uncollected(steps)),
                  if steps == [] then 0 else steps[|steps|-1].at)
  {
    var now := if steps == [] then 0 else steps[|steps|-1].at;
    OrderedStepByStep(steps, now);
    HiddenStepByStep(s, check, steps, now);
  }
}
