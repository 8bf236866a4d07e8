/**
  The limits for one user name and for one address, over a table of users, and exactly when they hold
  on all runs. A right login clears the account and the address it comes from; it may be one as another
  user whose name differs in case only, or from the same address as somebody else.
 */
module NameBounds {
  import L = LoginLimits
  import opened Auth
  import opened GuessBounds

  type Users = map<string, User>

  // ---- Logins do not change who can log in ----

  predicate Opens(users: Users, check: PasswordCheck, name: string, password: string) {
    name in users && check(users[name].hash, password)
  }

  predicate SameCreds(a: Users, b: Users) {
    a.Keys == b.Keys && forall name :: name in a ==> a[name].hash == b[name].hash
  }

  lemma {:induction false} RunKeepsCreds(s: AuthState, check: PasswordCheck, steps: seq<Step>)
    ensures SameCreds(s.users, Run(s, check, steps).users)
    decreases steps
  {
    if steps == [] {
    } else {
      RunKeepsCreds(s, check, steps[..|steps|-1]);
    }
  }

  // ---- Guesses at one user name ----

  predicate NameGuess(s: AuthState, check: PasswordCheck, step: Step, name: string) {
    step.Attempt? && step.request.username == name && Login(s, step.request, check, step.at).1 == InvalidCreds
  }

  /** The times at which a guess at the password of `name` was compared and found wrong. */
  function NameTimes(s: AuthState, check: PasswordCheck, steps: seq<Step>, name: string): seq<int>
    decreases steps
  {
    if steps == [] then []
    else
      var front, last := steps[..|steps|-1], steps[|steps|-1];
      NameTimes(s, check, front, name) + if NameGuess(Run(s, check, front), check, last, name) then [last.at] else []
  }

  /** No login as that very name has the right password while it is not refused. */
  ghost predicate NotLoggedIn(s: AuthState, check: PasswordCheck, steps: seq<Step>, name: string) {
    forall i :: 0 <= i < |steps| && steps[i].Attempt? && steps[i].request.username == name ==>
      Login(Run(s, check, steps[..i]), steps[i].request, check, steps[i].at).1 in {AccountLocked, InvalidCreds}
  }

  /** `f` picks the entries of `a` out of `b`, in order. */
  ghost predicate Picks(a: seq<int>, b: seq<int>, f: seq<int>) {
    && |f| == |a|
    && (forall i :: 0 <= i < |f| ==> 0 <= f[i] < |b| && a[i] == b[f[i]])
    && (forall i, j :: 0 <= i < j < |f| ==> f[i] < f[j])
  }

  lemma PickOneMore(a: seq<int>, b: seq<int>, f: seq<int>, at: int)
    requires Picks(a, b, f)
    ensures Picks(a, b + [at], f) && Picks(a + [at], b + [at], f + [|b|])
  {
  }

  /** The guesses at a name are some of the guesses at its account. */
  lemma {:induction false} NamesAreGuesses(s: AuthState, check: PasswordCheck, steps: seq<Step>, name: string)
    returns (f: seq<int>)
    ensures Picks(NameTimes(s, check, steps, name), GuessTimes(s, check, steps, AccountKey(name)), f)
    decreases steps
  {
    if steps == [] {
      f := [];
    } else {
      var front, last := steps[..|steps|-1], steps[|steps|-1];
      f := NamesAreGuesses(s, check, front, name);
      var a, b := NameTimes(s, check, front, name), GuessTimes(s, check, front, AccountKey(name));
      PickOneMore(a, b, f, last.at);
      assert a + [] == a && b + [] == b;
      if NameGuess(Run(s, check, front), check, last, name) {
        f := f + [|b|];
      }
    }
  }

  lemma {:induction false} PicksSpread(f: seq<int>, i: int, n: nat)
    requires forall x, y :: 0 <= x < y < |f| ==> f[x] < f[y]
    requires 0 <= i && i + n < |f|
    ensures f[i + n] >= f[i] + n
    decreases n
  {
    if n == 0 {
    } else {
      PicksSpread(f, i, n - 1);
    }
  }

  lemma PickedSpread(a: seq<int>, b: seq<int>, f: seq<int>, n: nat, gap: int)
    requires Picks(a, b, f) && L.Sorted(b) && L.Spread(b, n, gap)
    ensures L.Sorted(a) && L.Spread(a, n, gap)
  {
    forall i | 0 <= i && i + n < |a|
      ensures a[i + n] - a[i] >= gap
    {
      PicksSpread(f, i, n);
      assert b[f[i] + n] - b[f[i]] >= gap;
      assert b[f[i] + n] <= b[f[i + n]];
    }
    forall i, j | 0 <= i <= j < |a|
      ensures a[i] <= a[j]
    {
      assert i < j ==> f[i] < f[j];
    }
  }

  // ---- What the limit for a name promises ----

  /** Another user, whose name differs in case only, and a password that opens it. */
  ghost predicate HasTwin(users: Users, check: PasswordCheck, name: string) {
    exists other, password :: other != name && Lower(other) == Lower(name) && Opens(users, check, other, password)
  }

  /** There is a password to guess wrong. */
  ghost predicate CanMiss(users: Users, check: PasswordCheck, name: string) {
    exists password :: !Opens(users, check, name, password)
  }

  function PolicyOf(maxFails: int, lockMinutes: int, windowMinutes: int): L.Policy {
    L.Policy(maxFails, lockMinutes * MINUTE, windowMinutes * MINUTE)
  }

  /** As long as nobody logs in as that very name, that many compared guesses at it are that far apart. */
  ghost predicate KeepsName(s: AuthState, check: PasswordCheck, steps: seq<Step>, name: string, p: L.Policy, gap: int)
    requires p.maxFails >= 0
  {
    L.Proper(s.limits, AccountKey(name)) && OnePolicy(steps, AccountKey(name), p)
    && NotLoggedIn(s, check, steps, name) ==>
      L.Spread(NameTimes(s, check, steps, name), p.maxFails, gap)
  }

  /** So it is on all runs over these users, from all limiter tables. */
  ghost predicate NameBoundHolds(users: Users, check: PasswordCheck, name: string, p: L.Policy, gap: int)
    requires p.maxFails >= 0
  {
    forall s: AuthState, steps :: s.users == users ==> KeepsName(s, check, steps, name, p, gap)
  }

  lemma SameLower(a: string, b: string)
    requires AccountKey(a) == AccountKey(b)
    ensures Lower(a) == Lower(b)
  {
    assert AccountKey(a)[8..] == Lower(a) && AccountKey(b)[8..] == Lower(b);
  }

  lemma OnlyTwins(users: Users, check: PasswordCheck, name: string, other: string, password: string)
    requires !HasTwin(users, check, name) && other != name && Lower(other) == Lower(name)
    ensures !Opens(users, check, other, password)
  {
  }

  /** Without a twin nobody logs in on the account at all. */
  lemma NoTwinNoSuccess(s: AuthState, check: PasswordCheck, steps: seq<Step>, name: string)
    requires !HasTwin(s.users, check, name) && NotLoggedIn(s, check, steps, name)
    ensures NoSuccess(s, check, steps, AccountKey(name))
  {
    forall i | 0 <= i < |steps| && steps[i].Attempt? && Concerns(steps[i].request, AccountKey(name))
      ensures Login(Run(s, check, steps[..i]), steps[i].request, check, steps[i].at).1 in {AccountLocked, InvalidCreds}
    {
      var q, t := steps[i].request, Run(s, check, steps[..i]);
      KindsDiffer(name, q.clientKey);
      SameLower(q.username, name);
      RunKeepsCreds(s, check, steps[..i]);
      if q.username != name {
        OnlyTwins(s.users, check, name, q.username, q.password);
      }
    }
  }

  lemma NameBoundKept(s: AuthState, check: PasswordCheck, steps: seq<Step>, name: string, p: L.Policy, gap: int)
    requires !Skipped(AccountKey(name))
    requires L.Positive(p) && gap <= L.Spacing(p) && (gap <= L.FORGOTTEN || p.maxFails == 1)
    requires p.maxFails == 1 || !HasTwin(s.users, check, name)
    ensures KeepsName(s, check, steps, name, p, gap)
  {
    if L.Proper(s.limits, AccountKey(name)) && OnePolicy(steps, AccountKey(name), p)
       && NotLoggedIn(s, check, steps, name) {
      var f := NamesAreGuesses(s, check, steps, name);
      var times := GuessTimes(s, check, steps, AccountKey(name));
      if p.maxFails == 1 {
        FirstLocks(s, check, steps, AccountKey(name), p);
      } else {
        NoTwinNoSuccess(s, check, steps, name);
        GuessBound(s, check, steps, AccountKey(name), p, gap);
      }
      PickedSpread(NameTimes(s, check, steps, name), times, f, p.maxFails, gap);
    }
  }

  /** If every password opens the name there are no wrong guesses. */
  lemma {:induction false} NothingToMiss(s: AuthState, check: PasswordCheck, steps: seq<Step>, name: string)
    requires !CanMiss(s.users, check, name)
    ensures NameTimes(s, check, steps, name) == []
    decreases steps
  {
    if steps == [] {
    } else {
      var front, last := steps[..|steps|-1], steps[|steps|-1];
      NothingToMiss(s, check, front, name);
      RunKeepsCreds(s, check, front);
      if last.Attempt? && last.request.username == name {
        assert Opens(s.users, check, name, last.request.password);
      }
    }
  }

  // ---- Runs that repeat two logins ----

  /** Two requests in turn, `n` times, all at time 0. */
  function Rounds(a: Request, b: Request, n: nat): seq<Step>
    decreases n
  {
    if n == 0 then [] else Rounds(a, b, n - 1) + [Attempt(a, 0)] + [Attempt(b, 0)]
  }

  lemma TwoMoreSteps(s: AuthState, check: PasswordCheck, front: seq<Step>, a: Step, b: Step)
    ensures Run(s, check, front + [a] + [b]) == Take(Take(Run(s, check, front), check, a), check, b)
    ensures (front + [a] + [b])[..|front|] == front && (front + [a] + [b])[..|front|+1] == front + [a]
    ensures Run(s, check, front + [a]) == Take(Run(s, check, front), check, a)
  {
    assert (front + [a] + [b])[..|front|+1] == front + [a];
    assert (front + [a])[..|front|] == front;
  }

  lemma {:induction false} RoundsAre(a: Request, b: Request, n: nat)
    ensures |Rounds(a, b, n)| == 2 * n
    ensures forall step :: step in Rounds(a, b, n) ==> step == Attempt(a, 0) || step == Attempt(b, 0)
    decreases n
  {
    if n == 0 {
    } else {
      RoundsAre(a, b, n - 1);
    }
  }

  lemma RoundsOnePolicy(a: Request, b: Request, n: nat, key: string, p: L.Policy)
    requires Concerns(a, key) ==> PolicyFor(a, key) == p
    requires Concerns(b, key) ==> PolicyFor(b, key) == p
    ensures OnePolicy(Rounds(a, b, n), key, p)
  {
    RoundsAre(a, b, n);
    forall i | 0 <= i < |Rounds(a, b, n)|
      ensures Rounds(a, b, n)[i] == Attempt(a, 0) || Rounds(a, b, n)[i] == Attempt(b, 0)
    {
      assert Rounds(a, b, n)[i] in Rounds(a, b, n);
    }
  }

  ghost predicate Zeros(times: seq<int>, n: nat) {
    |times| == n && forall i :: 0 <= i < n ==> times[i] == 0
  }

  lemma OneMoreZero(times: seq<int>, n: nat)
    requires Zeros(times, n)
    ensures Zeros(times + [0], n + 1)
  {
  }

  lemma ZerosNotSpread(times: seq<int>, n: nat, gap: int)
    requires Zeros(times, n + 1) && gap > 0
    ensures !L.Spread(times, n, gap)
  {
    assert times[0 + n] - times[0] == 0;
  }

  // ---- A twin ----

  /** A login from nowhere in particular, with these limits. */
  function From(clientKey: string, name: string, password: string, maxFails: int, ipMaxFails: int,
                lockMinutes: int, windowMinutes: int): Request {
    Request(name, password, clientKey, 1, maxFails, ipMaxFails, lockMinutes, windowMinutes, "t")
  }

  lemma ForgetsBoth(limits: L.Rows, a: Request, b: Request, at: int)
    requires Lower(a.username) == Lower(b.username) && a.clientKey == b.clientKey
    requires AccountKey(a.username) !in limits && IpKey(a.clientKey) !in limits
    requires AccountKey(a.username) != IpKey(a.clientKey)
    requires AccountPolicy(a).maxFails >= 2 && IpPolicy(a).maxFails >= 2
    ensures var rows := RegisterBoth(limits, a, at);
      && !L.Limited(rows, AccountKey(a.username), at) && !L.Limited(rows, IpKey(a.clientKey), at)
      && ClearBoth(rows, b) == limits
  {
  }

  /** A wrong guess at a name and a right login as its twin, from one address: neither is refused, and
      the limiter forgets both the account and the address. If the twin waits for approval, nothing at
      all has changed. */
  lemma TwinForgets(s: AuthState, check: PasswordCheck, a: Request, b: Request, at: int)
    requires Lower(a.username) == Lower(b.username) && a.clientKey == b.clientKey
    requires AccountKey(a.username) !in s.limits && IpKey(a.clientKey) !in s.limits
    requires AccountPolicy(a).maxFails >= 2 && IpPolicy(a).maxFails >= 2
    requires !ValidCreds(s, a, check) && ValidCreds(s, b, check)
    ensures Login(s, a, check, at).1 == InvalidCreds
    ensures var t := Login(Login(s, a, check, at).0, b, check, at);
      && t.1 != AccountLocked && t.0.limits == s.limits
      && (!s.users[b.username].approved ==> t.0 == s)
  {
    KindsDiffer(a.username, a.clientKey);
    ForgetsBoth(s.limits, a, b, at);
  }

  lemma NameRound(s: AuthState, check: PasswordCheck, front: seq<Step>, a: Request, b: Request)
    requires a.username != b.username && Login(Run(s, check, front), a, check, 0).1 == InvalidCreds
    ensures NameTimes(s, check, front + [Attempt(a, 0)] + [Attempt(b, 0)], a.username) ==
            NameTimes(s, check, front, a.username) + [0]
  {
    var one, two := front + [Attempt(a, 0)], front + [Attempt(a, 0)] + [Attempt(b, 0)];
    assert two[..|two|-1] == one && one[..|one|-1] == front;
    assert NameTimes(s, check, one, a.username) == NameTimes(s, check, front, a.username) + [0];
  }

  lemma NotLoggedInMore(s: AuthState, check: PasswordCheck, front: seq<Step>, a: Request, b: Request)
    requires a.username != b.username && Login(Run(s, check, front), a, check, 0).1 == InvalidCreds
    requires NotLoggedIn(s, check, front, a.username)
    ensures NotLoggedIn(s, check, front + [Attempt(a, 0)] + [Attempt(b, 0)], a.username)
  {
    var steps := front + [Attempt(a, 0)] + [Attempt(b, 0)];
    assert steps[..|front|] == front;
    forall i | 0 <= i < |steps| && steps[i].Attempt? && steps[i].request.username == a.username
      ensures Login(Run(s, check, steps[..i]), steps[i].request, check, steps[i].at).1 in {AccountLocked, InvalidCreds}
    {
      if i < |front| {
        assert steps[..i] == front[..i] && steps[i] == front[i];
      }
    }
  }

  lemma TwinRound(s: AuthState, check: PasswordCheck, front: seq<Step>, a: Request, b: Request)
    requires Run(s, check, front).limits == map[] && a.username != b.username
    requires Lower(a.username) == Lower(b.username) && a.clientKey == b.clientKey
    requires AccountPolicy(a).maxFails >= 2 && IpPolicy(a).maxFails >= 2
    requires !Opens(s.users, check, a.username, a.password) && Opens(s.users, check, b.username, b.password)
    requires NotLoggedIn(s, check, front, a.username)
    ensures var steps := front + [Attempt(a, 0)] + [Attempt(b, 0)];
      && Run(s, check, steps).limits == map[] && NotLoggedIn(s, check, steps, a.username)
      && NameTimes(s, check, steps, a.username) == NameTimes(s, check, front, a.username) + [0]
  {
    var t := Run(s, check, front);
    RunKeepsCreds(s, check, front);
    TwinForgets(t, check, a, b, 0);
    TwoMoreSteps(s, check, front, Attempt(a, 0), Attempt(b, 0));
    NameRound(s, check, front, a, b);
    NotLoggedInMore(s, check, front, a, b);
  }

  lemma {:induction false} TwinRun(s: AuthState, check: PasswordCheck, a: Request, b: Request, n: nat)
    requires s.limits == map[] && a.username != b.username
    requires Lower(a.username) == Lower(b.username) && a.clientKey == b.clientKey
    requires AccountPolicy(a).maxFails >= 2 && IpPolicy(a).maxFails >= 2
    requires !Opens(s.users, check, a.username, a.password) && Opens(s.users, check, b.username, b.password)
    ensures Run(s, check, Rounds(a, b, n)).limits == map[]
    ensures Zeros(NameTimes(s, check, Rounds(a, b, n), a.username), n)
    ensures NotLoggedIn(s, check, Rounds(a, b, n), a.username)
    decreases n
  {
    if n == 0 {
    } else {
      TwinRun(s, check, a, b, n - 1);
      TwinRound(s, check, Rounds(a, b, n - 1), a, b);
      OneMoreZero(NameTimes(s, check, Rounds(a, b, n - 1), a.username), n - 1);
    }
  }

  /** A run over these users that breaks the bound for the name, all of whose logins come from `address`. */
  ghost predicate BreaksName(users: Users, check: PasswordCheck, steps: seq<Step>, name: string, address: string,
                             p: L.Policy, gap: int)
    requires p.maxFails >= 0
  {
    && (forall step :: step in steps ==> step.Attempt? && step.request.clientKey == address)
    && !KeepsName(AuthState(map[], users, map[]), check, steps, name, p, gap)
  }

  lemma ZerosBreakName(s: AuthState, check: PasswordCheck, steps: seq<Step>, name: string, p: L.Policy, gap: int)
    requires p.maxFails >= 0 && gap > 0 && L.Proper(s.limits, AccountKey(name)) && OnePolicy(steps, AccountKey(name), p)
    requires NotLoggedIn(s, check, steps, name) && Zeros(NameTimes(s, check, steps, name), p.maxFails + 1)
    ensures !KeepsName(s, check, steps, name, p, gap)
  {
    ZerosNotSpread(NameTimes(s, check, steps, name), p.maxFails, gap);
  }

  lemma TwinPolicy(a: Request, b: Request, n: nat, p: L.Policy)
    requires Lower(a.username) == Lower(b.username) && a.clientKey == b.clientKey
    requires AccountPolicy(a) == p && AccountPolicy(b) == p
    ensures OnePolicy(Rounds(a, b, n), AccountKey(a.username), p)
  {
    KindsDiffer(a.username, a.clientKey);
    RoundsOnePolicy(a, b, n, AccountKey(a.username), p);
  }

  lemma TwinSteps(s: AuthState, check: PasswordCheck, a: Request, b: Request, p: L.Policy, n: nat)
    returns (steps: seq<Step>)
    requires s.limits == map[] && a.username != b.username && p.maxFails >= 2
    requires Lower(a.username) == Lower(b.username) && a.clientKey == b.clientKey
    requires AccountPolicy(a) == p && AccountPolicy(b) == p && IpPolicy(a).maxFails >= 2
    requires !Opens(s.users, check, a.username, a.password) && Opens(s.users, check, b.username, b.password)
    ensures OnePolicy(steps, AccountKey(a.username), p) && NotLoggedIn(s, check, steps, a.username)
    ensures Zeros(NameTimes(s, check, steps, a.username), n)
    ensures forall step :: step in steps ==> step.Attempt? && step.request.clientKey == a.clientKey
  {
    steps := Rounds(a, b, n);
    RoundsAre(a, b, n);
    TwinRun(s, check, a, b, n);
    TwinPolicy(a, b, n, p);
  }

  lemma TwinRequests(users: Users, check: PasswordCheck, a: Request, b: Request, p: L.Policy, gap: int)
    returns (steps: seq<Step>)
    requires p.maxFails >= 2 && gap > 0 && a.username != b.username
    requires Lower(a.username) == Lower(b.username) && a.clientKey == b.clientKey
    requires AccountPolicy(a) == p && AccountPolicy(b) == p && IpPolicy(a).maxFails >= 2
    requires !Opens(users, check, a.username, a.password) && Opens(users, check, b.username, b.password)
    ensures BreaksName(users, check, steps, a.username, a.clientKey, p, gap)
  {
    var s := AuthState(map[], users, map[]);
    steps := TwinSteps(s, check, a, b, p, p.maxFails + 1);
    ZerosBreakName(s, check, steps, a.username, p, gap);
  }

  /** With a twin, however many guesses at the name are compared at once, from any address. */
  lemma TwinBreaksBound(users: Users, check: PasswordCheck, name: string, address: string, maxFails: int,
                        lockMinutes: int, windowMinutes: int, gap: int)
    returns (steps: seq<Step>)
    requires maxFails >= 2 && lockMinutes >= 1 && windowMinutes >= 1 && gap > 0
    requires HasTwin(users, check, name) && CanMiss(users, check, name)
    ensures BreaksName(users, check, steps, name, address, PolicyOf(maxFails, lockMinutes, windowMinutes), gap)
  {
    var other, right :| other != name && Lower(other) == Lower(name) && Opens(users, check, other, right);
    var wrong :| !Opens(users, check, name, wrong);
    steps := TwinRequests(users, check, From(address, name, wrong, maxFails, 2, lockMinutes, windowMinutes),
                          From(address, other, right, maxFails, 2, lockMinutes, windowMinutes),
                          PolicyOf(maxFails, lockMinutes, windowMinutes), gap);
  }

  // ---- A key that is never looked up ----

  /** Nothing but the same request, all at time 0. */
  ghost predicate Again(steps: seq<Step>, q: Request) {
    forall i :: 0 <= i < |steps| ==> steps[i] == Attempt(q, 0)
  }

  /** `n` failures at most, and no lock. */
  ghost predicate Free(limits: L.Rows, key: string, n: nat) {
    key in limits ==> 0 <= limits[key].failures <= n && limits[key].lockedUntil.None?
  }

  /** After `n` wrong guesses neither key of the request is refused, whatever has been counted. */
  ghost predicate Untouched(limits: L.Rows, q: Request, n: nat) {
    && (Skipped(AccountKey(q.username)) || Free(limits, AccountKey(q.username), n))
    && (Skipped(IpKey(q.clientKey)) || Free(limits, IpKey(q.clientKey), n))
  }

  /** A limit beyond `n`, or none at all because the key is not looked up. */
  predicate Lenient(q: Request, n: nat) {
    && (Skipped(AccountKey(q.username)) || n < AccountPolicy(q).maxFails)
    && (Skipped(IpKey(q.clientKey)) || n < IpPolicy(q).maxFails)
  }

  lemma UntouchedStill(limits: L.Rows, q: Request, n: nat)
    requires Untouched(limits, q, n) && Lenient(q, n + 1) && AccountKey(q.username) != IpKey(q.clientKey)
    ensures Untouched(RegisterBoth(limits, q, 0), q, n + 1)
  {
  }

  /** Each of these requests is compared and found wrong. */
  ghost predicate AllWrong(s: AuthState, check: PasswordCheck, q: Request, steps: seq<Step>) {
    forall i :: 0 <= i < |steps| ==> Login(Run(s, check, steps[..i]), q, check, 0).1 == InvalidCreds
  }

  lemma OneMoreWrong(s: AuthState, check: PasswordCheck, q: Request, front: seq<Step>, last: Step)
    ensures AllWrong(s, check, q, front + [last]) <==>
            AllWrong(s, check, q, front) && Login(Run(s, check, front), q, check, 0).1 == InvalidCreds
  {
    var steps := front + [last];
    assert steps[..|front|] == front && forall i :: 0 <= i < |front| ==> steps[..i] == front[..i];
  }

  lemma AgainOne(t: AuthState, check: PasswordCheck, q: Request, n: nat)
    requires Untouched(t.limits, q, n) && Lenient(q, n + 1) && !ValidCreds(t, q, check)
    ensures Login(t, q, check, 0).1 == InvalidCreds && Untouched(Login(t, q, check, 0).0.limits, q, n + 1)
  {
    KindsDiffer(q.username, q.clientKey);
    UntouchedStill(t.limits, q, n);
  }

  lemma AgainMore(s: AuthState, check: PasswordCheck, q: Request, steps: seq<Step>)
    requires Again(steps, q) && steps != []
    ensures var front := steps[..|steps|-1];
      Again(front, q) && Run(s, check, steps) == Login(Run(s, check, front), q, check, 0).0
  {
  }

  /** Guesses that neither key refuses are all compared. */
  lemma {:induction false} AgainRun(s: AuthState, check: PasswordCheck, q: Request, steps: seq<Step>)
    requires s.limits == map[] && Again(steps, q) && Lenient(q, |steps|)
    requires !Opens(s.users, check, q.username, q.password)
    ensures Untouched(Run(s, check, steps).limits, q, |steps|) && AllWrong(s, check, q, steps)
    decreases steps
  {
    if steps == [] {
    } else {
      var front := steps[..|steps|-1];
      AgainMore(s, check, q, steps);
      AgainRun(s, check, q, front);
      RunKeepsCreds(s, check, front);
      AgainOne(Run(s, check, front), check, q, |front|);
      OneMoreWrong(s, check, q, front, steps[|front|]);
      assert steps == front + [steps[|front|]];
    }
  }

  lemma {:induction false} AgainTimes(s: AuthState, check: PasswordCheck, q: Request, steps: seq<Step>, key: string)
    requires Again(steps, q) && AllWrong(s, check, q, steps) && Concerns(q, key)
    ensures Zeros(NameTimes(s, check, steps, q.username), |steps|) && Zeros(GuessTimes(s, check, steps, key), |steps|)
    decreases steps
  {
    if steps == [] {
    } else {
      var front := steps[..|steps|-1];
      OneMoreWrong(s, check, q, front, steps[|front|]);
      assert steps == front + [steps[|front|]];
      AgainTimes(s, check, q, front, key);
      OneMoreZero(NameTimes(s, check, front, q.username), |front|);
      OneMoreZero(GuessTimes(s, check, front, key), |front|);
    }
  }

  /** So many wrong guesses as there are requests that nothing refuses, watched at a key. */
  lemma AgainSteps(s: AuthState, check: PasswordCheck, q: Request, n: nat, key: string, p: L.Policy)
    returns (steps: seq<Step>)
    requires s.limits == map[] && Lenient(q, n) && !Opens(s.users, check, q.username, q.password)
    requires Concerns(q, key) && PolicyFor(q, key) == p
    ensures OnePolicy(steps, key, p) && NotLoggedIn(s, check, steps, q.username)
    ensures Zeros(NameTimes(s, check, steps, q.username), n) && Zeros(GuessTimes(s, check, steps, key), n)
    ensures forall step :: step in steps ==> step.Attempt? && step.request.clientKey == q.clientKey
  {
    steps := seq(n, i => Attempt(q, 0));
    AgainRun(s, check, q, steps);
    AgainTimes(s, check, q, steps, key);
  }

  /** Guesses at a name whose account is not looked up, from any address with a high enough limit. */
  lemma SkippedNameFails(users: Users, check: PasswordCheck, name: string, address: string, maxFails: int,
                         lockMinutes: int, windowMinutes: int, gap: int)
    returns (steps: seq<Step>)
    requires maxFails >= 1 && lockMinutes >= 1 && windowMinutes >= 1 && gap > 0
    requires Skipped(AccountKey(name)) && CanMiss(users, check, name)
    ensures BreaksName(users, check, steps, name, address, PolicyOf(maxFails, lockMinutes, windowMinutes), gap)
  {
    var wrong :| !Opens(users, check, name, wrong);
    var q := From(address, name, wrong, maxFails, maxFails + 2, lockMinutes, windowMinutes);
    var s, p := AuthState(map[], users, map[]), PolicyOf(maxFails, lockMinutes, windowMinutes);
    steps := AgainSteps(s, check, q, maxFails + 1, AccountKey(name), p);
    ZerosBreakName(s, check, steps, name, p, gap);
  }

  // ---- The exact condition for a name ----

  /** Where the bound holds no run breaks it. */
  lemma NameBoundUnbroken(users: Users, check: PasswordCheck, steps: seq<Step>, name: string, address: string,
                          p: L.Policy, gap: int)
    requires p.maxFails >= 0 && BreaksName(users, check, steps, name, address, p, gap)
    ensures !NameBoundHolds(users, check, name, p, gap)
  {
    assert !KeepsName(AuthState(map[], users, map[]), check, steps, name, p, gap);
  }

  /** The bound for one user name holds on all runs exactly when its account is looked up and either the
      first failure locks or no other user has the name in another case and a password that opens it; or
      when nothing is a wrong guess at it. */
  lemma NameBoundExact(users: Users, check: PasswordCheck, name: string, maxFails: int, lockMinutes: int,
                       windowMinutes: int, gap: int)
    requires maxFails >= 1 && lockMinutes >= 1 && windowMinutes >= 1
    requires var p := PolicyOf(maxFails, lockMinutes, windowMinutes);
      0 < gap <= L.Spacing(p) && (gap <= L.FORGOTTEN || maxFails == 1)
    ensures NameBoundHolds(users, check, name, PolicyOf(maxFails, lockMinutes, windowMinutes), gap) <==>
            (!Skipped(AccountKey(name)) && (maxFails == 1 || !HasTwin(users, check, name)))
            || !CanMiss(users, check, name)
  {
    var p := PolicyOf(maxFails, lockMinutes, windowMinutes);
    if !CanMiss(users, check, name) {
      forall s: AuthState, steps | s.users == users
        ensures KeepsName(s, check, steps, name, p, gap)
      {
        NothingToMiss(s, check, steps, name);
      }
    } else if Skipped(AccountKey(name)) {
      var steps := SkippedNameFails(users, check, name, "192.0.2.1", maxFails, lockMinutes, windowMinutes, gap);
      NameBoundUnbroken(users, check, steps, name, "192.0.2.1", p, gap);
    } else if maxFails == 1 || !HasTwin(users, check, name) {
      forall s: AuthState, steps | s.users == users
        ensures KeepsName(s, check, steps, name, p, gap)
      {
        NameBoundKept(s, check, steps, name, p, gap);
      }
    } else {
      var steps := TwinBreaksBound(users, check, name, "192.0.2.1", maxFails, lockMinutes, windowMinutes, gap);
      NameBoundUnbroken(users, check, steps, name, "192.0.2.1", p, gap);
    }
  }

  // ---- The exact condition for an address ----

  /** Somebody has a password that opens. */
  ghost predicate SomebodyOpens(users: Users, check: PasswordCheck) {
    exists name, password :: Opens(users, check, name, password)
  }

  /** That many compared guesses from the address, at whatever names, are that far apart, whoever logs in
      from it. */
  ghost predicate KeepsAddress(s: AuthState, check: PasswordCheck, steps: seq<Step>, address: string, p: L.Policy,
                               gap: int)
    requires p.maxFails >= 0
  {
    L.Proper(s.limits, IpKey(address)) && OnePolicy(steps, IpKey(address), p) ==>
      L.Spread(GuessTimes(s, check, steps, IpKey(address)), p.maxFails, gap)
  }

  /** So it is on all runs over these users, from all limiter tables. */
  ghost predicate AddressBoundHolds(users: Users, check: PasswordCheck, address: string, p: L.Policy, gap: int)
    requires p.maxFails >= 0
  {
    forall s: AuthState, steps :: s.users == users ==> KeepsAddress(s, check, steps, address, p, gap)
  }

  lemma NobodyOpensNoSuccess(s: AuthState, check: PasswordCheck, steps: seq<Step>, key: string)
    requires !SomebodyOpens(s.users, check)
    ensures NoSuccess(s, check, steps, key)
  {
    forall i | 0 <= i < |steps| && steps[i].Attempt?
      ensures Login(Run(s, check, steps[..i]), steps[i].request, check, steps[i].at).1 in {AccountLocked, InvalidCreds}
    {
      RunKeepsCreds(s, check, steps[..i]);
      assert !Opens(s.users, check, steps[i].request.username, steps[i].request.password);
    }
  }

  lemma AddressBoundKept(s: AuthState, check: PasswordCheck, steps: seq<Step>, address: string, p: L.Policy, gap: int)
    requires !Skipped(IpKey(address))
    requires L.Positive(p) && gap <= L.Spacing(p) && (gap <= L.FORGOTTEN || p.maxFails == 1)
    requires p.maxFails == 1 || !SomebodyOpens(s.users, check)
    ensures KeepsAddress(s, check, steps, address, p, gap)
  {
    if L.Proper(s.limits, IpKey(address)) && OnePolicy(steps, IpKey(address), p) {
      if p.maxFails == 1 {
        FirstLocks(s, check, steps, IpKey(address), p);
      } else {
        NobodyOpensNoSuccess(s, check, steps, IpKey(address));
        GuessBound(s, check, steps, IpKey(address), p, gap);
      }
    }
  }

  /** Guesses at a name nobody has, and a right login after each. */
  ghost predicate Strays(limits: L.Rows, nobody: string, n: nat) {
    && limits.Keys <= {AccountKey(nobody)}
    && (AccountKey(nobody) in limits ==>
          limits[AccountKey(nobody)].failures <= n && limits[AccountKey(nobody)].lockedUntil.None?)
  }

  lemma StrayRound(limits: L.Rows, a: Request, b: Request, n: nat)
    requires Strays(limits, a.username, n) && a.clientKey == b.clientKey
    requires AccountKey(a.username) != AccountKey(b.username)
    requires AccountKey(a.username) != IpKey(a.clientKey) && AccountKey(b.username) != IpKey(a.clientKey)
    requires AccountPolicy(a).maxFails >= n + 2 && IpPolicy(a).maxFails >= 2 && !Skipped(IpKey(a.clientKey))
    ensures !L.Limited(limits, AccountKey(a.username), 0) && !L.Limited(limits, IpKey(a.clientKey), 0)
    ensures var rows := RegisterBoth(limits, a, 0);
      && !L.Limited(rows, AccountKey(b.username), 0) && !L.Limited(rows, IpKey(b.clientKey), 0)
      && Strays(ClearBoth(rows, b), a.username, n + 1)
  {
  }

  lemma StrayOnce(s: AuthState, check: PasswordCheck, front: seq<Step>, a: Request, b: Request, n: nat)
    requires Strays(Run(s, check, front).limits, a.username, n)
    requires a.username !in s.users && a.clientKey == b.clientKey
    requires AccountKey(a.username) != AccountKey(b.username) && !Skipped(IpKey(a.clientKey))
    requires AccountPolicy(a).maxFails >= n + 2 && IpPolicy(a).maxFails >= 2
    requires Opens(s.users, check, b.username, b.password)
    ensures var steps := front + [Attempt(a, 0)] + [Attempt(b, 0)];
      && Strays(Run(s, check, steps).limits, a.username, n + 1)
      && GuessTimes(s, check, steps, IpKey(a.clientKey)) == GuessTimes(s, check, front, IpKey(a.clientKey)) + [0]
  {
    var t, steps := Run(s, check, front), front + [Attempt(a, 0)] + [Attempt(b, 0)];
    RunKeepsCreds(s, check, front);
    KindsDiffer(a.username, a.clientKey);
    KindsDiffer(b.username, a.clientKey);
    StrayRound(t.limits, a, b, n);
    TwoMoreSteps(s, check, front, Attempt(a, 0), Attempt(b, 0));
    assert steps[..|steps|-1] == front + [Attempt(a, 0)];
    assert Login(t, a, check, 0).1 == InvalidCreds;
    assert GuessTimes(s, check, front + [Attempt(a, 0)], IpKey(a.clientKey)) ==
           GuessTimes(s, check, front, IpKey(a.clientKey)) + [0];
  }

  lemma {:induction false} StrayRun(s: AuthState, check: PasswordCheck, a: Request, b: Request, n: nat, most: nat)
    requires s.limits == map[] && a.username !in s.users && a.clientKey == b.clientKey && n <= most
    requires AccountKey(a.username) != AccountKey(b.username) && !Skipped(IpKey(a.clientKey))
    requires AccountPolicy(a).maxFails >= most + 2 && IpPolicy(a).maxFails >= 2
    requires Opens(s.users, check, b.username, b.password)
    ensures Strays(Run(s, check, Rounds(a, b, n)).limits, a.username, n)
    ensures Zeros(GuessTimes(s, check, Rounds(a, b, n), IpKey(a.clientKey)), n)
    decreases n
  {
    if n == 0 {
    } else {
      StrayRun(s, check, a, b, n - 1, most);
      StrayOnce(s, check, Rounds(a, b, n - 1), a, b, n - 1);
      OneMoreZero(GuessTimes(s, check, Rounds(a, b, n - 1), IpKey(a.clientKey)), n - 1);
    }
  }

  /** A name that no user has, not even in another case. */
  lemma {:induction false} NobodysName(names: set<string>) returns (nobody: string)
    ensures forall name :: name in names ==> |name| < |nobody|
    decreases names
  {
    if names == {} {
      nobody := "";
    } else {
      var name :| name in names;
      var rest := NobodysName(names - {name});
      nobody := rest + name + "x";
    }
  }

  lemma ZerosBreakAddress(s: AuthState, check: PasswordCheck, steps: seq<Step>, address: string, p: L.Policy, gap: int)
    requires p.maxFails >= 0 && gap > 0 && L.Proper(s.limits, IpKey(address)) && OnePolicy(steps, IpKey(address), p)
    requires Zeros(GuessTimes(s, check, steps, IpKey(address)), p.maxFails + 1)
    ensures !AddressBoundHolds(s.users, check, address, p, gap)
  {
    ZerosNotSpread(GuessTimes(s, check, steps, IpKey(address)), p.maxFails, gap);
    assert !KeepsAddress(s, check, steps, address, p, gap);
  }

  lemma StrayRequests(users: Users, check: PasswordCheck, a: Request, b: Request, p: L.Policy, gap: int)
    requires p.maxFails >= 2 && gap > 0 && a.username !in users && a.clientKey == b.clientKey
    requires AccountKey(a.username) != AccountKey(b.username) && !Skipped(IpKey(a.clientKey))
    requires AccountPolicy(a).maxFails >= p.maxFails + 3 && IpPolicy(a) == p && IpPolicy(b) == p
    requires Opens(users, check, b.username, b.password)
    ensures !AddressBoundHolds(users, check, a.clientKey, p, gap)
  {
    var s := AuthState(map[], users, map[]);
    StrayRun(s, check, a, b, p.maxFails + 1, p.maxFails + 1);
    RoundsOnePolicy(a, b, p.maxFails + 1, IpKey(a.clientKey), p) by {
      KindsDiffer(a.username, a.clientKey);
      KindsDiffer(b.username, a.clientKey);
    }
    ZerosBreakAddress(s, check, Rounds(a, b, p.maxFails + 1), a.clientKey, p, gap);
  }

  lemma LoginsBreakAddressBound(users: Users, check: PasswordCheck, address: string, maxFails: int, lockMinutes: int,
                                windowMinutes: int, gap: int)
    requires maxFails >= 2 && lockMinutes >= 1 && windowMinutes >= 1 && gap > 0 && !Skipped(IpKey(address))
    requires SomebodyOpens(users, check)
    ensures !AddressBoundHolds(users, check, address, PolicyOf(maxFails, lockMinutes, windowMinutes), gap)
  {
    var name, right :| Opens(users, check, name, right);
    var nobody := NobodysName(users.Keys);
    assert name in users.Keys && |AccountKey(nobody)| != |AccountKey(name)|;
    StrayRequests(users, check, From(address, nobody, "", maxFails + 3, maxFails, lockMinutes, windowMinutes),
                  From(address, name, right, maxFails + 3, maxFails, lockMinutes, windowMinutes),
                  PolicyOf(maxFails, lockMinutes, windowMinutes), gap);
  }

  /** From an address that is not looked up, guesses at a name that nobody has are all compared. */
  lemma SkippedAddressFails(users: Users, check: PasswordCheck, address: string, maxFails: int, lockMinutes: int,
                            windowMinutes: int, gap: int)
    requires maxFails >= 1 && lockMinutes >= 1 && windowMinutes >= 1 && gap > 0 && Skipped(IpKey(address))
    ensures !AddressBoundHolds(users, check, address, PolicyOf(maxFails, lockMinutes, windowMinutes), gap)
  {
    var nobody := NobodysName(users.Keys);
    var q := From(address, nobody, "", maxFails + 2, maxFails, lockMinutes, windowMinutes);
    var s, p := AuthState(map[], users, map[]), PolicyOf(maxFails, lockMinutes, windowMinutes);
    KindsDiffer(nobody, address);
    var steps := AgainSteps(s, check, q, maxFails + 1, IpKey(address), p);
    ZerosBreakAddress(s, check, steps, address, p, gap);
  }

  /** The bound for one address holds on all runs exactly when the address is looked up and either the
      first failure locks or nobody can log in: any right login from it makes the limiter forget it. */
  lemma AddressBoundExact(users: Users, check: PasswordCheck, address: string, maxFails: int, lockMinutes: int,
                          windowMinutes: int, gap: int)
    requires maxFails >= 1 && lockMinutes >= 1 && windowMinutes >= 1
    requires var p := PolicyOf(maxFails, lockMinutes, windowMinutes);
      0 < gap <= L.Spacing(p) && (gap <= L.FORGOTTEN || maxFails == 1)
    ensures AddressBoundHolds(users, check, address, PolicyOf(maxFails, lockMinutes, windowMinutes), gap) <==>
            !Skipped(IpKey(address)) && (maxFails == 1 || !SomebodyOpens(users, check))
  {
    var p := PolicyOf(maxFails, lockMinutes, windowMinutes);
    if Skipped(IpKey(address)) {
      SkippedAddressFails(users, check, address, maxFails, lockMinutes, windowMinutes, gap);
    } else if maxFails == 1 || !SomebodyOpens(users, check) {
      forall s: AuthState, steps | s.users == users
        ensures KeepsAddress(s, check, steps, address, p, gap)
      {
        AddressBoundKept(s, check, steps, address, p, gap);
      }
    } else {
      LoginsBreakAddressBound(users, check, address, maxFails, lockMinutes, windowMinutes, gap);
    }
  }

  /** An IPv6 address whose text ends in two colons, as the address of a client may be written. */
  const SHORTENED := "2001:db8:1:2:3:4::"

  /** It is not looked up, and the bound fails for it under every policy, whoever the users are. */
  lemma ShortenedAddress(users: Users, check: PasswordCheck, maxFails: int, lockMinutes: int, windowMinutes: int,
                         gap: int)
    requires maxFails >= 1 && lockMinutes >= 1 && windowMinutes >= 1 && gap > 0
    ensures Skipped(IpKey(SHORTENED))
    ensures !AddressBoundHolds(users, check, SHORTENED, PolicyOf(maxFails, lockMinutes, windowMinutes), gap)
  {
    var key := IpKey(SHORTENED);
    assert key[|key|-1] == SHORTENED[|SHORTENED|-1] == ':';
    SkippedAddressFails(users, check, SHORTENED, maxFails, lockMinutes, windowMinutes, gap);
  }
}
