/**
  Which logins share a limiter row, what limits apply by default, and what a successful login leaves behind,
  spelled out in character codes, numbers and nanoseconds.
 */
module AuthKeys {
  import opened Basics
  import L = LoginLimits
  import opened Auth
  import opened NameBounds

  // ---- One account for all ways of writing a name ----

  /** `small` is the small letter of the capital `big`, by their codes. */
  predicate CasePair(big: char, small: char) {
    65 <= big as int <= 90 && small as int == big as int + 32
  }

  /** The names are the same but for ASCII letters that are capital in one and small in the other. */
  ghost predicate SameLetters(a: string, b: string) {
    && |a| == |b|
    && forall i :: 0 <= i < |a| ==> a[i] == b[i] || CasePair(a[i], b[i]) || CasePair(b[i], a[i])
  }

  /** Such names have one account. */
  lemma CaseDoesNotMatter(a: string, b: string)
    requires SameLetters(a, b)
    ensures Lower(a) == Lower(b) && AccountKey(a) == AccountKey(b)
  {
    forall i | 0 <= i < |a|
      ensures Lower(a)[i] == Lower(b)[i]
    {
    }
  }

  /** No two addresses have one key. */
  lemma AddressesAreApart(a: string, b: string)
    requires IpKey(a) == IpKey(b)
    ensures a == b
  {
    assert IpKey(a)[3..] == a && IpKey(b)[3..] == b;
  }

  /** A key is not looked up exactly if the address, or the name, is empty or ends in a colon. */
  lemma NotLookedUp(name: string, address: string)
    ensures Skipped(IpKey(address)) <==> address == "" || address[|address|-1] as int == 58
    ensures Skipped(AccountKey(name)) <==> name == "" || name[|name|-1] as int == 58
  {
    var key, ipKey := AccountKey(name), IpKey(address);
    assert ':' as int == 58;
    assert name != "" ==> key[|key|-1] == LowerChar(name[|name|-1]);
    assert address != "" ==> ipKey[|ipKey|-1] == address[|address|-1];
  }

  /** While an account is locked every login under any of these names is refused, whatever its password and
      wherever it comes from, and changes nothing. */
  lemma LockedUnderEveryCase(s: AuthState, check: PasswordCheck, name: string, q: Request, now: int)
    requires SameLetters(name, q.username) && !Skipped(AccountKey(name)) && L.Limited(s.limits, AccountKey(name), now)
    ensures Login(s, q, check, now) == (s, AccountLocked)
  {
    CaseDoesNotMatter(name, q.username);
  }

  // ---- The limits by default ----

  /** The defaults are 5 failures, 3 times as many from an address, 10 minutes of lock and a window of 15. */
  lemma DefaultLimits(q: Request)
    ensures AccountPolicy(q).maxFails == if q.maxFails > 0 then q.maxFails else 5
    ensures IpPolicy(q).maxFails ==
      if q.ipMaxFails > 0 then q.ipMaxFails else if q.maxFails > 0 then 3 * q.maxFails else 15
    ensures AccountPolicy(q).lockFor == IpPolicy(q).lockFor ==
      (if q.lockMinutes > 0 then q.lockMinutes else 10) * 60000000000
    ensures AccountPolicy(q).window == IpPolicy(q).window ==
      (if q.windowMinutes > 0 then q.windowMinutes else 15) * 60000000000
  {
  }

  /** What `n` failures at time 0 have left of a key. */
  ghost predicate FailedTimes(limits: L.Rows, key: string, n: nat) {
    if n == 0 then key !in limits else key in limits && limits[key] == L.LoginLimit(n, None, Some(0))
  }

  /** No row says otherwise: `n` failures of the account, and of the address if that is looked up. */
  ghost predicate Counted(s: AuthState, q: Request, n: nat) {
    FailedTimes(s.limits, AccountKey(q.username), n)
    && (Skipped(IpKey(q.clientKey)) || FailedTimes(s.limits, IpKey(q.clientKey), n))
  }

  lemma OneMoreCounted(s: AuthState, check: PasswordCheck, q: Request, n: nat)
    requires Counted(s, q, n) && !ValidCreds(s, q, check)
    requires n + 1 < AccountPolicy(q).maxFails && n + 1 < IpPolicy(q).maxFails
    ensures Login(s, q, check, 0).1 == InvalidCreds && Counted(Login(s, q, check, 0).0, q, n + 1)
  {
    KindsDiffer(q.username, q.clientKey);
  }

  lemma LastOneLocks(s: AuthState, check: PasswordCheck, q: Request, n: nat)
    requires Counted(s, q, n) && !ValidCreds(s, q, check)
    requires n + 1 == AccountPolicy(q).maxFails && n + 1 < IpPolicy(q).maxFails
    ensures Login(s, q, check, 0).1 == InvalidCreds
    ensures forall now :: L.Limited(Login(s, q, check, 0).0.limits, AccountKey(q.username), now) <==>
      now < AccountPolicy(q).lockFor
  {
    KindsDiffer(q.username, q.clientKey);
  }

  lemma {:induction false} RunCounts(s: AuthState, check: PasswordCheck, q: Request, steps: seq<Step>)
    requires s.limits == map[] && Again(steps, q) && !Opens(s.users, check, q.username, q.password)
    requires |steps| < AccountPolicy(q).maxFails && |steps| < IpPolicy(q).maxFails
    ensures Counted(Run(s, check, steps), q, |steps|)
    decreases steps
  {
    if steps == [] {
    } else {
      var front := steps[..|steps|-1];
      AgainMore(s, check, q, steps);
      RunCounts(s, check, q, front);
      RunKeepsCreds(s, check, front);
      OneMoreCounted(Run(s, check, front), check, q, |front|);
    }
  }

  /** As many wrong passwords in a row as the limit says lock the account, and for its length every login
      under any way of writing the name is refused, from any address and with any password; before the
      last of them, and from the end of the lock on, the account refuses nobody. */
  lemma WrongPasswordsLock(s: AuthState, check: PasswordCheck, q: Request, steps: seq<Step>, other: Request, now: int)
    requires s.limits == map[] && Again(steps, q) && !Opens(s.users, check, q.username, q.password)
    requires |steps| <= AccountPolicy(q).maxFails < IpPolicy(q).maxFails && !Skipped(AccountKey(q.username))
    requires SameLetters(q.username, other.username)
    ensures var t := Run(s, check, steps);
      if |steps| == AccountPolicy(q).maxFails && now < AccountPolicy(q).lockFor
      then Login(t, other, check, now) == (t, AccountLocked)
      else !Refused(t.limits, AccountKey(other.username), now)
  {
    CaseDoesNotMatter(q.username, other.username);
    if |steps| < AccountPolicy(q).maxFails {
      RunCounts(s, check, q, steps);
    } else {
      var front := steps[..|steps|-1];
      AgainMore(s, check, q, steps);
      RunCounts(s, check, q, front);
      RunKeepsCreds(s, check, front);
      LastOneLocks(Run(s, check, front), check, q, |front|);
    }
  }

  // ---- Admin and admin ----

  lemma AdminIsAdmin()
    ensures SameLetters("Admin", "admin") && !Skipped(AccountKey("Admin"))
  {
    assert 'A' as int == 65 && 'a' as int == 97;
    assert AccountKey("Admin")[|AccountKey("Admin")|-1] == LowerChar("Admin"[4]);
  }

  /** Five wrong passwords at "Admin" refuse the right one at "admin", from elsewhere, for ten minutes. */
  lemma AdminIsLocked(users: Users, check: PasswordCheck, wrong: string, right: string, here: string, there: string,
                      now: int)
    requires !Opens(users, check, "Admin", wrong) && 0 <= now < 600000000000
    ensures var q := Request("Admin", wrong, here, 1, 0, 0, 0, 0, "t");
      var five := [Attempt(q, 0), Attempt(q, 0), Attempt(q, 0), Attempt(q, 0), Attempt(q, 0)];
      Login(Run(AuthState(map[], users, map[]), check, five), Request("admin", right, there, 1, 0, 0, 0, 0, "u"),
        check, now).1 == AccountLocked
  {
    AdminIsAdmin();
    var q := Request("Admin", wrong, here, 1, 0, 0, 0, 0, "t");
    DefaultLimits(q);
    WrongPasswordsLock(AuthState(map[], users, map[]), check, q,
                       [Attempt(q, 0), Attempt(q, 0), Attempt(q, 0), Attempt(q, 0), Attempt(q, 0)],
                       Request("admin", right, there, 1, 0, 0, 0, 0, "u"), now);
  }

  /** And whoever owns "Admin" lifts what has been counted against "admin". */
  lemma AdminForgets(s: AuthState, check: PasswordCheck, a: Request, b: Request, at: int)
    requires a.username == "admin" && b.username == "Admin" && a.clientKey == b.clientKey
    requires AccountKey("admin") !in s.limits && IpKey(a.clientKey) !in s.limits
    requires AccountPolicy(a).maxFails >= 2 && IpPolicy(a).maxFails >= 2
    requires !ValidCreds(s, a, check) && ValidCreds(s, b, check)
    ensures Login(s, a, check, at).1 == InvalidCreds
    ensures Login(Login(s, a, check, at).0, b, check, at).1 != AccountLocked
    ensures Login(Login(s, a, check, at).0, b, check, at).0.limits == s.limits
  {
    AdminIsAdmin();
    CaseDoesNotMatter("Admin", "admin");
    TwinForgets(s, check, a, b, at);
  }

  // ---- What a login opens ----

  /** A login gets through exactly with the right password of an approved user, on two keys that are not
      refused, and a new token; and then it opens a session for that user, `ttlDays` days long. */
  lemma LoginOpens(s: AuthState, q: Request, check: PasswordCheck, now: int)
    ensures var (t, outcome) := Login(s, q, check, now);
      && (outcome.LoggedIn? <==>
          && !RefusedRequest(s, q, now) && q.username in s.users
          && check(s.users[q.username].hash, q.password)
          && s.users[q.username].approved && q.token !in s.sessions)
      && (if outcome.LoggedIn?
          then && outcome.token == q.token
               && t.sessions == s.sessions[q.token := Session(s.users[q.username].id, now + q.ttlDays * 86400000000000)]
               && t.users == s.users[q.username := s.users[q.username].(lastLogin := Some(now))]
          else t.sessions == s.sessions && t.users == s.users)
  {
  }

  /** The step that opened the session: a login of an approved user with the right password. */
  ghost predicate Opened(s: AuthState, check: PasswordCheck, steps: seq<Step>, token: string, session: Session,
                         i: int)
  {
    && 0 <= i < |steps| && steps[i].Attempt? && steps[i].request.token == token
    && var t, q := Run(s, check, steps[..i]), steps[i].request;
       && q.username in t.users && t.users[q.username].approved && check(t.users[q.username].hash, q.password)
       && session == Session(t.users[q.username].id, steps[i].at + q.ttlDays * 86400000000000)
  }

  lemma OpenedStill(s: AuthState, check: PasswordCheck, front: seq<Step>, last: Step, token: string, session: Session,
                    i: int)
    requires Opened(s, check, front, token, session, i)
    ensures Opened(s, check, front + [last], token, session, i)
  {
    assert (front + [last])[..i] == front[..i];
  }

  lemma OpenedNow(s: AuthState, check: PasswordCheck, front: seq<Step>, last: Step, token: string)
    requires last.Attempt? && token in Take(Run(s, check, front), check, last).sessions
    requires var t := Run(s, check, front);
      token !in t.sessions || t.sessions[token] != Take(t, check, last).sessions[token]
    ensures Opened(s, check, front + [last], token, Take(Run(s, check, front), check, last).sessions[token], |front|)
  {
    LoginOpens(Run(s, check, front), last.request, check, last.at);
    assert (front + [last])[..|front|] == front;
  }

  /** On every run every session was opened by such a login, for that user and that long. */
  lemma {:induction false} SessionsAreEarned(s: AuthState, check: PasswordCheck, steps: seq<Step>, token: string)
    requires s.sessions == map[] && token in Run(s, check, steps).sessions
    ensures exists i :: Opened(s, check, steps, token, Run(s, check, steps).sessions[token], i)
    decreases steps
  {
    if steps == [] {
    } else {
      var front, last := steps[..|steps|-1], steps[|steps|-1];
      assert steps == front + [last];
      var t, u := Run(s, check, front), Run(s, check, steps);
      if token in t.sessions && t.sessions[token] == u.sessions[token] {
        SessionsAreEarned(s, check, front, token);
        var i :| Opened(s, check, front, token, t.sessions[token], i);
        OpenedStill(s, check, front, last, token, t.sessions[token], i);
      } else {
        OpenedNow(s, check, front, last, token);
      }
    }
  }
}
