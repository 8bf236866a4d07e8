/**
  How many wrong guesses the limiter lets through when logins come one after another: for an account,
  for a user name, and for an address. Several user names may share one account, because the account
  is the name in lower case and users are told apart by case.
 */
module GuessBounds {
  import opened Basics
  import L = LoginLimits
  import opened Auth

  // ---- Guesses that concern a key ----

  /** The policy under which a request is recorded on a key that it concerns. */
  function PolicyFor(q: Request, key: string): L.Policy {
    if key == AccountKey(q.username) then AccountPolicy(q) else IpPolicy(q)
  }

  /** A guess that was compared with the password and found wrong, on the account or address `key`. */
  predicate WrongGuess(s: AuthState, check: PasswordCheck, step: Step, key: string) {
    && step.Attempt? && Concerns(step.request, key)
    && Login(s, step.request, check, step.at).1 == InvalidCreds
  }

  function GuessTimes(s: AuthState, check: PasswordCheck, steps: seq<Step>, key: string): seq<int>
    decreases steps
  {
    if steps == [] then []
    else
      var front, last := steps[..|steps|-1], steps[|steps|-1];
      GuessTimes(s, check, front, key) +
      if WrongGuess(Run(s, check, front), check, last, key) then [last.at] else []
  }

  /** The clock never goes back, and attempts on `key` use one policy. */
  ghost predicate OnePolicy(steps: seq<Step>, key: string, p: L.Policy) {
    && (forall i, j :: 0 <= i <= j < |steps| ==> steps[i].at <= steps[j].at)
    && (forall i :: 0 <= i < |steps| && steps[i].Attempt? && Concerns(steps[i].request, key) ==>
          PolicyFor(steps[i].request, key) == p)
  }

  /** No attempt on `key` has the right password while it is not refused. */
  ghost predicate NoSuccess(s: AuthState, check: PasswordCheck, steps: seq<Step>, key: string) {
    forall i :: 0 <= i < |steps| && steps[i].Attempt? && Concerns(steps[i].request, key) ==>
      Login(Run(s, check, steps[..i]), steps[i].request, check, steps[i].at).1 in {AccountLocked, InvalidCreds}
  }

  lemma {:induction false} CountedConcat(start: L.Rows, a: seq<L.Event>, b: seq<L.Event>, key: string)
    requires forall e :: e in b ==> !(e.Fail? && e.key == key)
    ensures L.CountedTimes(start, a + b, key) == L.CountedTimes(start, a, key)
    decreases b
  {
    if b == [] {
      assert a + b == a;
    } else {
      CountedConcat(start, a, b[..|b|-1], key);
      assert (a + b)[..|a+b|-1] == a + b[..|b|-1];
      assert b[|b|-1] in b;
    }
  }

  lemma CountedOne(start: L.Rows, a: seq<L.Event>, e: L.Event, key: string)
    ensures L.CountedTimes(start, a + [e], key) ==
            L.CountedTimes(start, a, key) + if L.Counts(L.Run(start, a), e, key) then [e.at] else []
  {
    assert (a + [e])[..|a|] == a;
  }

  lemma RunMoreEvents(start: L.Rows, a: seq<L.Event>, e: L.Event)
    ensures L.Run(start, a + [e]) == L.Take(L.Run(start, a), e)
  {
    assert (a + [e])[..|a|] == a;
  }

  /** A failure that counts on its key, followed by some that concern others. */
  lemma FirstCounts(start: L.Rows, before: seq<L.Event>, e: L.Event, rest: seq<L.Event>, key: string)
    requires L.Counts(L.Run(start, before), e, key)
    requires forall x :: x in rest ==> !(x.Fail? && x.key == key)
    ensures L.CountedTimes(start, before + [e] + rest, key) == L.CountedTimes(start, before, key) + [e.at]
  {
    CountedOne(start, before, e, key);
    CountedConcat(start, before + [e], rest, key);
  }

  /** A wrong guess is recorded on the account first, and then, if at all, elsewhere. */
  lemma AccountEvents(s: AuthState, q: Request, check: PasswordCheck, at: int) returns (rest: seq<L.Event>)
    requires Login(s, q, check, at).1 == InvalidCreds && !Skipped(AccountKey(q.username))
    ensures EventsOf(s, check, Attempt(q, at)) == [L.Fail(AccountKey(q.username), AccountPolicy(q), at)] + rest
    ensures forall x :: x in rest ==> x.Fail? && x.key == IpKey(q.clientKey)
    ensures !L.Limited(s.limits, AccountKey(q.username), at)
  {
    rest := if Skipped(IpKey(q.clientKey)) then [] else [L.Fail(IpKey(q.clientKey), IpPolicy(q), at)];
  }

  lemma AccountStep(start: L.Rows, before: seq<L.Event>, s: AuthState, q: Request, check: PasswordCheck, at: int)
    requires s.limits == L.Run(start, before) && !Skipped(AccountKey(q.username))
    requires Login(s, q, check, at).1 == InvalidCreds
    ensures L.CountedTimes(start, before + EventsOf(s, check, Attempt(q, at)), AccountKey(q.username)) ==
            L.CountedTimes(start, before, AccountKey(q.username)) + [at]
  {
    var key := AccountKey(q.username);
    var e := L.Fail(key, AccountPolicy(q), at);
    var rest := AccountEvents(s, q, check, at);
    KindsDiffer(q.username, q.clientKey);
    FirstCounts(start, before, e, rest, key);
    assert before + [e] + rest == before + ([e] + rest);
  }

  /** A wrong guess is what both keys let through, and is recorded on both. */
  lemma WrongGuessEvents(s: AuthState, q: Request, check: PasswordCheck, at: int)
    requires Login(s, q, check, at).1 == InvalidCreds && !Skipped(IpKey(q.clientKey))
    ensures EventsOf(s, check, Attempt(q, at)) ==
            [L.Fail(AccountKey(q.username), AccountPolicy(q), at), L.Fail(IpKey(q.clientKey), IpPolicy(q), at)]
    ensures !L.Limited(s.limits, IpKey(q.clientKey), at)
  {
  }

  /** Two failures of different keys, the second not locked: both count, each on its own key. */
  lemma SecondCounts(start: L.Rows, before: seq<L.Event>, f: L.Event, g: L.Event)
    requires f.Fail? && g.Fail? && f.key != g.key && !L.Limited(L.Run(start, before), g.key, g.at)
    ensures L.CountedTimes(start, before + [f, g], g.key) == L.CountedTimes(start, before, g.key) + [g.at]
  {
    CountedConcat(start, before, [f], g.key);
    RunMoreEvents(start, before, f);
    CountedOne(start, before + [f], g, g.key);
    assert before + [f, g] == before + [f] + [g];
  }

  /** And then on the address. */
  lemma AddressStep(start: L.Rows, before: seq<L.Event>, s: AuthState, q: Request, check: PasswordCheck, at: int)
    requires s.limits == L.Run(start, before) && !Skipped(IpKey(q.clientKey))
    requires Login(s, q, check, at).1 == InvalidCreds
    ensures L.CountedTimes(start, before + EventsOf(s, check, Attempt(q, at)), IpKey(q.clientKey)) ==
            L.CountedTimes(start, before, IpKey(q.clientKey)) + [at]
  {
    KindsDiffer(q.username, q.clientKey);
    WrongGuessEvents(s, q, check, at);
    SecondCounts(start, before, L.Fail(AccountKey(q.username), AccountPolicy(q), at),
                 L.Fail(IpKey(q.clientKey), IpPolicy(q), at));
  }

  /** One step adds the same times on both sides. */
  lemma GuessStep(start: L.Rows, before: seq<L.Event>, s: AuthState, check: PasswordCheck, step: Step, key: string)
    requires s.limits == L.Run(start, before) && !Skipped(key)
    ensures L.CountedTimes(start, before + EventsOf(s, check, step), key) ==
            L.CountedTimes(start, before, key) + if WrongGuess(s, check, step, key) then [step.at] else []
  {
    if WrongGuess(s, check, step, key) {
      if key == AccountKey(step.request.username) {
        AccountStep(start, before, s, step.request, check, step.at);
      } else {
        AddressStep(start, before, s, step.request, check, step.at);
      }
    } else {
      CountedConcat(start, before, EventsOf(s, check, step), key);
    }
  }

  lemma {:induction false} GuessesAreCounted(s: AuthState, check: PasswordCheck, steps: seq<Step>, key: string)
    requires !Skipped(key)
    ensures GuessTimes(s, check, steps, key) == L.CountedTimes(s.limits, Events(s, check, steps), key)
    decreases steps
  {
    if steps == [] {
    } else {
      var front, last := steps[..|steps|-1], steps[|steps|-1];
      GuessesAreCounted(s, check, front, key);
      LimitsFollowEvents(s, check, front);
      GuessStep(s.limits, Events(s, check, front), Run(s, check, front), check, last, key);
    }
  }

  /** An event that a guessing run may contain, at a given time. */
  ghost predicate Fits(e: L.Event, key: string, p: L.Policy) {
    (e.Fail? && e.key == key ==> e.policy == p) && !(e.Success? && e.key == key)
  }

  lemma StepFits(s: AuthState, check: PasswordCheck, step: Step, key: string, p: L.Policy)
    requires step.Attempt? && Concerns(step.request, key) ==>
      PolicyFor(step.request, key) == p && Login(s, step.request, check, step.at).1 in {AccountLocked, InvalidCreds}
    ensures forall e :: e in EventsOf(s, check, step) ==>
      e.at == step.at && Fits(e, key, p) && (e.Collect? ==> step.Collect?)
  {
    if step.Attempt? {
      KindsDiffer(step.request.username, step.request.clientKey);
    }
  }

  lemma GuessesAppend(a: seq<L.Event>, b: seq<L.Event>, key: string, p: L.Policy, at: int)
    requires L.Guesses(a, key, p)
    requires forall e :: e in a ==> e.at <= at
    requires forall e :: e in b ==> e.at == at && Fits(e, key, p)
    ensures L.Guesses(a + b, key, p) && forall e :: e in a + b ==> e.at <= at
  {
    assert forall e :: e in a + b <==> e in a || e in b;
    forall i, j | 0 <= i <= j < |a + b|
      ensures (a + b)[i].at <= (a + b)[j].at
    {
      assert (a + b)[j] == if j < |a| then a[j] else b[j - |a|];
      assert (a + b)[i] == if i < |a| then a[i] else b[i - |a|];
    }
  }

  lemma FrontGuesses(s: AuthState, check: PasswordCheck, steps: seq<Step>, key: string, p: L.Policy)
    requires steps != [] && OnePolicy(steps, key, p) && NoSuccess(s, check, steps, key)
    ensures OnePolicy(steps[..|steps|-1], key, p) && NoSuccess(s, check, steps[..|steps|-1], key)
  {
    var front := steps[..|steps|-1];
    assert forall i :: 0 <= i < |front| ==> front[..i] == steps[..i] && front[i] == steps[i];
  }

  lemma {:induction false} GuessingEvents(s: AuthState, check: PasswordCheck, steps: seq<Step>, key: string,
                                          p: L.Policy)
    requires OnePolicy(steps, key, p) && NoSuccess(s, check, steps, key)
    ensures L.Guesses(Events(s, check, steps), key, p)
    ensures forall e :: e in Events(s, check, steps) ==> steps != [] && e.at <= steps[|steps|-1].at
    ensures (forall step :: step in steps ==> !step.Collect?) ==>
              forall e :: e in Events(s, check, steps) ==> !e.Collect?
    decreases steps
  {
    if steps == [] {
    } else {
      var front, last := steps[..|steps|-1], steps[|steps|-1];
      FrontGuesses(s, check, steps, key, p);
      GuessingEvents(s, check, front, key, p);
      assert last in steps && forall step :: step in front ==> step in steps;
      assert steps[..|steps|-1] == front;
      StepFits(Run(s, check, front), check, last, key, p);
      GuessesAppend(Events(s, check, front), EventsOf(Run(s, check, front), check, last), key, p, last.at);
    }
  }

  /** The collector does not shorten `gap` on this run. */
  ghost predicate Unshortened(p: L.Policy, gap: int, steps: seq<Step>) {
    gap <= L.FORGOTTEN || p.maxFails == 1 || forall step :: step in steps ==> !step.Collect?
  }

  /** Logins one after another, from any state, with no right password on the key (an account or an
      address) while it is not refused: any `maxFails + 1` compared guesses in a row span at least every
      gap up to the shorter of lock and window that the collector leaves alone. */
  lemma GuessBound(s: AuthState, check: PasswordCheck, steps: seq<Step>, key: string, p: L.Policy, gap: int)
    requires L.Proper(s.limits, key) && !Skipped(key)
    requires L.Positive(p) && OnePolicy(steps, key, p) && NoSuccess(s, check, steps, key)
    requires gap <= L.Spacing(p) && Unshortened(p, gap, steps)
    ensures L.Sorted(GuessTimes(s, check, steps, key))
    ensures L.Spread(GuessTimes(s, check, steps, key), p.maxFails, gap)
  {
    GuessesAreCounted(s, check, steps, key);
    GuessingEvents(s, check, steps, key, p);
    L.AttemptsSpread(s.limits, Events(s, check, steps), key, p, gap);
  }

  /** So at most `maxFails * (t / gap + 1)` guesses are compared in any interval of length `t`. */
  lemma GuessCount(s: AuthState, check: PasswordCheck, steps: seq<Step>, key: string, p: L.Policy, gap: int,
                   i: int, j: int, t: int)
    requires L.Proper(s.limits, key) && !Skipped(key)
    requires L.Positive(p) && OnePolicy(steps, key, p) && NoSuccess(s, check, steps, key)
    requires 0 < gap <= L.Spacing(p) && Unshortened(p, gap, steps)
    requires var times := GuessTimes(s, check, steps, key);
      0 <= i <= j < |times| && times[j] - times[i] <= t
    ensures j - i + 1 <= p.maxFails * (t / gap + 1)
  {
    GuessBound(s, check, steps, key, p, gap);
    L.FewInInterval(GuessTimes(s, check, steps, key), p.maxFails, gap, i, j, t);
  }

  // ---- When the first failure locks ----

  /** The latest guess still locks the key. */
  ghost predicate StillLocked(limits: L.Rows, key: string, p: L.Policy, times: seq<int>, now: int) {
    var n := |times|;
    && L.Sorted(times) && L.Spread(times, 1, p.lockFor)
    && (n > 0 ==> times[n-1] <= now)
    && (n > 0 && now < times[n-1] + p.lockFor ==>
          key in limits && limits[key].lockedUntil == Some(times[n-1] + p.lockFor))
  }

  lemma {:induction false} ProperKept(rows: L.Rows, events: seq<L.Event>, key: string)
    requires L.Proper(rows, key)
    ensures L.Proper(L.Run(rows, events), key)
    decreases events
  {
    if events == [] {
    } else {
      ProperKept(rows, events[..|events|-1], key);
    }
  }

  /** A failure that reaches the threshold locks the key for the policy's time. */
  lemma LocksAtOnce(s: AuthState, q: Request, check: PasswordCheck, key: string, p: L.Policy, at: int)
    requires L.Proper(s.limits, key) && !Skipped(key) && p.maxFails == 1
    requires Concerns(q, key) && PolicyFor(q, key) == p && Login(s, q, check, at).1 == InvalidCreds
    ensures var limits := Login(s, q, check, at).0.limits;
      key in limits && limits[key].lockedUntil == Some(at + p.lockFor)
  {
    KindsDiffer(q.username, q.clientKey);
  }

  lemma LockedAgain(limits: L.Rows, key: string, p: L.Policy, times: seq<int>, now: int, at: int)
    requires L.Sorted(times) && L.Spread(times, 1, p.lockFor) && (|times| > 0 ==> times[|times|-1] <= now) && now <= at
    requires |times| > 0 ==> at >= times[|times|-1] + p.lockFor
    requires key in limits && limits[key].lockedUntil == Some(at + p.lockFor)
    ensures StillLocked(limits, key, p, times + [at], at)
  {
    L.SpreadStep(times, 1, p.lockFor, at);
  }

  lemma LockingStep(s: AuthState, check: PasswordCheck, step: Step, key: string, p: L.Policy, times: seq<int>, now: int)
    requires StillLocked(s.limits, key, p, times, now) && now <= step.at && !Skipped(key)
    requires p.maxFails == 1 && p.lockFor > 0
    requires L.Proper(s.limits, key)
    requires step.Attempt? && Concerns(step.request, key) ==> PolicyFor(step.request, key) == p
    ensures StillLocked(Take(s, check, step).limits, key, p,
                        times + (if WrongGuess(s, check, step, key) then [step.at] else []), step.at)
  {
    assert times + [] == times;
    if |times| > 0 && step.at < times[|times|-1] + p.lockFor {
      LockedStep(s, check, key, step);
    } else if WrongGuess(s, check, step, key) {
      LocksAtOnce(s, step.request, check, key, p, step.at);
      LockedAgain(Take(s, check, step).limits, key, p, times, now, step.at);
    }
  }

  /** If the first failure locks, compared guesses are a lock apart, whoever logs in between. */
  lemma {:induction false} FirstLocks(s: AuthState, check: PasswordCheck, steps: seq<Step>, key: string, p: L.Policy)
    requires L.Proper(s.limits, key) && !Skipped(key) && OnePolicy(steps, key, p)
    requires p.maxFails == 1 && p.lockFor > 0
    ensures var times := GuessTimes(s, check, steps, key);
      && L.Proper(Run(s, check, steps).limits, key)
      && if steps == [] then times == [] else
           StillLocked(Run(s, check, steps).limits, key, p, times, steps[|steps|-1].at)
    decreases steps
  {
    if steps == [] {
    } else {
      var front, last := steps[..|steps|-1], steps[|steps|-1];
      FirstLocks(s, check, front, key, p);
      var now := if front == [] then last.at else front[|front|-1].at;
      assert StillLocked(Run(s, check, front).limits, key, p, GuessTimes(s, check, front, key), now);
      LockingStep(Run(s, check, front), check, last, key, p, GuessTimes(s, check, front, key), now);
      LimitsFollowEvents(s, check, steps);
      ProperKept(s.limits, Events(s, check, steps), key);
    }
  }
}
