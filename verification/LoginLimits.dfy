/**
  The persistent login limiter: per key a failure counter, a lock and an observation window.
  Times and durations are in nanoseconds.
 */
module LoginLimits {
  import opened Basics

  const HOUR := 3600000000000
  const DAY := 24 * HOUR

  datatype LoginLimit = LoginLimit(failures: int, lockedUntil: Option<int>, lastFailed: Option<int>)

  type Rows = map<string, LoginLimit>

  datatype Policy = Policy(maxFails: int, lockFor: int, window: int)

  predicate LockedAt(l: LoginLimit, now: int) {
    l.lockedUntil.Some? && now < l.lockedUntil.value
  }

  predicate Limited(rows: Rows, key: string, now: int) {
    key in rows && LockedAt(rows[key], now)
  }

  /** The failure count that the next failure starts from. */
  function Carried(l: LoginLimit, window: int, now: int): int {
    if l.lockedUntil.Some? && l.lockedUntil.value <= now then 0
    else if l.lastFailed.Some? && window > 0 && now - l.lastFailed.value > window then 0
    else l.failures
  }

  function Count(rows: Rows, key: string, p: Policy, now: int): int {
    1 + if key in rows then Carried(rows[key], p.window, now) else 0
  }

  function Threshold(p: Policy): int {
    if p.maxFails < 1 then 1 else p.maxFails
  }

  /** The store after a failure, and whether the key is locked now. */
  function Register(rows: Rows, key: string, p: Policy, now: int): (Rows, bool) {
    if Limited(rows, key, now) then (rows, true)
    else
      var failures := Count(rows, key, p, now);
      var locked := failures >= Threshold(p);
      (rows[key := LoginLimit(failures, if locked then Some(now + p.lockFor) else None, Some(now))], locked)
  }

  function Clear(rows: Rows, key: string): Rows {
    rows - {key}
  }

  predicate Expired(l: LoginLimit, now: int) {
    && (l.lockedUntil.None? || l.lockedUntil.value < now)
    && (l.lastFailed.None? || l.lastFailed.value < now - DAY)
  }

  function Sweep(rows: Rows, now: int): Rows {
    map key | key in rows && !Expired(rows[key], now) :: rows[key]
  }

  /** Two tables say the same about a key. */
  predicate AgreeOn(a: Rows, b: Rows, key: string) {
    (key in a <==> key in b) && (key in a ==> a[key] == b[key])
  }

  predicate FailedSince(rows: Rows, key: string, from: int) {
    key in rows && rows[key].lastFailed.Some? && from <= rows[key].lastFailed.value
  }

  /** The table itself: each operation updates it in place. */
  class LoginStore {
    var rows: Rows

    constructor ()
      ensures rows == map[]
    {
      rows := map[];
    }

    method GetLoginLimit(key: string) returns (l: Option<LoginLimit>)
      ensures l == if key in rows then Some(rows[key]) else None
    {
      if key in rows {
        l := Some(rows[key]);
      } else {
        l := None;
      }
    }

    method RegisterLoginFailure(key: string, maxFails: int, lockFor: int, window: int, now: int) returns (locked: bool)
      modifies this
      ensures (rows, locked) == Register(old(rows), key, Policy(maxFails, lockFor, window), now)
    {
      var limit := if maxFails < 1 then 1 else maxFails;
      var failures := 0;
      var lockedUntil: Option<int>, lastFailed: Option<int> := None, None;
      if key in rows {
        failures, lockedUntil, lastFailed := rows[key].failures, rows[key].lockedUntil, rows[key].lastFailed;
      }
      if lockedUntil.Some? && lockedUntil.value > now {
        return true;
      }
      if (lockedUntil.Some? && lockedUntil.value <= now) ||
         (lastFailed.Some? && window > 0 && now - lastFailed.value > window) {
        failures := 0;
      }
      failures := failures + 1;
      var newLocked: Option<int> := None;
      locked := failures >= limit;
      if locked {
        newLocked := Some(now + lockFor);
      }
      rows := rows[key := LoginLimit(failures, newLocked, Some(now))];
    }

    method ClearLoginLimit(key: string)
      modifies this
      ensures key !in rows
      ensures forall k :: k != key ==> AgreeOn(rows, old(rows), k)
      ensures rows == Clear(old(rows), key)
    {
      rows := rows - {key};
    }

    method DeleteExpiredLoginLimits(now: int)
      modifies this
      ensures forall k :: AgreeOn(rows, old(rows), k) || k !in rows
      ensures forall k :: k in old(rows) && k !in rows ==>
        !Limited(old(rows), k, now) && !FailedSince(old(rows), k, now - DAY)
      ensures rows == Sweep(old(rows), now)
    {
      rows := map key | key in rows && !Expired(rows[key], now) :: rows[key];
    }
  }

  // ---- Runs ----

  datatype Event =
    | Fail(key: string, policy: Policy, at: int)
    | Success(key: string, at: int)
    | Ask(key: string, at: int)
    | Collect(at: int)

  function Take(rows: Rows, e: Event): Rows {
    match e
    case Fail(key, policy, at) => Register(rows, key, policy, at).0
    case Success(key, _) => Clear(rows, key)
    case Ask(_, _) => rows
    case Collect(at) => Sweep(rows, at)
  }

  function Run(rows: Rows, events: seq<Event>): Rows
    decreases events
  {
    if events == [] then rows else Take(Run(rows, events[..|events|-1]), events[|events|-1])
  }

  ghost predicate Ordered(events: seq<Event>) {
    forall i, j :: 0 <= i <= j < |events| ==> events[i].at <= events[j].at
  }

  // ---- Locks are exact and frozen ----

  /** Until the lock ends the key is refused, from then on it is not, and the next failure is the first. */
  lemma LockIsExact(rows: Rows, key: string, p: Policy, now: int)
    requires key in rows && rows[key].lockedUntil.Some?
    ensures Limited(rows, key, now) <==> now < rows[key].lockedUntil.value
    ensures now >= rows[key].lockedUntil.value ==>
              Register(rows, key, p, now).0[key].failures == 1 && Register(rows, key, p, now).1 == (p.maxFails <= 1)
  {
  }

  /** The collector keeps exactly the rows whose lock has not ended, or whose last failure is at most 24 hours
      old, and keeps them as they are. */
  lemma SweepExact(rows: Rows, now: int, key: string)
    ensures key in Sweep(rows, now) <==>
      && key in rows
      && ((rows[key].lockedUntil.Some? && now <= rows[key].lockedUntil.value)
          || (rows[key].lastFailed.Some? && now - rows[key].lastFailed.value <= 86400000000000))
    ensures key in Sweep(rows, now) ==> Sweep(rows, now)[key] == rows[key]
  {
  }

  /** Nothing but a success touches a locked key before its lock ends: neither further failures nor
      other keys nor the collector extend, shorten or drop the lock. */
  lemma {:induction false} LockIsFrozen(rows: Rows, events: seq<Event>, key: string)
    requires key in rows && rows[key].lockedUntil.Some?
    requires forall e :: e in events ==> e.at < rows[key].lockedUntil.value && !(e.Success? && e.key == key)
    ensures key in Run(rows, events) && Run(rows, events)[key] == rows[key]
    decreases events
  {
    if events == [] {
    } else {
      LockIsFrozen(rows, events[..|events|-1], key);
      assert events[|events|-1] in events;
    }
  }

  // ---- Keys are independent, and a success resets ----

  function Answer(rows: Rows, e: Event): seq<bool> {
    match e
    case Fail(key, policy, at) => [Register(rows, key, policy, at).1]
    case Ask(key, at) => [Limited(rows, key, at)]
    case _ => []
  }

  /** Whatever happens to the other keys: two tables that agree on a key go on agreeing on it. */
  lemma {:induction false} KeysIndependent(a: Rows, b: Rows, events: seq<Event>, key: string)
    requires AgreeOn(a, b, key)
    ensures AgreeOn(Run(a, events), Run(b, events), key)
    decreases events
  {
    if events == [] {
    } else {
      KeysIndependent(a, b, events[..|events|-1], key);
    }
  }

  predicate Speaks(e: Event, key: string) {
    (e.Fail? || e.Ask?) && e.key == key
  }

  /** After a success the key is as if it had never failed: whatever came before, and whatever comes
      after, every answer about it is the one an empty table would give. */
  lemma SuccessResets(rows: Rows, key: string, at: int, events: seq<Event>, e: Event)
    requires Speaks(e, key)
    ensures var cleared := Run(Take(rows, Success(key, at)), events);
      AgreeOn(cleared, Run(map[], events), key) && Answer(cleared, e) == Answer(Run(map[], events), e)
  {
    KeysIndependent(Take(rows, Success(key, at)), map[], events, key);
  }

  // ---- The attempt bound ----

  predicate Counts(rows: Rows, e: Event, key: string) {
    e.Fail? && e.key == key && !Limited(rows, key, e.at)
  }

  /** The times at which a failure of `key` was counted, in a run from `start`. */
  function CountedTimes(start: Rows, events: seq<Event>, key: string): seq<int>
    decreases events
  {
    if events == [] then []
    else
      var front, e := events[..|events|-1], events[|events|-1];
      CountedTimes(start, front, key) + if Counts(Run(start, front), e, key) then [e.at] else []
  }

  /** Under a fixed policy, and without a success of the key. */
  ghost predicate Guesses(events: seq<Event>, key: string, p: Policy) {
    && Ordered(events)
    && forall e :: e in events ==> (e.Fail? && e.key == key ==> e.policy == p) && !(e.Success? && e.key == key)
  }

  ghost predicate Positive(p: Policy) {
    p.maxFails >= 1 && p.lockFor > 0 && p.window > 0
  }

  /** The time that `maxFails + 1` failures ought to take: the shorter of the lock and the window. */
  function Spacing(p: Policy): int {
    Min(p.lockFor, p.window)
  }

  /** How soon the collector may forget a failure that did not lock. */
  const FORGOTTEN := DAY + 1

  /** A collector, if there is one, does not shorten `gap`: it comes too late for it, or there is never
      a failure without a lock. */
  ghost predicate Unshortened(p: Policy, gap: int, events: seq<Event>) {
    gap <= FORGOTTEN || p.maxFails == 1 || forall e :: e in events ==> !e.Collect?
  }

  /** No stored counter is negative, as in every table that failures have made. */
  predicate Proper(rows: Rows, key: string) {
    key in rows ==> rows[key].failures >= 0
  }

  /** Any `n + 1` consecutive entries span at least `gap`. */
  ghost predicate Spread(times: seq<int>, n: nat, gap: int) {
    forall i :: 0 <= i && i + n < |times| ==> times[i + n] - times[i] >= gap
  }

  ghost predicate Sorted(times: seq<int>) {
    forall i, j :: 0 <= i <= j < |times| ==> times[i] <= times[j]
  }

  ghost predicate Streak(row: LoginLimit, p: Policy, gap: int, times: seq<int>)
    requires |times| > 0
  {
    var n, f := |times|, row.failures;
    && 1 <= f
    && (f < n ==> f <= p.maxFails && times[n-f] - times[n-f-1] >= gap)
    && (f >= n ==> n <= p.maxFails)
    && row.lastFailed == Some(times[n-1])
    && row.lockedUntil == (if f >= p.maxFails then Some(times[n-1] + p.lockFor) else None)
  }

  /** How the row of `key` relates to the times counted since some table, when the clock stands at
      `now`: the latest `f` of them, or all, belong to the counter's present streak. */
  ghost predicate Explains(rows: Rows, key: string, p: Policy, gap: int, times: seq<int>, now: int) {
    var n := |times|;
    && Positive(p) && gap <= Spacing(p) && Proper(rows, key)
    && Sorted(times) && (n > 0 ==> times[n-1] <= now)
    && Spread(times, p.maxFails, gap)
    && (n > 0 && key !in rows ==> now - times[n-1] >= gap)
    && (n > 0 && key in rows ==> Streak(rows[key], p, gap, times))
  }

  lemma SpreadStep(times: seq<int>, m: nat, gap: int, at: int)
    requires Spread(times, m, gap) && m >= 1
    requires |times| >= m ==> at - times[|times| - m] >= gap
    ensures Spread(times + [at], m, gap)
  {
    var more := times + [at];
    forall i | 0 <= i && i + m < |more|
      ensures more[i + m] - more[i] >= gap
    {
      if i + m < |times| {
        assert times[i + m] - times[i] >= gap;
      } else {
        assert i == |times| - m;
      }
    }
  }

  lemma CountedFirst(rows: Rows, key: string, p: Policy, gap: int, times: seq<int>, now: int, at: int)
    requires Explains(rows, key, p, gap, times, now) && now <= at && !Limited(rows, key, at)
    requires key !in rows || Carried(rows[key], p.window, at) == 0
    ensures Explains(Register(rows, key, p, at).0, key, p, gap, times + [at], at)
  {
    var n := |times|;
    assert n > 0 ==> at - times[n-1] >= gap;
    if n >= p.maxFails {
      assert times[n-p.maxFails] <= times[n-1];
    }
    SpreadStep(times, p.maxFails, gap, at);
  }

  lemma CountedAgain(rows: Rows, key: string, p: Policy, gap: int, times: seq<int>, now: int, at: int)
    requires Explains(rows, key, p, gap, times, now) && now <= at && !Limited(rows, key, at)
    requires key in rows && Carried(rows[key], p.window, at) != 0
    ensures Explains(Register(rows, key, p, at).0, key, p, gap, times + [at], at)
  {
    var n, f := |times|, rows[key].failures;
    assert n > 0 ==> f < p.maxFails;
    if n >= p.maxFails {
      assert times[n-p.maxFails] <= times[n-f-1];
    }
    SpreadStep(times, p.maxFails, gap, at);
  }

  lemma CountedStep(rows: Rows, key: string, p: Policy, gap: int, times: seq<int>, now: int, at: int)
    requires Explains(rows, key, p, gap, times, now) && now <= at && !Limited(rows, key, at)
    ensures Explains(Register(rows, key, p, at).0, key, p, gap, times + [at], at)
  {
    if key !in rows || Carried(rows[key], p.window, at) == 0 {
      CountedFirst(rows, key, p, gap, times, now, at);
    } else {
      CountedAgain(rows, key, p, gap, times, now, at);
    }
  }

  lemma UncountedStep(rows: Rows, key: string, p: Policy, gap: int, times: seq<int>, now: int, e: Event)
    requires Explains(rows, key, p, gap, times, now) && now <= e.at && Unshortened(p, gap, [e])
    requires !(e.Success? && e.key == key) && !Counts(rows, e, key)
    ensures Explains(Take(rows, e), key, p, gap, times, e.at)
  {
    if key !in rows {
      assert key !in Take(rows, e);
    } else if e.Collect? && Expired(rows[key], e.at) {
      assert e in [e];
      assert key !in Take(rows, e);
    } else {
      assert key in Take(rows, e) && Take(rows, e)[key] == rows[key];
    }
  }

  lemma ExplainedStep(rows: Rows, key: string, p: Policy, gap: int, times: seq<int>, now: int, e: Event)
    requires Explains(rows, key, p, gap, times, now) && now <= e.at && Unshortened(p, gap, [e])
    requires (e.Fail? && e.key == key ==> e.policy == p) && !(e.Success? && e.key == key)
    ensures Explains(Take(rows, e), key, p, gap, times + (if Counts(rows, e, key) then [e.at] else []), e.at)
  {
    if Counts(rows, e, key) {
      CountedStep(rows, key, p, gap, times, now, e.at);
    } else {
      assert times + [] == times;
      UncountedStep(rows, key, p, gap, times, now, e);
    }
  }

  lemma {:induction false} RunExplained(start: Rows, events: seq<Event>, key: string, p: Policy, gap: int)
    requires Positive(p) && Guesses(events, key, p) && Proper(start, key)
    requires gap <= Spacing(p) && Unshortened(p, gap, events)
    ensures var times := CountedTimes(start, events, key);
      if events == [] then times == []
      else Explains(Run(start, events), key, p, gap, times, events[|events|-1].at)
    decreases events
  {
    if events == [] {
    } else {
      var front, e := events[..|events|-1], events[|events|-1];
      assert forall x :: x in front ==> x in events;
      assert e in events;
      RunExplained(start, front, key, p, gap);
      var rows, times := Run(start, front), CountedTimes(start, front, key);
      var now := if front == [] then e.at else front[|front|-1].at;
      assert Explains(rows, key, p, gap, times, now);
      ExplainedStep(rows, key, p, gap, times, now, e);
    }
  }

  /** From any table, any `maxFails + 1` consecutive counted failures span at least `gap`, for every gap
      up to the shorter of lock and window that the collector leaves alone. */
  lemma AttemptsSpread(start: Rows, events: seq<Event>, key: string, p: Policy, gap: int)
    requires Positive(p) && Guesses(events, key, p) && Proper(start, key)
    requires gap <= Spacing(p) && Unshortened(p, gap, events)
    ensures Sorted(CountedTimes(start, events, key)) && Spread(CountedTimes(start, events, key), p.maxFails, gap)
  {
    RunExplained(start, events, key, p, gap);
  }

  lemma WholeBlocks(n: int, m: int) returns (q: int)
    requires n >= 0 && m >= 1
    ensures q >= 0 && q * m <= n < (q + 1) * m
  {
    q := n / m;
    assert q * m + n % m == n;
    assert (q + 1) * m == q * m + m;
  }

  lemma ProductMono(a: int, b: int, m: int)
    requires a <= b && m > 0
    ensures a * m <= b * m
  {
  }

  lemma Divide(q: int, d: int, t: int)
    requires d > 0 && q * d <= t
    ensures q <= t / d
  {
    var r := q - t / d;
    assert r * d == q * d - t / d * d < d;
    if r >= 1 {
      ProductMono(1, r, d);
    }
  }

  lemma CountBlocks(n: int, m: int, d: int, t: int, q: int)
    requires m > 0 && d > 0 && q * d <= t && n < (q + 1) * m
    ensures n + 1 <= m * (t / d + 1)
  {
    Divide(q, d, t);
    ProductMono(q + 1, t / d + 1, m);
    assert m * (t / d + 1) == (t / d + 1) * m;
  }

  lemma {:induction false} BlocksSpan(times: seq<int>, m: int, d: int, i: int, q: int)
    requires m >= 1 && d > 0 && Sorted(times) && Spread(times, m, d)
    requires 0 <= i && 0 <= q && i + q * m < |times|
    ensures times[i + q * m] - times[i] >= q * d
    decreases q
  {
    if q == 0 {
    } else {
      assert (q - 1) * m == q * m - m && (q - 1) * d == q * d - d;
      BlocksSpan(times, m, d, i, q - 1);
      var k := i + (q - 1) * m;
      assert times[k + m] - times[k] >= d;
    }
  }

  lemma FewInInterval(times: seq<int>, m: int, d: int, i: int, j: int, t: int)
    requires m >= 1 && d > 0 && Sorted(times) && Spread(times, m, d)
    requires 0 <= i <= j < |times| && times[j] - times[i] <= t
    ensures j - i + 1 <= m * (t / d + 1)
  {
    var q := WholeBlocks(j - i, m);
    BlocksSpan(times, m, d, i, q);
    assert times[i + q * m] <= times[j];
    CountBlocks(j - i, m, d, t, q);
  }

  /** So an interval of length `t` holds at most `maxFails * (t / gap + 1)` of them. */
  lemma AttemptBound(start: Rows, events: seq<Event>, key: string, p: Policy, gap: int, i: int, j: int, t: int)
    requires Positive(p) && Guesses(events, key, p) && Proper(start, key)
    requires 0 < gap <= Spacing(p) && Unshortened(p, gap, events)
    requires 0 <= i <= j < |CountedTimes(start, events, key)|
    requires CountedTimes(start, events, key)[j] - CountedTimes(start, events, key)[i] <= t
    ensures j - i + 1 <= p.maxFails * (t / gap + 1)
  {
    AttemptsSpread(start, events, key, p, gap);
    FewInInterval(CountedTimes(start, events, key), p.maxFails, gap, i, j, t);
  }

  // ---- The exact condition for the shorter of lock and window ----

  /** On every run, from every table, the policy keeps `maxFails + 1` counted failures that far apart. */
  ghost predicate KeepsSpacing(p: Policy)
    requires Positive(p)
  {
    forall start, events, key :: Guesses(events, key, p) && Proper(start, key) ==>
      Spread(CountedTimes(start, events, key), p.maxFails, Spacing(p))
  }

  function Burst(p: Policy, n: nat): seq<Event>
    decreases n
  {
    if n == 0 then [Fail("k", p, 0), Collect(FORGOTTEN)] else Burst(p, n - 1) + [Fail("k", p, FORGOTTEN)]
  }

  /** The table after the collection and `n` failures at once. */
  ghost predicate AfterBurst(rows: Rows, p: Policy, n: nat) {
    && ("k" in rows <==> n > 0)
    && (n > 0 ==> rows["k"].failures == n && (rows["k"].lockedUntil.None? || n >= p.maxFails))
  }

  lemma OneMoreFailure(rows: Rows, p: Policy, n: nat)
    requires Positive(p) && n < p.maxFails && AfterBurst(rows, p, n)
    requires n > 0 ==> rows["k"].lastFailed == Some(FORGOTTEN)
    ensures var e := Fail("k", p, FORGOTTEN);
      && Counts(rows, e, "k") && AfterBurst(Take(rows, e), p, n + 1)
      && Take(rows, e)["k"].lastFailed == Some(FORGOTTEN)
  {
  }

  lemma BurstStarts(p: Policy)
    requires Positive(p) && 2 <= p.maxFails
    ensures Run(map[], Burst(p, 0)) == map[] && CountedTimes(map[], Burst(p, 0), "k") == [0]
  {
    var f, c := Fail("k", p, 0), Collect(FORGOTTEN);
    assert [f, c][..1] == [f] && [f][..0] == [];
    assert Run(map[], []) == map[] && CountedTimes(map[], [], "k") == [];
    assert Run(map[], [f]) == map["k" := LoginLimit(1, None, Some(0))];
    assert CountedTimes(map[], [f], "k") == [] + [0];
  }

  /** One failure, a collection that forgets it, and `n` more at once: all of them count. */
  lemma {:induction false} BurstCounted(p: Policy, n: nat)
    requires Positive(p) && 2 <= p.maxFails && n <= p.maxFails
    ensures var rows, times := Run(map[], Burst(p, n)), CountedTimes(map[], Burst(p, n), "k");
      && AfterBurst(rows, p, n) && (n > 0 ==> rows["k"].lastFailed == Some(FORGOTTEN))
      && |times| == n + 1 && times[0] == 0 && times[n] <= FORGOTTEN
    decreases n
  {
    if n == 0 {
      BurstStarts(p);
    } else {
      BurstCounted(p, n - 1);
      var front, e := Burst(p, n - 1), Fail("k", p, FORGOTTEN);
      assert Burst(p, n)[..|Burst(p, n)|-1] == front;
      OneMoreFailure(Run(map[], front), p, n - 1);
      assert CountedTimes(map[], Burst(p, n), "k") == CountedTimes(map[], front, "k") + [FORGOTTEN];
    }
  }

  lemma {:induction false} BurstGuesses(p: Policy, n: nat)
    ensures Guesses(Burst(p, n), "k", p) && forall e :: e in Burst(p, n) ==> e.at <= FORGOTTEN
    decreases n
  {
    if n == 0 {
    } else {
      BurstGuesses(p, n - 1);
      assert forall e :: e in Burst(p, n) <==> e in Burst(p, n - 1) || e == Fail("k", p, FORGOTTEN);
    }
  }

  /** The collector spoils the spacing exactly for policies that let a failure pass without a lock and
      whose lock and window are both longer than the collector's memory. */
  lemma SpacingExact(p: Policy)
    requires Positive(p)
    ensures KeepsSpacing(p) <==> p.maxFails == 1 || Spacing(p) <= FORGOTTEN
  {
    if p.maxFails == 1 || Spacing(p) <= FORGOTTEN {
      forall start, events, key | Guesses(events, key, p) && Proper(start, key)
        ensures Spread(CountedTimes(start, events, key), p.maxFails, Spacing(p))
      {
        AttemptsSpread(start, events, key, p, Spacing(p));
      }
    } else {
      var events := Burst(p, p.maxFails);
      BurstCounted(p, p.maxFails);
      BurstGuesses(p, p.maxFails);
      var times := CountedTimes(map[], events, "k");
      assert Proper(map[], "k");
      assert times[0 + p.maxFails] - times[0] < Spacing(p);
      assert !Spread(times, p.maxFails, Spacing(p));
    }
  }

  // ---- Locks are rarer still ----

  predicate Locks(rows: Rows, e: Event, key: string) {
    Counts(rows, e, key) && Register(rows, key, e.policy, e.at).1
  }

  /** The times at which a failure locked `key`. */
  function LockTimes(start: Rows, events: seq<Event>, key: string): seq<int>
    decreases events
  {
    if events == [] then []
    else
      var front, e := events[..|events|-1], events[|events|-1];
      LockTimes(start, front, key) + if Locks(Run(start, front), e, key) then [e.at] else []
  }

  /** While the latest lock lasts its row says so. */
  ghost predicate Latest(rows: Rows, key: string, p: Policy, locks: seq<int>, now: int) {
    var n := |locks|;
    && Sorted(locks) && Spread(locks, 1, p.lockFor)
    && (n > 0 ==> locks[n-1] <= now)
    && (n > 0 && now < locks[n-1] + p.lockFor ==> key in rows && rows[key].lockedUntil == Some(locks[n-1] + p.lockFor))
  }

  lemma LatestStep(rows: Rows, key: string, p: Policy, locks: seq<int>, now: int, e: Event)
    requires Latest(rows, key, p, locks, now) && now <= e.at && p.lockFor > 0
    requires (e.Fail? && e.key == key ==> e.policy == p) && !(e.Success? && e.key == key)
    ensures Latest(Take(rows, e), key, p, locks + (if Locks(rows, e, key) then [e.at] else []), e.at)
  {
    if Locks(rows, e, key) {
      SpreadStep(locks, 1, p.lockFor, e.at);
    } else {
      assert locks + [] == locks;
    }
  }

  /** Any two locks of a key start at least the lock's length apart. */
  lemma {:induction false} LocksSpread(start: Rows, events: seq<Event>, key: string, p: Policy)
    requires p.lockFor > 0 && Guesses(events, key, p)
    ensures var locks := LockTimes(start, events, key);
      if events == [] then locks == []
      else Latest(Run(start, events), key, p, locks, events[|events|-1].at)
    decreases events
  {
    if events == [] {
    } else {
      var front, e := events[..|events|-1], events[|events|-1];
      assert e in events && forall x :: x in front ==> x in events;
      LocksSpread(start, front, key, p);
      var now := if front == [] then e.at else front[|front|-1].at;
      assert Latest(Run(start, front), key, p, LockTimes(start, front, key), now);
      LatestStep(Run(start, front), key, p, LockTimes(start, front, key), now, e);
    }
  }

  // ---- The collector is not observable ----

  /** Everything a caller is told during a run from the empty table. */
  function Answers(events: seq<Event>): seq<bool>
    decreases events
  {
    if events == [] then []
    else Answers(events[..|events|-1]) + Answer(Run(map[], events[..|events|-1]), events[|events|-1])
  }

  /** The same run without the collector. */
  function Uncollected(events: seq<Event>): seq<Event>
    decreases events
  {
    if events == [] then []
    else Uncollected(events[..|events|-1]) + if events[|events|-1].Collect? then [] else [events[|events|-1]]
  }

  ghost predicate UsesWindow(events: seq<Event>, window: int) {
    Ordered(events) && forall e :: e in events && e.Fail? ==> e.policy.window == window
  }

  /** `a` is `b` without some rows that are expired at `now`. */
  ghost predicate Thinned(a: Rows, b: Rows, now: int) {
    && (forall key :: key in b ==> b[key].lastFailed.Some?)
    && (forall key :: key in a ==> key in b && a[key] == b[key])
    && (forall key :: key in b && key !in a ==> Expired(b[key], now))
  }

  lemma ThinnedStep(a: Rows, b: Rows, now: int, e: Event)
    requires Thinned(a, b, now) && now <= e.at
    requires e.Fail? ==> 0 < e.policy.window <= DAY
    ensures e.Collect? ==> Thinned(Take(a, e), b, e.at)
    ensures !e.Collect? ==> Thinned(Take(a, e), Take(b, e), e.at) && Answer(a, e) == Answer(b, e)
  {
    if e.Fail? {
      assert Register(a, e.key, e.policy, e.at).1 == Register(b, e.key, e.policy, e.at).1;
    }
  }

  lemma OneMore(events: seq<Event>, e: Event)
    ensures Run(map[], events + [e]) == Take(Run(map[], events), e)
    ensures Answers(events + [e]) == Answers(events) + Answer(Run(map[], events), e)
    ensures Uncollected(events + [e]) == Uncollected(events) + if e.Collect? then [] else [e]
  {
    assert (events + [e])[..|events|] == events;
  }

  lemma FrontUses(events: seq<Event>, window: int)
    requires events != [] && UsesWindow(events, window)
    ensures var front, e := events[..|events|-1], events[|events|-1];
      && UsesWindow(front, window) && (e.Fail? ==> e.policy.window == window)
      && (front != [] ==> front[|front|-1].at <= e.at)
  {
    assert events[|events|-1] in events && forall x :: x in events[..|events|-1] ==> x in events;
  }

  lemma HiddenStep(events: seq<Event>, front: seq<Event>, now: int, e: Event)
    requires events == front + [e] && now <= e.at && (e.Fail? ==> 0 < e.policy.window <= DAY)
    requires Thinned(Run(map[], front), Run(map[], Uncollected(front)), now)
    requires Answers(front) == Answers(Uncollected(front))
    ensures Answers(events) == Answers(Uncollected(events))
    ensures Thinned(Run(map[], events), Run(map[], Uncollected(events)), e.at)
  {
    OneMore(front, e);
    ThinnedStep(Run(map[], front), Run(map[], Uncollected(front)), now, e);
    if e.Collect? {
      assert Uncollected(front) + [] == Uncollected(front);
      assert Answers(front) + [] == Answers(front);
    } else {
      OneMore(Uncollected(front), e);
    }
  }

  lemma {:induction false} CollectorHidden(events: seq<Event>, window: int)
    requires UsesWindow(events, window) && 0 < window <= DAY
    ensures Answers(events) == Answers(Uncollected(events))
    ensures Thinned(Run(map[], events), Run(map[], Uncollected(events)),
                    if events == [] then 0 else events[|events|-1].at)
    decreases events
  {
    if events == [] {
    } else {
      var front, e := events[..|events|-1], events[|events|-1];
      FrontUses(events, window);
      CollectorHidden(front, window);
      HiddenStep(events, front, if front == [] then e.at else front[|front|-1].at, e);
    }
  }

  ghost predicate CollectorUnobservable(window: int) {
    forall events :: UsesWindow(events, window) ==> Answers(events) == Answers(Uncollected(events))
  }

  function ForgottenFailure(window: int): seq<Event> {
    var p := Policy(2, 1, window);
    [Fail("k", p, 0), Collect(DAY + 1), Fail("k", p, DAY + 1)]
  }

  lemma RememberedFailure(window: int)
    requires !(0 < window <= DAY)
    ensures Register(map["k" := LoginLimit(1, None, Some(0))], "k", Policy(2, 1, window), DAY + 1).1
  {
  }

  /** A failure that the window still remembers, or would for ever, is forgotten by the collector. */
  lemma CollectorSeen(window: int)
    requires !(0 < window <= DAY)
    ensures UsesWindow(ForgottenFailure(window), window)
    ensures Answers(ForgottenFailure(window)) == [false, false]
    ensures Answers(Uncollected(ForgottenFailure(window))) == [false, true]
  {
    var p := Policy(2, 1, window);
    var f0, c, f1 := Fail("k", p, 0), Collect(DAY + 1), Fail("k", p, DAY + 1);
    var once := map["k" := LoginLimit(1, None, Some(0))];
    assert [f0][..0] == [] && [f0, c][..1] == [f0] && [f0, f1][..1] == [f0] && [f0, c, f1][..2] == [f0, c];
    assert Run(map[], [f0]) == once && Answers([f0]) == [false];
    assert Run(map[], [f0, c]) == Sweep(once, DAY + 1) == map[];
    assert Answers([f0, c]) == [false];
    assert Answers([f0, c, f1]) == [false] + [false];
    assert Uncollected([f0]) == [f0];
    assert Uncollected([f0, c]) == [f0];
    assert Uncollected([f0, c, f1]) == [f0] + [f1];
    assert [f0] + [f1] == [f0, f1];
    RememberedFailure(window);
    assert Answers([f0, f1]) == [false] + [true];
  }

  /** The collector never shows exactly when the window is positive and at most a day. */
  lemma CollectorExact(window: int)
    ensures CollectorUnobservable(window) <==> 0 < window <= DAY
  {
    if 0 < window <= DAY {
      forall events | UsesWindow(events, window)
        ensures Answers(events) == Answers(Uncollected(events))
      {
        CollectorHidden(events, window);
      }
    } else {
      CollectorSeen(window);
    }
  }
}
