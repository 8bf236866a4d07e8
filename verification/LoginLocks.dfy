/**
  When a failure locks, told from the history: it closes a chain of failures each of which followed the
  one before it closely enough. The limiter locks no later than that, and no earlier.
 */
module LoginLocks {
  import opened Basics
  import opened LoginLimits

  // ---- Chains of failures ----

  ghost function Before(events: seq<Event>, j: int): Rows
    requires 0 <= j <= |events|
  {
    Run(map[], events[..j])
  }

  /** Event `j` is a failure of the key that is counted, because the key is not refused then. */
  ghost predicate CountedAt(events: seq<Event>, key: string, j: int) {
    && 0 <= j < |events| && events[j].Fail? && events[j].key == key
    && !Limited(Before(events, j), key, events[j].at)
  }

  /** And its answer is that the key is locked now. */
  ghost predicate LocksAt(events: seq<Event>, key: string, j: int) {
    CountedAt(events, key, j) && Register(Before(events, j), key, events[j].policy, events[j].at).1
  }

  ghost predicate CollectedAt(events: seq<Event>, key: string, j: int) {
    0 <= j < |events| && events[j].Collect? && key in Before(events, j) && key !in Before(events, j + 1)
  }

  /** The last counted failure before event `n`, or -1. */
  ghost function LastCounted(events: seq<Event>, key: string, n: nat): (i: int)
    requires n <= |events|
    ensures -1 <= i < n && (i >= 0 ==> CountedAt(events, key, i))
    ensures forall x :: i < x < n ==> !CountedAt(events, key, x)
    decreases n
  {
    if n == 0 then -1 else if CountedAt(events, key, n - 1) then n - 1 else LastCounted(events, key, n - 1)
  }

  /** Between the two events the key was neither cleared by a success nor collected. */
  ghost predicate Undisturbed(events: seq<Event>, key: string, i: int, j: int)
    requires j <= |events|
  {
    forall x :: 0 <= i < x < j ==> !(events[x].Success? && events[x].key == key) && !CollectedAt(events, key, x)
  }

  predicate Pause(a: Event, b: Event)
    requires b.Fail?
  {
    b.policy.window > 0 && b.at - a.at > b.policy.window
  }

  /** The counted failure `j` follows on the one at `i`: that one did not lock, nothing came between, and the
      pause was not longer than the window. */
  ghost predicate Follows(events: seq<Event>, key: string, i: int, j: int) {
    && CountedAt(events, key, i) && CountedAt(events, key, j) && !LocksAt(events, key, i)
    && Undisturbed(events, key, i, j) && !Pause(events[i], events[j])
  }

  /** How many counted failures, each following on the last counted one before it, end with event `j`. */
  ghost function Chain(events: seq<Event>, key: string, j: int): nat
    requires CountedAt(events, key, j)
    decreases j
  {
    var i := LastCounted(events, key, j);
    if i >= 0 && Follows(events, key, i, j) then Chain(events, key, i) + 1 else 1
  }

  // ---- What a row remembers ----

  /** The row of the last counted failure. */
  ghost predicate RowOf(row: LoginLimit, events: seq<Event>, key: string, i: int) {
    && CountedAt(events, key, i)
    && row.failures == Chain(events, key, i) && row.lastFailed == Some(events[i].at)
    && row.lockedUntil == (if LocksAt(events, key, i) then Some(events[i].at + events[i].policy.lockFor) else None)
  }

  ghost predicate Told(events: seq<Event>, key: string, n: nat)
    requires n <= |events|
  {
    var rows, i := Before(events, n), LastCounted(events, key, n);
    if key in rows then i >= 0 && Undisturbed(events, key, i, n) && RowOf(rows[key], events, key, i)
    else i == -1 || !Undisturbed(events, key, i, n)
  }

  lemma OneMoreEvent(events: seq<Event>, n: nat)
    requires 1 <= n <= |events|
    ensures Before(events, n) == Take(Before(events, n - 1), events[n-1])
  {
    assert events[..n][..n-1] == events[..n-1];
  }

  lemma CarriedIsChain(events: seq<Event>, key: string, j: int)
    requires CountedAt(events, key, j) && Told(events, key, j)
    ensures Count(Before(events, j), key, events[j].policy, events[j].at) == Chain(events, key, j)
  {
    var rows, i := Before(events, j), LastCounted(events, key, j);
    if key in rows {
      assert Follows(events, key, i, j) <==> !LocksAt(events, key, i) && !Pause(events[i], events[j]);
    }
  }

  lemma ToldCounted(events: seq<Event>, key: string, j: int)
    requires CountedAt(events, key, j) && Told(events, key, j)
    ensures Told(events, key, j + 1)
  {
    OneMoreEvent(events, j + 1);
    CarriedIsChain(events, key, j);
  }

  lemma ToldOther(events: seq<Event>, key: string, j: nat)
    requires j < |events| && !CountedAt(events, key, j) && Told(events, key, j)
    ensures Told(events, key, j + 1)
  {
    OneMoreEvent(events, j + 1);
    var i := LastCounted(events, key, j);
    if i >= 0 {
      assert Undisturbed(events, key, i, j + 1) <==>
        && Undisturbed(events, key, i, j)
        && !(events[j].Success? && events[j].key == key)
        && !CollectedAt(events, key, j);
    }
  }

  lemma {:induction false} RowsTold(events: seq<Event>, key: string, n: nat)
    requires n <= |events|
    ensures Told(events, key, n)
    decreases n
  {
    if n == 0 {
    } else {
      RowsTold(events, key, n - 1);
      if CountedAt(events, key, n - 1) {
        ToldCounted(events, key, n - 1);
      } else {
        ToldOther(events, key, n - 1);
      }
    }
  }

  /** A counted failure locks its key if and only if it closes a chain of at least as many failures as the
      limit says, or one at least; and then it locks for as long as its policy says. */
  lemma LockExact(events: seq<Event>, key: string, j: int)
    requires CountedAt(events, key, j)
    ensures var p, at := events[j].policy, events[j].at;
      && (LocksAt(events, key, j) <==> Chain(events, key, j) >= (if p.maxFails < 1 then 1 else p.maxFails))
      && key in Before(events, j + 1) && Before(events, j + 1)[key] ==
        LoginLimit(Chain(events, key, j), if LocksAt(events, key, j) then Some(at + p.lockFor) else None, Some(at))
  {
    RowsTold(events, key, j);
    RowsTold(events, key, j + 1);
    CarriedIsChain(events, key, j);
  }

  // ---- Two ends of it ----

  /** The failures of the key allow for at least one more, and are further apart than their windows. */
  ghost predicate FarApart(events: seq<Event>, key: string) {
    && (forall j :: 0 <= j < |events| && events[j].Fail? && events[j].key == key ==>
      events[j].policy.maxFails >= 2 && events[j].policy.window > 0)
    && (forall i, j ::
      0 <= i < j < |events| && events[i].Fail? && events[j].Fail? && events[i].key == events[j].key == key ==>
        events[j].at - events[i].at > events[j].policy.window)
  }

  lemma AloneInChain(events: seq<Event>, key: string, j: int)
    requires FarApart(events, key) && CountedAt(events, key, j)
    ensures !LocksAt(events, key, j)
  {
    LockExact(events, key, j);
    var i := LastCounted(events, key, j);
    if i >= 0 {
      assert Pause(events[i], events[j]);
    }
  }

  /** Failures that are further apart than the window never lock, however many there are. */
  lemma FarApartNeverLock(events: seq<Event>, key: string, now: int)
    requires FarApart(events, key)
    ensures !Limited(Run(map[], events), key, now)
  {
    RowsTold(events, key, |events|);
    assert events[..|events|] == events;
    var i := LastCounted(events, key, |events|);
    if i >= 0 {
      AloneInChain(events, key, i);
    }
  }

  /** Nothing but failures of the key under one policy, each within the window after the one before. */
  ghost predicate Volley(events: seq<Event>, key: string, p: Policy) {
    && (forall j :: 0 <= j < |events| ==> events[j].Fail? && events[j].key == key && events[j].policy == p)
    && (forall j :: 0 < j < |events| ==> 0 <= events[j].at - events[j-1].at <= p.window)
  }

  lemma {:induction false} VolleyChain(events: seq<Event>, key: string, p: Policy, j: int)
    requires Volley(events, key, p) && p.window > 0 && 0 <= j < |events| <= p.maxFails
    ensures CountedAt(events, key, j) && Chain(events, key, j) == j + 1
    decreases j
  {
    RowsTold(events, key, j);
    if j == 0 {
    } else {
      VolleyChain(events, key, p, j - 1);
      LockExact(events, key, j - 1);
      assert LastCounted(events, key, j) == j - 1;
      assert Follows(events, key, j - 1, j);
    }
  }

  lemma VolleyLock(events: seq<Event>, key: string, p: Policy, j: int)
    requires Volley(events, key, p) && p.window > 0 && 0 <= j < |events| == p.maxFails
    ensures CountedAt(events, key, j) && (LocksAt(events, key, j) <==> j == |events| - 1)
  {
    VolleyChain(events, key, p, j);
    LockExact(events, key, j);
  }

  lemma RefusedThrough(events: seq<Event>, key: string, now: int)
    requires events != [] && LocksAt(events, key, |events| - 1)
    ensures Limited(Run(map[], events), key, now) <==> now < events[|events|-1].at + events[|events|-1].policy.lockFor
  {
    LockExact(events, key, |events| - 1);
    assert events[..|events|] == events;
  }

  /** The last of as many failures as the limit says locks a fresh key, none before it does, and the key is
      refused exactly until the lock's length after it. */
  lemma VolleyLocks(events: seq<Event>, key: string, p: Policy, now: int)
    requires Volley(events, key, p) && p.window > 0 && |events| == p.maxFails >= 1
    ensures forall j :: 0 <= j < |events| ==> (LocksAt(events, key, j) <==> j == |events| - 1)
    ensures Limited(Run(map[], events), key, now) <==> now < events[|events|-1].at + p.lockFor
  {
    forall j | 0 <= j < |events|
      ensures LocksAt(events, key, j) <==> j == |events| - 1
    {
      VolleyLock(events, key, p, j);
    }
    RefusedThrough(events, key, now);
  }
}
