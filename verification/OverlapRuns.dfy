/**
  Runs of overlapping logins from an empty desk: two requests at a time already let one more guess
  through than logins one after another do, on an account as on an address, and a request in flight can
  lift a lock.
 */
module OverlapRuns {
  import opened Basics
  import L = LoginLimits
  import A = Auth
  import G = GuessBounds
  import N = NameBounds
  import opened ConcurrentLogins

  // ---- Building a run move by move ----

  /** A desk at which the same guess arrives again and again, watched at a key that it concerns, with at
      most `c` requests open at once. */
  datatype Scene = Scene(start: Desk, check: A.PasswordCheck, guess: A.Request, key: string, p: L.Policy, c: nat)

  /** A run of moves at time 0 that has come to `u`, with `n` guesses compared, and nothing recorded on the
      key but failures under its policy. */
  ghost predicate Built(sc: Scene, moves: seq<Move>, u: Desk, n: nat) {
    && Run(sc.start, sc.check, moves) == u && Compared(sc.start, sc.check, moves, sc.key) == n
    && AtMost(sc.start, sc.check, moves, sc.key, sc.c)
    && (forall m :: m in moves ==> m.at == 0 && !m.Collect? && (m.Enter? ==> m.request == sc.guess))
    && (forall e :: e in Events(sc.start, sc.check, moves) ==> e.at == 0 && G.Fits(e, sc.key, sc.p))
  }

  lemma FewFlights(d: Desk, key: string)
    ensures |InFlight(d, key)| <= |d.flights|
  {
    Fewer(InFlight(d, key), d.flights.Keys);
    assert |d.flights| == |d.flights.Keys|;
  }

  lemma BuildStart(sc: Scene)
    requires |sc.start.flights| <= sc.c
    ensures Built(sc, [], sc.start, 0)
  {
    FewFlights(sc.start, sc.key);
  }

  lemma BuildMove(sc: Scene, moves: seq<Move>, u: Desk, n: nat, m: Move)
    requires Built(sc, moves, u, n) && m.at == 0 && !m.Collect? && (m.Enter? ==> m.request == sc.guess)
    requires |Take(u, sc.check, m).flights| <= sc.c
    requires forall e :: e in EventsOf(u, m) ==> e.at == 0 && G.Fits(e, sc.key, sc.p)
    ensures Built(sc, moves + [m], Take(u, sc.check, m), n + if Compares(u, sc.check, m, sc.key) then 1 else 0)
  {
    var more := moves + [m];
    assert more[..|more|-1] == moves;
    FewFlights(Take(u, sc.check, m), sc.key);
    forall i | 0 <= i <= |more|
      ensures |InFlight(Run(sc.start, sc.check, more[..i]), sc.key)| <= sc.c
    {
      if i <= |moves| {
        assert more[..i] == moves[..i];
      } else {
        assert more[..i] == more;
      }
    }
  }

  // ---- Guesses at a name that nobody has ----

  /** What `i` failures at time 0 have left of a key. */
  ghost predicate FailedOnly(limits: L.Rows, key: string, i: nat) {
    if i == 0 then key !in limits else key in limits && limits[key] == L.LoginLimit(i, None, Some(0))
  }

  /** No request at the desk, no users, and `i` failures of the guess's account, and of its address if that
      is looked up. */
  ghost predicate Idle(d: Desk, q: A.Request, i: nat) {
    && d.flights == map[] && d.auth.users == map[]
    && FailedOnly(d.auth.limits, A.AccountKey(q.username), i)
    && (A.Skipped(A.IpKey(q.clientKey)) || FailedOnly(d.auth.limits, A.IpKey(q.clientKey), i))
  }

  /** `i` more failures lock neither the account nor the address. */
  predicate Patient(q: A.Request, i: nat) {
    i < A.AccountPolicy(q).maxFails && i < A.IpPolicy(q).maxFails
    && A.AccountPolicy(q).window > 0 && A.IpPolicy(q).window > 0
  }

  /** A request from its arrival to the comparison. */
  lemma Arrives(d: Desk, check: A.PasswordCheck, id: int, q: A.Request)
    requires id !in d.flights && !A.RefusedRequest(d.auth, q, 0)
    ensures Take(d, check, Enter(id, q, 0)) == d.(flights := d.flights[id := Flight(q, AccountAsked)])
    ensures var d1 := d.(flights := d.flights[id := Flight(q, AccountAsked)]);
      Take(d1, check, Go(id, 0)) == d.(flights := d.flights[id := Flight(q, Asked)])
  {
    assert d.flights[id := Flight(q, AccountAsked)][id := Flight(q, Asked)] == d.flights[id := Flight(q, Asked)];
  }

  lemma ComparedWrong(d: Desk, check: A.PasswordCheck, id: int, q: A.Request, key: string)
    requires id in d.flights && d.flights[id] == Flight(q, Asked) && q.username !in d.auth.users
    ensures Take(d, check, Go(id, 0)) == d.(flights := d.flights[id := Flight(q, Mismatch)])
    ensures EventsOf(d, Go(id, 0)) == []
    ensures A.Concerns(q, key) ==> Compares(d, check, Go(id, 0), key)
  {
  }

  /** The guess arrives and has both keys asked. */
  lemma BuildArrival(sc: Scene, moves: seq<Move>, u: Desk, n: nat, id: int) returns (more: seq<Move>, v: Desk)
    requires Built(sc, moves, u, n) && id !in u.flights && |u.flights| < sc.c
    requires !A.RefusedRequest(u.auth, sc.guess, 0)
    ensures v == u.(flights := u.flights[id := Flight(sc.guess, Asked)]) && Built(sc, more, v, n)
  {
    Arrives(u, sc.check, id, sc.guess);
    var d1 := u.(flights := u.flights[id := Flight(sc.guess, AccountAsked)]);
    v := u.(flights := u.flights[id := Flight(sc.guess, Asked)]);
    BuildMove(sc, moves, u, n, Enter(id, sc.guess, 0));
    BuildMove(sc, moves + [Enter(id, sc.guess, 0)], d1, n, Go(id, 0));
    more := moves + [Enter(id, sc.guess, 0)] + [Go(id, 0)];
  }

  /** Its password is compared and found wrong. */
  lemma BuildCompare(sc: Scene, moves: seq<Move>, u: Desk, n: nat, id: int) returns (more: seq<Move>, v: Desk)
    requires Built(sc, moves, u, n) && id in u.flights && u.flights[id] == Flight(sc.guess, Asked)
    requires sc.guess.username !in u.auth.users && |u.flights| <= sc.c && A.Concerns(sc.guess, sc.key)
    ensures v == u.(flights := u.flights[id := Flight(sc.guess, Mismatch)]) && Built(sc, more, v, n + 1)
  {
    ComparedWrong(u, sc.check, id, sc.guess, sc.key);
    v := u.(flights := u.flights[id := Flight(sc.guess, Mismatch)]);
    BuildMove(sc, moves, u, n, Go(id, 0));
    more := moves + [Go(id, 0)];
  }

  lemma Recorded(a: A.AuthState, check: A.PasswordCheck, d3: Desk, d4: Desk, v: Desk, q: A.Request, key: string)
    requires d3 == Desk(a, map[0 := Flight(q, Mismatch)])
    requires d4 == Desk(a.(limits := L.Register(a.limits, A.AccountKey(q.username), A.AccountPolicy(q), 0).0),
                        map[0 := Flight(q, AccountCounted)])
    requires v == Desk(a.(limits := A.RegisterBoth(a.limits, q, 0)), map[])
    ensures Take(d3, check, Go(0, 0)) == d4 && Take(d4, check, Go(0, 0)) == v
    ensures EventsOf(d3, Go(0, 0)) == [L.Fail(A.AccountKey(q.username), A.AccountPolicy(q), 0)]
    ensures forall e :: e in EventsOf(d4, Go(0, 0)) ==> e == L.Fail(A.IpKey(q.clientKey), A.IpPolicy(q), 0)
    ensures !Compares(d3, check, Go(0, 0), key) && !Compares(d4, check, Go(0, 0), key)
  {
    assert d4.flights - {0} == map[];
  }

  lemma OneMoreFailed(limits: L.Rows, q: A.Request, i: nat)
    requires A.AccountKey(q.username) != A.IpKey(q.clientKey) && Patient(q, i + 1)
    requires FailedOnly(limits, A.AccountKey(q.username), i)
    requires A.Skipped(A.IpKey(q.clientKey)) || FailedOnly(limits, A.IpKey(q.clientKey), i)
    ensures var rows := A.RegisterBoth(limits, q, 0);
      && FailedOnly(rows, A.AccountKey(q.username), i + 1)
      && (A.Skipped(A.IpKey(q.clientKey)) || FailedOnly(rows, A.IpKey(q.clientKey), i + 1))
  {
  }

  /** The scene watches a key of the guess, under the policy that the guess has there. */
  predicate Watches(sc: Scene) {
    A.Concerns(sc.guess, sc.key) && G.PolicyFor(sc.guess, sc.key) == sc.p
  }

  /** A lone guess, from arrival to answer, adds one failure. */
  lemma LoneGuess(sc: Scene, moves: seq<Move>, u: Desk, n: nat, i: nat) returns (more: seq<Move>, v: Desk)
    requires Built(sc, moves, u, n) && Idle(u, sc.guess, i) && sc.c >= 1 && Watches(sc) && Patient(sc.guess, i + 1)
    ensures Built(sc, more, v, n + 1) && Idle(v, sc.guess, i + 1)
  {
    var q := sc.guess;
    A.KindsDiffer(q.username, q.clientKey);
    var d2, d3;
    more, d2 := BuildArrival(sc, moves, u, n, 0);
    more, d3 := BuildCompare(sc, more, d2, n, 0);
    assert d3.flights == map[0 := Flight(q, Mismatch)];
    var counted := L.Register(u.auth.limits, A.AccountKey(q.username), A.AccountPolicy(q), 0).0;
    var d4 := Desk(u.auth.(limits := counted), map[0 := Flight(q, AccountCounted)]);
    v := Desk(u.auth.(limits := A.RegisterBoth(u.auth.limits, q, 0)), map[]);
    Recorded(u.auth, sc.check, d3, d4, v, q, sc.key);
    BuildMove(sc, more, d3, n + 1, Go(0, 0));
    BuildMove(sc, more + [Go(0, 0)], d4, n + 1, Go(0, 0));
    more := more + [Go(0, 0)] + [Go(0, 0)];
    OneMoreFailed(u.auth.limits, q, i);
  }

  lemma {:induction false} LoneGuesses(sc: Scene, n: nat) returns (moves: seq<Move>, u: Desk)
    requires Idle(sc.start, sc.guess, 0) && sc.c >= 1 && Watches(sc) && Patient(sc.guess, n)
    ensures Built(sc, moves, u, n) && Idle(u, sc.guess, n)
    decreases n
  {
    if n == 0 {
      BuildStart(sc);
      moves, u := [], sc.start;
    } else {
      moves, u := LoneGuesses(sc, n - 1);
      moves, u := LoneGuess(sc, moves, u, n - 1, n - 1);
    }
  }

  /** Two requests arrive, ask and are compared, before either is recorded. */
  lemma TwoAtOnce(sc: Scene, moves: seq<Move>, u: Desk, n: nat, i: nat) returns (more: seq<Move>, v: Desk)
    requires Built(sc, moves, u, n) && Idle(u, sc.guess, i) && sc.c == 2 && Watches(sc)
    ensures Built(sc, more, v, n + 2)
  {
    var d1, d2, d3;
    more, d1 := BuildArrival(sc, moves, u, n, 1);
    more, d2 := BuildArrival(sc, more, d1, n, 2);
    more, d3 := BuildCompare(sc, more, d2, n, 1);
    more, v := BuildCompare(sc, more, d3, n + 1, 2);
  }

  // ---- The exact condition ----

  /** A run from an empty desk, with at most `c` requests for the key open at once, that no success on the
      key interrupts. */
  ghost predicate Overlaps(d: Desk, check: A.PasswordCheck, moves: seq<Move>, key: string, p: L.Policy, gap: int,
                           c: nat, t: int) {
    && d.flights == map[] && !A.Skipped(key) && L.Proper(d.auth.limits, key)
    && OrderedMoves(moves) && L.Guesses(Events(d, check, moves), key, p)
    && AtMost(d, check, moves, key, c) && Within(moves, t) && Unshortened(p, gap, moves)
  }

  /** On all such runs no more guesses on the key are compared than one login after another may compare. */
  ghost predicate OverlapKept(key: string, p: L.Policy, gap: int, c: nat)
    requires gap > 0
  {
    forall d, check, moves, t :: Overlaps(d, check, moves, key, p, gap, c, t) ==>
      Compared(d, check, moves, key) <= p.maxFails * (t / gap + 1)
  }

  lemma OneAtATime(d: Desk, check: A.PasswordCheck, moves: seq<Move>, key: string, p: L.Policy, gap: int,
                   c: nat, t: int)
    requires Overlaps(d, check, moves, key, p, gap, c, t) && c <= 1 && L.Positive(p) && 0 < gap <= L.Spacing(p)
    ensures Compared(d, check, moves, key) <= p.maxFails * (t / gap + 1)
  {
    assert AtMost(d, check, moves, key, 0 + 1);
    ComparedBound(d, check, moves, key, p, gap, 0, t);
    assert InFlight(d, key) == {};
  }

  lemma BuiltOverlaps(sc: Scene, moves: seq<Move>, gap: int, c: nat, v: Desk, n: nat)
    requires Built(sc, moves, v, n) && sc.c <= c && !A.Skipped(sc.key)
    requires sc.start.flights == map[] && sc.key !in sc.start.auth.limits
    ensures Overlaps(sc.start, sc.check, moves, sc.key, sc.p, gap, c, 0)
  {
    var events := Events(sc.start, sc.check, moves);
    forall i, j | 0 <= i <= j < |events|
      ensures events[i].at <= events[j].at
    {
      assert events[i] in events && events[j] in events;
    }
    forall i, j | 0 <= i <= j < |moves|
      ensures moves[i].at <= moves[j].at
    {
      assert moves[i] in moves && moves[j] in moves;
    }
  }

  /** With two requests at a time, one guess too many. */
  lemma OneTooMany(sc: Scene) returns (moves: seq<Move>, v: Desk)
    requires Idle(sc.start, sc.guess, 0) && sc.c == 2 && Watches(sc) && L.Positive(sc.p)
    requires Patient(sc.guess, sc.p.maxFails - 1)
    ensures Built(sc, moves, v, sc.p.maxFails + 1)
  {
    var u;
    moves, u := LoneGuesses(sc, sc.p.maxFails - 1);
    moves, v := TwoAtOnce(sc, moves, u, sc.p.maxFails - 1, sc.p.maxFails - 1);
  }

  /** A run of one and the same guess, from one address, that compares too many of them. */
  lemma TwoBreakBound(q: A.Request, key: string, p: L.Policy, gap: int, c: nat)
    returns (d: Desk, check: A.PasswordCheck, moves: seq<Move>)
    requires A.Concerns(q, key) && G.PolicyFor(q, key) == p && L.Positive(p) && Patient(q, p.maxFails - 1)
    requires gap > 0 && c >= 2 && !A.Skipped(key)
    ensures Overlaps(d, check, moves, key, p, gap, c, 0) && forall m :: m in moves && m.Enter? ==> m.request == q
    ensures Compared(d, check, moves, key) > p.maxFails * (0 / gap + 1)
  {
    d := Desk(A.AuthState(map[], map[], map[]), map[]);
    check := (hash, password) => false;
    var sc := Scene(d, check, q, key, p, 2);
    var v;
    moves, v := OneTooMany(sc);
    BuiltOverlaps(sc, moves, gap, c, v, p.maxFails + 1);
    assert 0 / gap == 0;
  }

  /** On an account or an address that is looked up, no more guesses are compared than by logins one after
      another, on all runs from an empty desk with at most `c` requests for it open at once, exactly when
      `c` is at most 1. */
  lemma OverlapExact(name: string, address: string, key: string, maxFails: int, lockMinutes: int,
                     windowMinutes: int, gap: int, c: nat)
    requires maxFails >= 1 && lockMinutes >= 1 && windowMinutes >= 1
    requires (key == A.AccountKey(name) || key == A.IpKey(address)) && !A.Skipped(key)
    requires 0 < gap <= L.Spacing(N.PolicyOf(maxFails, lockMinutes, windowMinutes))
    ensures OverlapKept(key, N.PolicyOf(maxFails, lockMinutes, windowMinutes), gap, c) <==> c <= 1
  {
    var p := N.PolicyOf(maxFails, lockMinutes, windowMinutes);
    if c <= 1 {
      forall d, check, moves, t | Overlaps(d, check, moves, key, p, gap, c, t)
        ensures Compared(d, check, moves, key) <= p.maxFails * (t / gap + 1)
      {
        OneAtATime(d, check, moves, key, p, gap, c, t);
      }
    } else {
      var q := N.From(address, name, "", maxFails, maxFails, lockMinutes, windowMinutes);
      var d, check, moves := TwoBreakBound(q, key, p, gap, c);
    }
  }

  // ---- A lock that is lifted ----

  lemma RunMove(d: Desk, check: A.PasswordCheck, moves: seq<Move>, m: Move)
    ensures Run(d, check, moves + [m]) == Take(Run(d, check, moves), check, m)
  {
    assert (moves + [m])[..|moves|] == moves;
  }

  /** A request goes through the account's check and the address's. */
  lemma RunArrival(d: Desk, check: A.PasswordCheck, moves: seq<Move>, u: Desk, id: int, q: A.Request)
    requires Run(d, check, moves) == u && id !in u.flights && !A.RefusedRequest(u.auth, q, 0)
    ensures Run(d, check, moves + [Enter(id, q, 0)] + [Go(id, 0)]) == u.(flights := u.flights[id := Flight(q, Asked)])
  {
    Arrives(u, check, id, q);
    RunMove(d, check, moves, Enter(id, q, 0));
    RunMove(d, check, moves + [Enter(id, q, 0)], Go(id, 0));
  }

  lemma RunThree(d: Desk, check: A.PasswordCheck, moves: seq<Move>, u: Desk, id: int)
    requires Run(d, check, moves) == u
    ensures Run(d, check, moves + [Go(id, 0)] + [Go(id, 0)] + [Go(id, 0)]) ==
            Take(Take(Take(u, check, Go(id, 0)), check, Go(id, 0)), check, Go(id, 0))
  {
    RunMove(d, check, moves, Go(id, 0));
    RunMove(d, check, moves + [Go(id, 0)], Go(id, 0));
    RunMove(d, check, moves + [Go(id, 0)] + [Go(id, 0)], Go(id, 0));
  }

  /** The wrong request of two that have been asked for is compared and recorded on both keys. */
  lemma LocksFirst(both: Desk, check: A.PasswordCheck, right: A.Request, wrong: A.Request) returns (locked: Desk)
    requires both.flights == map[1 := Flight(right, Asked), 2 := Flight(wrong, Asked)]
    requires both.auth.limits == map[] && !A.ValidCreds(both.auth, wrong, check)
    requires A.AccountKey(wrong.username) != A.IpKey(wrong.clientKey)
    requires A.AccountPolicy(wrong).maxFails == 1 && A.IpPolicy(wrong).maxFails == 1
    requires A.AccountPolicy(wrong).lockFor > 0
    ensures locked == Take(Take(Take(both, check, Go(2, 0)), check, Go(2, 0)), check, Go(2, 0))
    ensures locked.flights == map[1 := Flight(right, Asked)] && locked.auth.users == both.auth.users
    ensures L.Limited(locked.auth.limits, A.AccountKey(wrong.username), 0)
    ensures A.Skipped(A.IpKey(wrong.clientKey)) || L.Limited(locked.auth.limits, A.IpKey(wrong.clientKey), 0)
    ensures locked.auth.limits.Keys <= {A.AccountKey(wrong.username), A.IpKey(wrong.clientKey)}
    ensures A.Skipped(A.IpKey(wrong.clientKey)) ==> A.IpKey(wrong.clientKey) !in locked.auth.limits
  {
    var d1 := Take(both, check, Go(2, 0));
    assert d1.flights == map[1 := Flight(right, Asked), 2 := Flight(wrong, Mismatch)];
    var d2 := Take(d1, check, Go(2, 0));
    assert d2.flights == map[1 := Flight(right, Asked), 2 := Flight(wrong, AccountCounted)];
    locked := Take(d2, check, Go(2, 0));
    assert locked.flights == map[1 := Flight(right, Asked)];
  }

  /** Then the right one is compared and clears both. */
  lemma LiftsThen(locked: Desk, check: A.PasswordCheck, right: A.Request) returns (lifted: Desk)
    requires locked.flights == map[1 := Flight(right, Asked)] && A.ValidCreds(locked.auth, right, check)
    requires locked.auth.limits.Keys <= {A.AccountKey(right.username), A.IpKey(right.clientKey)}
    requires A.Skipped(A.IpKey(right.clientKey)) ==> A.IpKey(right.clientKey) !in locked.auth.limits
    ensures lifted == Take(Take(Take(locked, check, Go(1, 0)), check, Go(1, 0)), check, Go(1, 0))
    ensures lifted.auth.limits == map[]
  {
    var u := locked.auth.users[right.username];
    var d1 := Take(locked, check, Go(1, 0));
    assert d1.flights == map[1 := Flight(right, Match(u))];
    var d2 := Take(d1, check, Go(1, 0));
    assert d2.flights == map[1 := Flight(right, AccountCleared(u))];
    lifted := Take(d2, check, Go(1, 0));
  }

  lemma BothAsked(d: Desk, check: A.PasswordCheck, right: A.Request, wrong: A.Request) returns (moves: seq<Move>)
    requires d.flights == map[] && d.auth.limits == map[]
    ensures Run(d, check, moves) == d.(flights := map[1 := Flight(right, Asked), 2 := Flight(wrong, Asked)])
    ensures forall m :: m in moves ==> m.at == 0 && (m.Enter? ==> m.request == right || m.request == wrong)
  {
    var one := [] + [Enter(1, right, 0)] + [Go(1, 0)];
    RunArrival(d, check, [], d, 1, right);
    var first := d.(flights := map[1 := Flight(right, Asked)]);
    RunArrival(d, check, one, first, 2, wrong);
    moves := one + [Enter(2, wrong, 0)] + [Go(2, 0)];
    assert first.flights[2 := Flight(wrong, Asked)] == map[1 := Flight(right, Asked), 2 := Flight(wrong, Asked)];
  }

  lemma LockThenLift(d: Desk, check: A.PasswordCheck, right: A.Request, wrong: A.Request)
    returns (locked: seq<Move>, lifted: seq<Move>)
    requires d.flights == map[] && d.auth.limits == map[]
    requires right.username == wrong.username && right.clientKey == wrong.clientKey
    requires A.ValidCreds(d.auth, right, check) && !A.ValidCreds(d.auth, wrong, check)
    requires A.AccountPolicy(wrong).maxFails == 1 && A.IpPolicy(wrong).maxFails == 1
    requires A.AccountPolicy(wrong).lockFor > 0
    ensures locked <= lifted && (forall m :: m in lifted ==> m.at == 0)
    ensures forall m :: m in lifted && m.Enter? ==> m.request == right || m.request == wrong
    ensures L.Limited(Run(d, check, locked).auth.limits, A.AccountKey(wrong.username), 0)
    ensures A.Skipped(A.IpKey(wrong.clientKey)) ||
      L.Limited(Run(d, check, locked).auth.limits, A.IpKey(wrong.clientKey), 0)
    ensures Run(d, check, lifted).auth.limits == map[]
  {
    A.KindsDiffer(wrong.username, wrong.clientKey);
    var both := d.(flights := map[1 := Flight(right, Asked), 2 := Flight(wrong, Asked)]);
    var two := BothAsked(d, check, right, wrong);
    locked := two + [Go(2, 0)] + [Go(2, 0)] + [Go(2, 0)];
    RunThree(d, check, two, both, 2);
    var u := LocksFirst(both, check, right, wrong);
    lifted := locked + [Go(1, 0)] + [Go(1, 0)] + [Go(1, 0)];
    RunThree(d, check, locked, u, 1);
    var v := LiftsThen(u, check, right);
    assert lifted[..|locked|] == locked;
  }

  /** Two requests as one user and from one address pass both checks, one wrong and one right. The wrong one
      is recorded first and locks the account, and the address if that is looked up; then the right one is
      compared, and neither has a lock any more. */
  lemma FlightLiftsLock(name: string, address: string, lockMinutes: int, windowMinutes: int, user: A.User)
    returns (locked: seq<Move>, lifted: seq<Move>)
    requires lockMinutes >= 1 && windowMinutes >= 1
    ensures var d := Desk(A.AuthState(map[], map[name := user], map[]), map[]);
      var check: A.PasswordCheck := (hash, password) => password == "right";
      && locked <= lifted && (forall m :: m in lifted ==> m.at == 0)
      && (forall m :: m in lifted && m.Enter? ==> m.request.username == name && m.request.clientKey == address)
      && L.Limited(Run(d, check, locked).auth.limits, A.AccountKey(name), 0)
      && (A.Skipped(A.IpKey(address)) || L.Limited(Run(d, check, locked).auth.limits, A.IpKey(address), 0))
      && Run(d, check, lifted).auth.limits == map[]
  {
    var d := Desk(A.AuthState(map[], map[name := user], map[]), map[]);
    var check: A.PasswordCheck := (hash, password) => password == "right";
    var right := N.From(address, name, "right", 1, 1, lockMinutes, windowMinutes);
    var wrong := N.From(address, name, "wrong", 1, 1, lockMinutes, windowMinutes);
    locked, lifted := LockThenLift(d, check, right, wrong);
  }
}
