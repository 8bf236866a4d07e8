/**
  Logins that overlap. A login asks the limiter for the account and for the address, compares the
  password, and records the outcome, each in a database call of its own and without a lock around
  them; any number of requests may stand between two of these calls at any time.
 */
module ConcurrentLogins {
  import opened Basics
  import L = LoginLimits
  import A = Auth
  import G = GuessBounds

  /** How far a request has come; the user it found goes along with it. */
  datatype Stage =
    | AccountAsked | Asked | Mismatch | AccountCounted
    | Match(user: A.User) | AccountCleared(user: A.User) | Cleared(user: A.User)

  datatype Flight = Flight(request: A.Request, stage: Stage)

  datatype Desk = Desk(auth: A.AuthState, flights: map<int, Flight>)

  datatype Next = More(stage: Stage) | Done(outcome: A.Outcome)

  /** The next call of a request. */
  function Advance(a: A.AuthState, f: Flight, check: A.PasswordCheck, at: int): (A.AuthState, Next) {
    var q := f.request;
    match f.stage
    case AccountAsked =>
      (a, if A.Refused(a.limits, A.IpKey(q.clientKey), at) then Done(A.AccountLocked) else More(Asked))
    case Asked => (a, if A.ValidCreds(a, q, check) then More(Match(a.users[q.username])) else More(Mismatch))
    case Mismatch =>
      (a.(limits := L.Register(a.limits, A.AccountKey(q.username), A.AccountPolicy(q), at).0), More(AccountCounted))
    case AccountCounted =>
      (if A.Skipped(A.IpKey(q.clientKey)) then a
       else a.(limits := L.Register(a.limits, A.IpKey(q.clientKey), A.IpPolicy(q), at).0), Done(A.InvalidCreds))
    case Match(u) => (a.(limits := L.Clear(a.limits, A.AccountKey(q.username))), More(AccountCleared(u)))
    case AccountCleared(u) =>
      (if A.Skipped(A.IpKey(q.clientKey)) then a
       else a.(limits := L.Clear(a.limits, A.IpKey(q.clientKey))), More(Cleared(u)))
    case Cleared(u) =>
      if !u.approved then (a, Done(A.PendingApproval))
      else if q.token in a.sessions then (a, Done(A.TokenTaken))
      else
        (a.(sessions := a.sessions[q.token := A.Session(u.id, at + q.ttlDays * L.DAY)],
            users := a.users[q.username := u.(lastLogin := Some(at))]),
         Done(A.LoggedIn(q.token)))
  }

  /** A request arrives, or takes its next call, or the collector runs. */
  datatype Move = Enter(id: int, request: A.Request, at: int) | Go(id: int, at: int) | Collect(at: int)

  function Take(d: Desk, check: A.PasswordCheck, m: Move): Desk {
    match m
    case Collect(at) => d.(auth := d.auth.(limits := L.Sweep(d.auth.limits, at)))
    case Enter(id, q, at) =>
      if id in d.flights || A.Refused(d.auth.limits, A.AccountKey(q.username), at) then d
      else d.(flights := d.flights[id := Flight(q, AccountAsked)])
    case Go(id, at) =>
      if id !in d.flights then d
      else
        var f := d.flights[id];
        var (a, next) := Advance(d.auth, f, check, at);
        Desk(a, if next.More? then d.flights[id := f.(stage := next.stage)] else d.flights - {id})
  }

  function Run(d: Desk, check: A.PasswordCheck, moves: seq<Move>): Desk
    decreases moves
  {
    if moves == [] then d else Take(Run(d, check, moves[..|moves|-1]), check, moves[|moves|-1])
  }

  // ---- One request alone is a login ----

  function Repeat(d: Desk, check: A.PasswordCheck, m: Move, n: nat): Desk
    decreases n
  {
    if n == 0 then d else Repeat(Take(d, check, m), check, m, n - 1)
  }

  /** A request with a wrong guess records it on both keys and is gone. */
  lemma FinishesRecord(d: Desk, check: A.PasswordCheck, id: int, q: A.Request, at: int)
    requires id in d.flights && d.flights[id] == Flight(q, Mismatch)
    ensures Repeat(d, check, Go(id, at), 2) ==
            Desk(d.auth.(limits := A.RegisterBoth(d.auth.limits, q, at)), d.flights - {id})
  {
    var d1 := Take(d, check, Go(id, at));
    assert d1.flights - {id} == d.flights - {id};
    assert Repeat(d, check, Go(id, at), 2) == Repeat(d1, check, Go(id, at), 1);
    assert Repeat(d1, check, Go(id, at), 1) == Take(d1, check, Go(id, at));
  }

  /** A request with the right password clears both keys, and then logs in or not. */
  lemma FinishesClear(d: Desk, check: A.PasswordCheck, id: int, q: A.Request, u: A.User, at: int)
    requires id in d.flights && d.flights[id] == Flight(q, Match(u))
    ensures Repeat(d, check, Go(id, at), 3) ==
            Desk(Advance(d.auth.(limits := A.ClearBoth(d.auth.limits, q)), Flight(q, Cleared(u)), check, at).0,
              d.flights - {id})
  {
    var d1 := Take(d, check, Go(id, at));
    var d2 := Take(d1, check, Go(id, at));
    assert d2.flights - {id} == d.flights - {id};
    assert d2.auth == d.auth.(limits := A.ClearBoth(d.auth.limits, q));
    assert Repeat(d, check, Go(id, at), 3) == Repeat(d1, check, Go(id, at), 2);
    assert Repeat(d1, check, Go(id, at), 2) == Repeat(d2, check, Go(id, at), 1);
    assert Repeat(d2, check, Go(id, at), 1) == Take(d2, check, Go(id, at));
  }

  /** Without a request of that number a call changes nothing. */
  lemma {:induction false} NobodyCalls(d: Desk, check: A.PasswordCheck, id: int, at: int, n: nat)
    requires id !in d.flights
    ensures Repeat(d, check, Go(id, at), n) == d
    decreases n
  {
    if n == 0 {
    } else {
      NobodyCalls(d, check, id, at, n - 1);
    }
  }

  lemma {:induction false} RepeatSplits(d: Desk, check: A.PasswordCheck, m: Move, n: nat, k: nat)
    ensures Repeat(d, check, m, n + k) == Repeat(Repeat(d, check, m, n), check, m, k)
    decreases n
  {
    if n == 0 {
    } else {
      RepeatSplits(Take(d, check, m), check, m, n - 1, k);
    }
  }

  /** The same from where both keys have been asked. */
  lemma AskedIsLogin(d1: Desk, d: Desk, check: A.PasswordCheck, id: int, q: A.Request, at: int)
    requires id !in d.flights && d1 == d.(flights := d.flights[id := Flight(q, Asked)])
    requires !A.RefusedRequest(d.auth, q, at)
    ensures Repeat(d1, check, Go(id, at), 4) == Desk(A.Login(d.auth, q, check, at).0, d.flights)
  {
    var go := Go(id, at);
    var d2 := Take(d1, check, go);
    assert d2.flights - {id} == d.flights;
    assert Repeat(d1, check, go, 4) == Repeat(d2, check, go, 3);
    if A.ValidCreds(d.auth, q, check) {
      FinishesClear(d2, check, id, q, d.auth.users[q.username], at);
    } else {
      FinishesRecord(d2, check, id, q, at);
      RepeatSplits(d2, check, go, 2, 1);
      NobodyCalls(Repeat(d2, check, go, 2), check, id, at, 1);
    }
  }

  /** With nobody between its calls a request does what the login step does, whoever else is waiting;
      five calls after its arrival it has its answer. */
  lemma AloneIsLogin(d: Desk, check: A.PasswordCheck, id: int, q: A.Request, at: int)
    requires id !in d.flights
    ensures Repeat(Take(d, check, Enter(id, q, at)), check, Go(id, at), 5) ==
            Desk(A.Login(d.auth, q, check, at).0, d.flights)
  {
    var go, d0 := Go(id, at), Take(d, check, Enter(id, q, at));
    if A.Refused(d.auth.limits, A.AccountKey(q.username), at) {
      NobodyCalls(d0, check, id, at, 5);
    } else {
      var d1 := Take(d0, check, go);
      assert d0.flights - {id} == d.flights;
      assert Repeat(d0, check, go, 1) == d1 by {
        assert Repeat(d1, check, go, 0) == d1;
      }
      RepeatSplits(d0, check, go, 1, 4);
      if A.Refused(d.auth.limits, A.IpKey(q.clientKey), at) {
        NobodyCalls(d1, check, id, at, 4);
      } else {
        AskedIsLogin(d1, d, check, id, q, at);
      }
    }
  }

  // ---- The limiter sees a run of store events ----

  /** What a move writes to the limiter's table. */
  function EventsOf(d: Desk, m: Move): seq<L.Event> {
    match m
    case Collect(at) => [L.Event.Collect(at)]
    case Enter(_, _, _) => []
    case Go(id, at) =>
      if id !in d.flights then []
      else
        var q := d.flights[id].request;
        match d.flights[id].stage
        case Mismatch => [L.Fail(A.AccountKey(q.username), A.AccountPolicy(q), at)]
        case AccountCounted =>
          if A.Skipped(A.IpKey(q.clientKey)) then [] else [L.Fail(A.IpKey(q.clientKey), A.IpPolicy(q), at)]
        case Match(_) => [L.Success(A.AccountKey(q.username), at)]
        case AccountCleared(_) =>
          if A.Skipped(A.IpKey(q.clientKey)) then [] else [L.Success(A.IpKey(q.clientKey), at)]
        case _ => []
  }

  function Events(d: Desk, check: A.PasswordCheck, moves: seq<Move>): seq<L.Event>
    decreases moves
  {
    if moves == [] then []
    else
      var front := moves[..|moves|-1];
      Events(d, check, front) + EventsOf(Run(d, check, front), moves[|moves|-1])
  }

  lemma MoveEvents(d: Desk, check: A.PasswordCheck, m: Move)
    ensures Take(d, check, m).auth.limits == L.Run(d.auth.limits, EventsOf(d, m))
  {
    var events := EventsOf(d, m);
    if events != [] {
      A.RunOne(d.auth.limits, events[0]);
      assert events == [events[0]];
    }
  }

  /** The table under any interleaving is that of the events, in their order. */
  lemma {:induction false} LimitsFollowEvents(d: Desk, check: A.PasswordCheck, moves: seq<Move>)
    ensures Run(d, check, moves).auth.limits == L.Run(d.auth.limits, Events(d, check, moves))
    decreases moves
  {
    if moves == [] {
    } else {
      var front, m := moves[..|moves|-1], moves[|moves|-1];
      LimitsFollowEvents(d, check, front);
      MoveEvents(Run(d, check, front), check, m);
      A.RunConcat(d.auth.limits, Events(d, check, front), EventsOf(Run(d, check, front), m));
    }
  }

  // ---- Compared, counted, wasted, in flight ----

  predicate Concerns(f: Flight, key: string) {
    A.Concerns(f.request, key)
  }

  /** The key is the account of the request, and not its address. */
  predicate OnAccount(f: Flight, key: string) {
    key == A.AccountKey(f.request.username)
  }

  /** Past the limiter's check of the key, and not yet recorded there. The account is asked first and
      recorded first. */
  predicate Open(f: Flight, key: string) {
    Concerns(f, key) &&
    (f.stage.Asked? || f.stage.Mismatch?
     || if OnAccount(f, key) then f.stage.AccountAsked? else f.stage.AccountCounted?)
  }

  /** Compared and found wrong, and not yet recorded. */
  predicate Waits(f: Flight, key: string) {
    Concerns(f, key) && (f.stage.Mismatch? || (!OnAccount(f, key) && f.stage.AccountCounted?))
  }

  function InFlight(d: Desk, key: string): set<int> {
    set id | id in d.flights && Open(d.flights[id], key)
  }

  function Waiting(d: Desk, key: string): set<int> {
    set id | id in d.flights && Waits(d.flights[id], key)
  }

  /** The move compares a guess on the key with the password, and finds it wrong. */
  predicate Compares(d: Desk, check: A.PasswordCheck, m: Move, key: string) {
    m.Go? && m.id in d.flights && Concerns(d.flights[m.id], key) && d.flights[m.id].stage.Asked?
    && !A.ValidCreds(d.auth, d.flights[m.id].request, check)
  }

  /** The move records a wrong guess on the key. */
  predicate Records(d: Desk, m: Move, key: string) {
    && m.Go? && m.id in d.flights && Concerns(d.flights[m.id], key)
    && if OnAccount(d.flights[m.id], key) then d.flights[m.id].stage.Mismatch?
       else d.flights[m.id].stage.AccountCounted?
  }

  /** The move records a wrong guess when the key is locked already, so that it is not counted. */
  predicate Wastes(d: Desk, m: Move, key: string) {
    Records(d, m, key) && L.Limited(d.auth.limits, key, m.at)
  }

  function Compared(d: Desk, check: A.PasswordCheck, moves: seq<Move>, key: string): nat
    decreases moves
  {
    if moves == [] then 0
    else
      var front := moves[..|moves|-1];
      Compared(d, check, front, key) +
      if Compares(Run(d, check, front), check, moves[|moves|-1], key) then 1 else 0
  }

  function Wasted(d: Desk, check: A.PasswordCheck, moves: seq<Move>, key: string): nat
    decreases moves
  {
    if moves == [] then 0
    else
      var front := moves[..|moves|-1];
      Wasted(d, check, front, key) + if Wastes(Run(d, check, front), moves[|moves|-1], key) then 1 else 0
  }

  ghost predicate OrderedMoves(moves: seq<Move>) {
    forall i, j :: 0 <= i <= j < |moves| ==> moves[i].at <= moves[j].at
  }

  /** Never more than `c` requests for the key are open at once. */
  ghost predicate AtMost(d: Desk, check: A.PasswordCheck, moves: seq<Move>, key: string, c: nat) {
    forall i :: 0 <= i <= |moves| ==> |InFlight(Run(d, check, moves[..i]), key)| <= c
  }

  /** A move as it looks to one key. */
  datatype Seen = Seen(limits: L.Rows, open: set<int>, waiting: set<int>)

  function See(d: Desk, key: string): Seen {
    Seen(d.auth.limits, InFlight(d, key), Waiting(d, key))
  }

  /** The ways a move can look, when it is not a success on the key. */
  ghost predicate Looks(d: Desk, check: A.PasswordCheck, m: Move, key: string, p: L.Policy) {
    var a, b := See(d, key), See(Take(d, check, m), key);
    var events := EventsOf(d, m);
    if Records(d, m, key) then
      && events == [L.Fail(key, p, m.at)] && b.limits == L.Register(a.limits, key, p, m.at).0
      && b.open == a.open - {m.id} && b.waiting == a.waiting - {m.id} && m.id in a.open && m.id in a.waiting
    else
      && (events == [] || (|events| == 1 && !(events[0].Fail? && events[0].key == key)))
      && (L.Limited(b.limits, key, m.at) ==> L.Limited(a.limits, key, m.at))
      && (b.open <= a.open || !L.Limited(b.limits, key, m.at))
      && b.waiting == a.waiting + (if Compares(d, check, m, key) then {m.id} else {})
  }

  lemma RecordLooks(d: Desk, check: A.PasswordCheck, m: Move, key: string, p: L.Policy)
    requires Records(d, m, key) && !A.Skipped(key)
    requires var q := d.flights[m.id].request; A.AccountKey(q.username) != A.IpKey(q.clientKey)
    requires forall e :: e in EventsOf(d, m) ==> G.Fits(e, key, p)
    ensures Looks(d, check, m, key, p)
  {
    var events := EventsOf(d, m);
    assert |events| == 1 && events[0] in events;
  }

  lemma OtherLooks(d: Desk, check: A.PasswordCheck, m: Move, key: string, p: L.Policy)
    requires m.Go? && m.id in d.flights && !Records(d, m, key) && !A.Skipped(key)
    requires var q := d.flights[m.id].request; A.AccountKey(q.username) != A.IpKey(q.clientKey)
    requires forall e :: e in EventsOf(d, m) ==> G.Fits(e, key, p)
    ensures Looks(d, check, m, key, p)
  {
    var events := EventsOf(d, m);
    assert events != [] ==> events[0] in events;
  }

  lemma MoveLooks(d: Desk, check: A.PasswordCheck, m: Move, key: string, p: L.Policy)
    requires !A.Skipped(key)
    requires forall e :: e in EventsOf(d, m) ==> G.Fits(e, key, p)
    ensures Looks(d, check, m, key, p)
  {
    if m.Go? && m.id in d.flights {
      A.KindsDiffer(d.flights[m.id].request.username, d.flights[m.id].request.clientKey);
      if Records(d, m, key) {
        RecordLooks(d, check, m, key, p);
      } else {
        OtherLooks(d, check, m, key, p);
      }
    }
  }

  // ---- Guesses compared are guesses counted, and those in flight ----

  function Counted(d: Desk, check: A.PasswordCheck, moves: seq<Move>, key: string): seq<int> {
    L.CountedTimes(d.auth.limits, Events(d, check, moves), key)
  }

  function Locked(d: Desk, check: A.PasswordCheck, moves: seq<Move>, key: string): seq<int> {
    L.LockTimes(d.auth.limits, Events(d, check, moves), key)
  }

  /** `open` requests at the start, and what has happened to guesses on a key since. */
  datatype Tally = Tally(open: nat, compared: nat, counted: nat, locks: nat, wasted: nat)

  /** What `locks` locks may waste, if beside the request that locks at most `others` are open. */
  function Allowance(others: nat, locks: nat): nat
    decreases locks
  {
    if locks == 0 then 0 else Allowance(others, locks - 1) + others
  }

  lemma {:induction false} AllowanceIs(others: nat, locks: nat)
    ensures Allowance(others, locks) == others * locks
    decreases locks
  {
    if locks == 0 {
    } else {
      AllowanceIs(others, locks - 1);
      assert others * locks == others * (locks - 1) + others;
    }
  }

  /** Every guess compared is counted, wasted or still waiting, and each lock wastes at most the other
      requests that were open when it began. */
  ghost predicate Balanced(t: Tally, others: nat, s: Seen, key: string, now: int) {
    && t.compared <= t.counted + t.wasted + |s.waiting|
    && t.wasted <= Allowance(others, t.locks) + t.open
    && (L.Limited(s.limits, key, now) ==> t.wasted + |s.open| <= Allowance(others, t.locks) + t.open)
  }

  /** The tally of a run. */
  ghost function TallyOf(d: Desk, check: A.PasswordCheck, moves: seq<Move>, key: string): Tally {
    Tally(|InFlight(d, key)|, Compared(d, check, moves, key), |Counted(d, check, moves, key)|,
          |Locked(d, check, moves, key)|, Wasted(d, check, moves, key))
  }

  /** The tally after one more move. */
  ghost function Tallied(t: Tally, d: Desk, check: A.PasswordCheck, m: Move, key: string): Tally {
    var events := EventsOf(d, m);
    t.(compared := t.compared + (if Compares(d, check, m, key) then 1 else 0),
       counted := t.counted + (if events != [] && L.Counts(d.auth.limits, events[0], key) then 1 else 0),
       locks := t.locks + (if events != [] && L.Locks(d.auth.limits, events[0], key) then 1 else 0),
       wasted := t.wasted + (if Wastes(d, m, key) then 1 else 0))
  }

  /** Appending at most one event appends at most one counted time and one lock. */
  lemma OneEvent(start: L.Rows, before: seq<L.Event>, events: seq<L.Event>, key: string)
    requires |events| <= 1
    ensures var rows := L.Run(start, before);
      && |L.CountedTimes(start, before + events, key)| == |L.CountedTimes(start, before, key)| +
         (if events != [] && L.Counts(rows, events[0], key) then 1 else 0)
      && |L.LockTimes(start, before + events, key)| == |L.LockTimes(start, before, key)| +
         (if events != [] && L.Locks(rows, events[0], key) then 1 else 0)
  {
    if events == [] {
      assert before + events == before;
    } else {
      assert (before + events)[..|before + events|-1] == before;
    }
  }

  lemma RecordTallied(t: Tally, d: Desk, check: A.PasswordCheck, m: Move, key: string, p: L.Policy)
    requires Looks(d, check, m, key, p) && Records(d, m, key)
    ensures Tallied(t, d, check, m, key) ==
      if L.Limited(d.auth.limits, key, m.at) then t.(wasted := t.wasted + 1)
      else t.(counted := t.counted + 1,
              locks := t.locks + if L.Locks(d.auth.limits, L.Fail(key, p, m.at), key) then 1 else 0)
  {
  }

  lemma OtherTallied(t: Tally, d: Desk, check: A.PasswordCheck, m: Move, key: string, p: L.Policy)
    requires Looks(d, check, m, key, p) && !Records(d, m, key)
    ensures var new_ := if Compares(d, check, m, key) then {m.id} else {};
      Tallied(t, d, check, m, key) == t.(compared := t.compared + |new_|) && new_ !! Waiting(d, key)
  {
  }

  lemma RecordBalances(t: Tally, others: nat, a: Seen, b: Seen, id: int, key: string, p: L.Policy,
                       now: int, at: int)
    requires Balanced(t, others, a, key, now) && now <= at
    requires id in a.open && id in a.waiting && b.open == a.open - {id} && b.waiting == a.waiting - {id}
    requires b.limits == L.Register(a.limits, key, p, at).0 && |a.open| <= others + 1
    ensures var locks := L.Locks(a.limits, L.Fail(key, p, at), key);
      Balanced(if L.Limited(a.limits, key, at) then t.(wasted := t.wasted + 1)
               else t.(counted := t.counted + 1, locks := t.locks + if locks then 1 else 0),
        others, b, key, at)
  {
    assert |b.open| == |a.open| - 1 && |b.waiting| == |a.waiting| - 1;
  }

  lemma Fewer(x: set<int>, y: set<int>)
    requires x <= y
    ensures |x| <= |y|
  {
    assert |y| == |x| + |y - x| by {
      assert y == x + (y - x);
    }
  }

  lemma OtherBalances(t: Tally, others: nat, a: Seen, b: Seen, new_: set<int>, key: string, now: int, at: int)
    requires Balanced(t, others, a, key, now) && now <= at
    requires L.Limited(b.limits, key, at) ==> L.Limited(a.limits, key, at)
    requires b.open <= a.open || !L.Limited(b.limits, key, at)
    requires b.waiting == a.waiting + new_ && new_ !! a.waiting
    ensures Balanced(t.(compared := t.compared + |new_|), others, b, key, at)
  {
    assert |b.waiting| == |a.waiting| + |new_|;
    if b.open <= a.open {
      Fewer(b.open, a.open);
    }
  }

  lemma BalanceStep(t: Tally, others: nat, now: int, d: Desk, check: A.PasswordCheck, m: Move, key: string,
                    p: L.Policy)
    requires Balanced(t, others, See(d, key), key, now) && now <= m.at
    requires Looks(d, check, m, key, p)
    requires |InFlight(d, key)| <= others + 1
    ensures Balanced(Tallied(t, d, check, m, key), others, See(Take(d, check, m), key), key, m.at)
  {
    var a, b := See(d, key), See(Take(d, check, m), key);
    if Records(d, m, key) {
      RecordTallied(t, d, check, m, key, p);
      RecordBalances(t, others, a, b, m.id, key, p, now, m.at);
    } else {
      OtherTallied(t, d, check, m, key, p);
      OtherBalances(t, others, a, b, if Compares(d, check, m, key) then {m.id} else {}, key, now, m.at);
    }
  }

  lemma EventsStep(d: Desk, check: A.PasswordCheck, moves: seq<Move>, key: string)
    requires moves != []
    ensures var front, m := moves[..|moves|-1], moves[|moves|-1];
      var rows, events := Run(d, check, front).auth.limits, EventsOf(Run(d, check, front), m);
      && |Counted(d, check, moves, key)| == |Counted(d, check, front, key)| +
         (if events != [] && L.Counts(rows, events[0], key) then 1 else 0)
      && |Locked(d, check, moves, key)| == |Locked(d, check, front, key)| +
         (if events != [] && L.Locks(rows, events[0], key) then 1 else 0)
  {
    var front, m := moves[..|moves|-1], moves[|moves|-1];
    LimitsFollowEvents(d, check, front);
    OneEvent(d.auth.limits, Events(d, check, front), EventsOf(Run(d, check, front), m), key);
  }

  lemma TallyStep(d: Desk, check: A.PasswordCheck, moves: seq<Move>, key: string)
    requires moves != []
    ensures var front, m := moves[..|moves|-1], moves[|moves|-1];
      TallyOf(d, check, moves, key) ==
        Tallied(TallyOf(d, check, front, key), Run(d, check, front), check, m, key)
  {
    EventsStep(d, check, moves, key);
  }

  lemma FrontAtMost(d: Desk, check: A.PasswordCheck, moves: seq<Move>, key: string, c: nat)
    requires moves != [] && OrderedMoves(moves) && AtMost(d, check, moves, key, c)
    ensures var front := moves[..|moves|-1];
      && OrderedMoves(front) && AtMost(d, check, front, key, c) && |InFlight(Run(d, check, front), key)| <= c
      && (front != [] ==> front[|front|-1].at <= moves[|moves|-1].at)
  {
    var front := moves[..|moves|-1];
    assert forall i :: 0 <= i <= |front| ==> front[..i] == moves[..i];
    assert front[..|front|] == front;
  }

  lemma FrontGuesses(d: Desk, check: A.PasswordCheck, moves: seq<Move>, key: string, p: L.Policy)
    requires moves != [] && L.Guesses(Events(d, check, moves), key, p)
    ensures var front, m := moves[..|moves|-1], moves[|moves|-1];
      && L.Guesses(Events(d, check, front), key, p)
      && forall e :: e in EventsOf(Run(d, check, front), m) ==> G.Fits(e, key, p)
  {
    var front := moves[..|moves|-1];
    var before, events := Events(d, check, front), EventsOf(Run(d, check, front), moves[|moves|-1]);
    assert forall i :: 0 <= i < |before| ==> (before + events)[i] == before[i];
    assert forall e :: e in before || e in events ==> e in before + events;
  }

  lemma {:induction false} RunBalances(d: Desk, check: A.PasswordCheck, moves: seq<Move>, key: string, p: L.Policy,
                                       others: nat, now: int)
    requires !A.Skipped(key)
    requires OrderedMoves(moves) && L.Guesses(Events(d, check, moves), key, p)
    requires AtMost(d, check, moves, key, others + 1)
    requires moves != [] ==> moves[|moves|-1].at == now
    ensures Balanced(TallyOf(d, check, moves, key), others, See(Run(d, check, moves), key), key, now)
    decreases moves
  {
    if moves == [] {
    } else {
      var front, m := moves[..|moves|-1], moves[|moves|-1];
      FrontAtMost(d, check, moves, key, others + 1);
      FrontGuesses(d, check, moves, key, p);
      var before := if front == [] then now else front[|front|-1].at;
      RunBalances(d, check, front, key, p, others, before);
      MoveLooks(Run(d, check, front), check, m, key, p);
      TallyStep(d, check, moves, key);
      BalanceStep(TallyOf(d, check, front, key), others, before, Run(d, check, front), check, m, key, p);
    }
  }

  lemma WaitingAreOpen(d: Desk, key: string)
    ensures Waiting(d, key) <= InFlight(d, key)
  {
    assert forall id :: id in Waiting(d, key) ==> id in InFlight(d, key);
  }

  lemma BalanceBounds(t: Tally, others: nat, s: Seen, key: string, now: int, end: nat)
    requires Balanced(t, others, s, key, now) && |s.waiting| <= end
    ensures t.compared <= t.counted + others * t.locks + t.open + end
  {
    AllowanceIs(others, t.locks);
  }

  /** Over any interleaving in which beside any open request at most `others` are open: the wrong guesses
      that were compared are at most the failures that were counted, and for every lock the others that
      may have been open when it began, and those open at the start and at the end. */
  lemma ComparedByCounted(d: Desk, check: A.PasswordCheck, moves: seq<Move>, key: string, p: L.Policy, others: nat)
    requires !A.Skipped(key)
    requires OrderedMoves(moves) && L.Guesses(Events(d, check, moves), key, p)
    requires AtMost(d, check, moves, key, others + 1)
    ensures Compared(d, check, moves, key) <=
        |Counted(d, check, moves, key)| + others * |Locked(d, check, moves, key)|
        + |InFlight(d, key)| + |InFlight(Run(d, check, moves), key)|
  {
    var u := Run(d, check, moves);
    var now := if moves == [] then 0 else moves[|moves|-1].at;
    RunBalances(d, check, moves, key, p, others, now);
    WaitingAreOpen(u, key);
    Fewer(Waiting(u, key), InFlight(u, key));
    BalanceBounds(TallyOf(d, check, moves, key), others, See(u, key), key, now, |InFlight(u, key)|);
  }

  ghost predicate SpanAtMost(times: seq<int>, t: int) {
    forall i, j :: 0 <= i <= j < |times| ==> times[j] - times[i] <= t
  }

  ghost predicate Within(moves: seq<Move>, t: int) {
    t >= 0 && forall m, n :: m in moves && n in moves ==> n.at - m.at <= t
  }

  lemma {:induction false} EventsFromMoves(d: Desk, check: A.PasswordCheck, moves: seq<Move>)
    ensures forall e :: e in Events(d, check, moves) ==>
      exists m :: m in moves && m.at == e.at && (e.Collect? ==> m.Collect?)
    decreases moves
  {
    if moves == [] {
    } else {
      var front, last := moves[..|moves|-1], moves[|moves|-1];
      EventsFromMoves(d, check, front);
      forall e | e in Events(d, check, moves)
        ensures exists m :: m in moves && m.at == e.at && (e.Collect? ==> m.Collect?)
      {
        if e in Events(d, check, front) {
          var m :| m in front && m.at == e.at && (e.Collect? ==> m.Collect?);
          assert m in moves;
        } else {
          assert e in EventsOf(Run(d, check, front), last);
          assert last in moves;
        }
      }
    }
  }

  /** The collector does not shorten `gap` on this run. */
  ghost predicate Unshortened(p: L.Policy, gap: int, moves: seq<Move>) {
    gap <= L.FORGOTTEN || p.maxFails == 1 || forall m :: m in moves ==> !m.Collect?
  }

  /** The counted failures under any interleaving are as far apart as under none. */
  lemma CountedSpread(d: Desk, check: A.PasswordCheck, moves: seq<Move>, key: string, p: L.Policy, gap: int)
    requires L.Positive(p) && L.Proper(d.auth.limits, key) && L.Guesses(Events(d, check, moves), key, p)
    requires gap <= L.Spacing(p) && Unshortened(p, gap, moves)
    ensures L.Sorted(Counted(d, check, moves, key)) && L.Spread(Counted(d, check, moves, key), p.maxFails, gap)
  {
    EventsFromMoves(d, check, moves);
    L.AttemptsSpread(d.auth.limits, Events(d, check, moves), key, p, gap);
  }

  lemma AllWithin(times: seq<int>, events: seq<L.Event>, t: int)
    requires forall e, f :: e in events && f in events ==> f.at - e.at <= t
    requires forall x :: x in times ==> exists e :: e in events && e.at == x
    ensures SpanAtMost(times, t)
  {
    forall i, j | 0 <= i <= j < |times|
      ensures times[j] - times[i] <= t
    {
      assert times[i] in times && times[j] in times;
    }
  }

  lemma {:induction false} CountedFromEvents(start: L.Rows, events: seq<L.Event>, key: string)
    ensures forall x :: x in L.CountedTimes(start, events, key) ==> exists e :: e in events && e.at == x
    decreases events
  {
    if events == [] {
    } else {
      CountedFromEvents(start, events[..|events|-1], key);
      assert events[|events|-1] in events && forall e :: e in events[..|events|-1] ==> e in events;
    }
  }

  lemma {:induction false} LocksFromEvents(start: L.Rows, events: seq<L.Event>, key: string)
    ensures forall x :: x in L.LockTimes(start, events, key) ==> exists e :: e in events && e.at == x
    decreases events
  {
    if events == [] {
    } else {
      LocksFromEvents(start, events[..|events|-1], key);
      assert events[|events|-1] in events && forall e :: e in events[..|events|-1] ==> e in events;
    }
  }

  lemma TimesWithin(start: L.Rows, events: seq<L.Event>, key: string, t: int)
    requires forall e, f :: e in events && f in events ==> f.at - e.at <= t
    ensures SpanAtMost(L.CountedTimes(start, events, key), t) && SpanAtMost(L.LockTimes(start, events, key), t)
  {
    CountedFromEvents(start, events, key);
    LocksFromEvents(start, events, key);
    AllWithin(L.CountedTimes(start, events, key), events, t);
    AllWithin(L.LockTimes(start, events, key), events, t);
  }

  lemma AtMostSoMany(times: seq<int>, m: int, d: int, t: int)
    requires m >= 1 && d > 0 && t >= 0 && L.Sorted(times) && L.Spread(times, m, d)
    requires SpanAtMost(times, t)
    ensures |times| <= m * (t / d + 1)
  {
    if times == [] {
      L.ProductMono(0, t / d + 1, m);
      assert m * (t / d + 1) == (t / d + 1) * m;
    } else {
      L.FewInInterval(times, m, d, 0, |times| - 1, t);
    }
  }

  /** Few failures are counted, and few lock, within a duration. */
  lemma FewCounted(start: L.Rows, events: seq<L.Event>, key: string, p: L.Policy, gap: int, t: int)
    requires L.Positive(p) && L.Proper(start, key) && L.Guesses(events, key, p)
    requires 0 < gap <= L.Spacing(p) && L.Unshortened(p, gap, events)
    requires t >= 0 && forall e, f :: e in events && f in events ==> f.at - e.at <= t
    ensures |L.CountedTimes(start, events, key)| <= p.maxFails * (t / gap + 1)
    ensures |L.LockTimes(start, events, key)| <= t / p.lockFor + 1
  {
    L.AttemptsSpread(start, events, key, p, gap);
    L.LocksSpread(start, events, key, p);
    TimesWithin(start, events, key, t);
    AtMostSoMany(L.CountedTimes(start, events, key), p.maxFails, gap, t);
    AtMostSoMany(L.LockTimes(start, events, key), 1, p.lockFor, t);
  }

  /** A tally whose counts are those of some events from `start`, the last of them not after `now`. */
  ghost predicate Told(t: Tally, s: Seen, start: L.Rows, events: seq<L.Event>, key: string, p: L.Policy, now: int) {
    && s.limits == L.Run(start, events)
    && t.counted == |L.CountedTimes(start, events, key)| && t.locks == |L.LockTimes(start, events, key)|
    && L.Guesses(events, key, p) && forall e :: e in events ==> e.at <= now
  }

  ghost predicate Drainable(t: Tally, others: nat, s: Seen, key: string, now: int) {
    Balanced(t, others, s, key, now) && s.waiting <= s.open && |s.open| <= others + 1
  }

  lemma DrainOne(t: Tally, others: nat, s: Seen, start: L.Rows, before: seq<L.Event>, key: string, p: L.Policy,
                 now: int, id: int)
    returns (u: Tally, b: Seen)
    requires Told(t, s, start, before, key, p, now) && Drainable(t, others, s, key, now) && id in s.waiting
    ensures Told(u, b, start, before + [L.Fail(key, p, now)], key, p, now)
    ensures Drainable(u, others, b, key, now) && b.waiting == s.waiting - {id}
    ensures u.compared == t.compared && u.open == t.open
  {
    var e := L.Fail(key, p, now);
    b := Seen(L.Register(s.limits, key, p, now).0, s.open - {id}, s.waiting - {id});
    u := if L.Limited(s.limits, key, now) then t.(wasted := t.wasted + 1)
         else t.(counted := t.counted + 1, locks := t.locks + if L.Locks(s.limits, e, key) then 1 else 0);
    RecordBalances(t, others, s, b, id, key, p, now, now);
    OneEvent(start, before, [e], key);
    G.RunMoreEvents(start, before, e);
    G.GuessesAppend(before, [e], key, p, now);
    Fewer(b.open, s.open);
  }

  /** The guesses that wait at the end may be taken to be recorded then and there. */
  lemma {:induction false} Drain(t: Tally, others: nat, s: Seen, start: L.Rows, before: seq<L.Event>, key: string,
                                 p: L.Policy, now: int)
    returns (more: seq<L.Event>)
    requires Told(t, s, start, before, key, p, now) && Drainable(t, others, s, key, now)
    ensures L.Guesses(before + more, key, p) && forall e :: e in more ==> e.at == now && !e.Collect?
    ensures t.compared <= |L.CountedTimes(start, before + more, key)|
                          + Allowance(others, |L.LockTimes(start, before + more, key)|) + t.open
    decreases s.waiting
  {
    if s.waiting == {} {
      more := [];
      assert before + more == before;
    } else {
      var id := Member(s.waiting);
      var e := L.Fail(key, p, now);
      var u, b := DrainOne(t, others, s, start, before, key, p, now, id);
      var rest := Drain(u, others, b, start, before + [e], key, p, now);
      more := [e] + rest;
      assert before + [e] + rest == before + more;
    }
  }

  /** The events of a run, and those still to come from the guesses that wait at its end, all happen
      within the run's duration. */
  lemma DrainedWithin(d: Desk, check: A.PasswordCheck, moves: seq<Move>, more: seq<L.Event>, now: int, t: int)
    requires Within(moves, t) && OrderedMoves(moves) && (moves != [] ==> moves[|moves|-1].at == now)
    requires forall e :: e in more ==> e.at == now
    ensures var events := Events(d, check, moves) + more;
      forall e, f :: e in events && f in events ==> f.at - e.at <= t
  {
    EventsFromMoves(d, check, moves);
    if moves != [] {
      assert moves[|moves|-1] in moves;
    }
    var events := Events(d, check, moves) + more;
    forall e | e in events
      ensures (moves == [] && e.at == now) || exists m :: m in moves && m.at == e.at
    {
      if e in Events(d, check, moves) {
        var m :| m in moves && m.at == e.at;
      }
    }
  }

  lemma Weigh(others: nat, n: nat, m: int)
    requires n <= m
    ensures Allowance(others, n) <= others * m
  {
    AllowanceIs(others, n);
    assert others * m - others * n == others * (m - n);
  }

  lemma EventsBefore(d: Desk, check: A.PasswordCheck, moves: seq<Move>, now: int)
    requires OrderedMoves(moves) && (moves != [] ==> moves[|moves|-1].at == now)
    ensures forall e :: e in Events(d, check, moves) ==> e.at <= now
  {
    EventsFromMoves(d, check, moves);
  }

  /** So within a duration `t` at most `maxFails * (t / gap + 1) + others * (t / lockFor + 1)` wrong guesses
      are compared, beside those of the requests open at its start. With no others this is what one
      login after another may do. */
  lemma ComparedBound(d: Desk, check: A.PasswordCheck, moves: seq<Move>, key: string, p: L.Policy, gap: int,
                      others: nat, t: int)
    requires !A.Skipped(key) && L.Proper(d.auth.limits, key)
    requires OrderedMoves(moves) && L.Guesses(Events(d, check, moves), key, p)
    requires AtMost(d, check, moves, key, others + 1) && Within(moves, t)
    requires L.Positive(p) && 0 < gap <= L.Spacing(p) && Unshortened(p, gap, moves)
    ensures Compared(d, check, moves, key) <=
            p.maxFails * (t / gap + 1) + others * (t / p.lockFor + 1) + |InFlight(d, key)|
  {
    var start, u := d.auth.limits, Run(d, check, moves);
    var events, now := Events(d, check, moves), if moves == [] then 0 else moves[|moves|-1].at;
    RunBalances(d, check, moves, key, p, others, now);
    EventsBefore(d, check, moves, now);
    LimitsFollowEvents(d, check, moves);
    WaitingAreOpen(u, key);
    assert |InFlight(u, key)| <= others + 1 by {
      assert moves[..|moves|] == moves;
    }
    var more := Drain(TallyOf(d, check, moves, key), others, See(u, key), start, events, key, p, now);
    DrainedWithin(d, check, moves, more, now, t);
    EventsFromMoves(d, check, moves);
    FewCounted(start, events + more, key, p, gap, t);
    Weigh(others, |L.LockTimes(start, events + more, key)|, t / p.lockFor + 1);
  }

  // ---- What a lock still means ----

  /** The move clears the key after a right password. */
  predicate Lifts(d: Desk, m: Move, key: string) {
    && m.Go? && m.id in d.flights && Concerns(d.flights[m.id], key)
    && if OnAccount(d.flights[m.id], key) then d.flights[m.id].stage.Match?
       else d.flights[m.id].stage.AccountCleared?
  }

  /** While an account or an address is locked no request passes its check. Requests that passed before the
      lock may still be compared, and until one of them has the right password the lock stays as it is. */
  lemma LockHolds(d: Desk, check: A.PasswordCheck, key: string, m: Move)
    requires !A.Skipped(key) && L.Limited(d.auth.limits, key, m.at)
    ensures var after := Take(d, check, m);
      && InFlight(after, key) <= InFlight(d, key)
      && (if Lifts(d, m, key) then key !in after.auth.limits
          else key in after.auth.limits && after.auth.limits[key] == d.auth.limits[key])
  {
    if m.Go? && m.id in d.flights {
      A.KindsDiffer(d.flights[m.id].request.username, d.flights[m.id].request.clientKey);
    }
  }
}
