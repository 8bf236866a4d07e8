/** The bounded table of background tasks, and the listing of its newest entries. */
module TaskTable {
  import opened Basics

  const CAPACITY := 50
  const DEFAULT_LIMIT := 10

  datatype Task = Task(id: int, kind: string, status: string, createdAt: int, operatorID: int, operator: string)

  type Table = map<int, Task>

  /** The oldest of the newest 50 of the ids handed out before `nextID`. */
  function Low(nextID: int): int {
    if nextID - CAPACITY > 1 then nextID - CAPACITY else 1
  }

  /** The table's ids are the newest 50 of those handed out before `nextID`. */
  ghost predicate InWindow(table: Table, nextID: int) {
    && (forall id :: id in table <==> Low(nextID) <= id < nextID)
    && |table| == nextID - Low(nextID)
  }

  /** What a creation asks for. */
  datatype Order = Order(kind: string, operatorID: int, operator: string, now: int)

  function MakeTask(id: int, o: Order): Task {
    Task(id, o.kind, "running", o.now, o.operatorID, o.operator)
  }

  ghost predicate AsOrderedIn(table: Table, orders: seq<Order>) {
    forall id :: id in table ==> 1 <= id <= |orders| && table[id] == MakeTask(id, orders[id - 1])
  }

  /** `table` holds exactly the newest tasks of those created by `orders`, each as it was created. */
  ghost predicate Holds(table: Table, nextID: int, orders: seq<Order>) {
    && nextID == |orders| + 1
    && InWindow(table, nextID)
    && AsOrderedIn(table, orders)
  }

  /** Strictly descending ids. */
  ghost predicate Descending(ids: seq<int>) {
    forall i, j :: 0 <= i < j < |ids| ==> ids[i] > ids[j]
  }

  lemma EmptyOrder(ids: set<int>, order: seq<int>)
    requires Enumerates(order, ids) && |order| == 0
    ensures ids == {}
  {
    assert forall x :: x in ids ==> x in order;
  }

  /** The smallest of a non-empty set of positive ids; 0 stands for "none yet". */
  method Oldest(ids: set<int>) returns (oldest: int)
    requires ids != {} && forall id :: id in ids ==> id > 0
    ensures oldest in ids && forall id :: id in ids ==> oldest <= id
  {
    var order := RangeOver(ids);
    oldest := 0;
    for i := 0 to |order|
      invariant oldest == 0 <==> i == 0
      invariant i > 0 ==> oldest in ids
      invariant forall j :: 0 <= j < i ==> oldest <= order[j]
    {
      assert order[i] in ids;
      if oldest == 0 || order[i] < oldest {
        oldest := order[i];
      }
    }
    if |order| == 0 {
      EmptyOrder(ids, order);
    }
  }

  method Swap(a: array<int>, i: int, j: int)
    requires 0 <= i < j < a.Length
    modifies a
    ensures a[i] == old(a[j]) && a[j] == old(a[i])
    ensures forall q :: 0 <= q < a.Length && q != i && q != j ==> a[q] == old(a[q])
    ensures multiset(a[..]) == multiset(old(a[..]))
  {
    a[i], a[j] := a[j], a[i];
  }

  /** The inner loop: brings the largest of the rest to position `i`. */
  method Pass(a: array<int>, i: int)
    requires 0 <= i < a.Length
    requires forall p, q :: 0 <= p < i && p < q < a.Length ==> a[p] >= a[q]
    modifies a
    ensures multiset(a[..]) == multiset(old(a[..]))
    ensures forall p, q :: 0 <= p <= i && p < q < a.Length ==> a[p] >= a[q]
  {
    for j := i + 1 to a.Length
      invariant multiset(a[..]) == multiset(old(a[..]))
      invariant forall p, q :: 0 <= p < i && p < q < a.Length ==> a[p] >= a[q]
      invariant forall q :: i < q < j ==> a[i] >= a[q]
    {
      if a[j] > a[i] {
        Swap(a, i, j);
      }
    }
  }

  /** The exchange sort of the listing, in place. */
  method SortDescending(a: array<int>)
    modifies a
    ensures multiset(a[..]) == multiset(old(a[..]))
    ensures forall p, q :: 0 <= p < q < a.Length ==> a[p] >= a[q]
  {
    for i := 0 to a.Length
      invariant multiset(a[..]) == multiset(old(a[..]))
      invariant forall p, q :: 0 <= p < i && p < q < a.Length ==> a[p] >= a[q]
    {
      Pass(a, i);
    }
  }

  /** One creation, on values. */
  function Create(table: Table, nextID: int, o: Order): Table {
    var more := table[nextID := MakeTask(nextID, o)];
    if |more| > CAPACITY then more - {nextID - CAPACITY} else more
  }

  lemma CreateKeys(table: Table, n: int, o: Order)
    requires n >= 1 && InWindow(table, n)
    ensures InWindow(Create(table, n, o), n + 1)
    ensures var more := table[n := MakeTask(n, o)];
      |more| > CAPACITY ==> n - CAPACITY in more && forall id :: id in more ==> n - CAPACITY <= id
    ensures forall id :: id in table ==> id > 0
  {
    var more := table[n := MakeTask(n, o)];
    assert |more| == |table| + 1;
    if |more| > CAPACITY {
      assert n - CAPACITY in more;
      assert |more - {n - CAPACITY}| == |more| - 1;
    }
  }

  lemma AsOrdered(table: Table, n: int, orders: seq<Order>, o: Order)
    requires n == |orders| + 1 && AsOrderedIn(table, orders)
    ensures AsOrderedIn(Create(table, n, o), orders + [o])
  {
    var more, all := table[n := MakeTask(n, o)], orders + [o];
    forall id | id in more
      ensures 1 <= id <= |all| && more[id] == MakeTask(id, all[id - 1])
    {
      if id != n {
        assert all[id - 1] == orders[id - 1];
      }
    }
    assert AsOrderedIn(more, all);
  }

  /** A creation, with the eviction of the oldest when there are too many, moves the window by one. */
  lemma CreateHolds(table: Table, nextID: int, orders: seq<Order>, o: Order)
    requires Holds(table, nextID, orders)
    ensures Holds(Create(table, nextID, o), nextID + 1, orders + [o])
    ensures var more := table[nextID := MakeTask(nextID, o)];
      |more| > CAPACITY ==> nextID - CAPACITY in more && forall id :: id in more ==> nextID - CAPACITY <= id
    ensures forall id :: id in table ==> id > 0
  {
    CreateKeys(table, nextID, o);
    AsOrdered(table, nextID, orders, o);
  }

  lemma TwiceCounted(s: seq<int>, i: int, j: int)
    requires 0 <= i < j < |s| && s[i] == s[j]
    ensures multiset(s)[s[i]] >= 2
  {
    assert s == s[..j] + [s[j]] + s[j+1..];
    assert multiset(s) == multiset(s[..j]) + multiset{s[j]} + multiset(s[j+1..]);
    assert s[..j][i] == s[j] && s[j] in multiset(s[..j]);
  }

  lemma NotAgain(s: seq<int>)
    requires s != [] && forall i, j :: 0 <= i < j < |s| ==> s[i] != s[j]
    ensures s[0] !in multiset(s[1..])
  {
    forall y | y in s[1..]
      ensures y != s[0]
    {
      var k :| 0 <= k < |s[1..]| && s[1..][k] == y;
      assert s[k + 1] == y;
    }
  }

  lemma {:induction false} OnceCounted(s: seq<int>, x: int)
    requires forall i, j :: 0 <= i < j < |s| ==> s[i] != s[j]
    ensures multiset(s)[x] <= 1
    decreases s
  {
    if s == [] {
    } else {
      assert s == [s[0]] + s[1..];
      OnceCounted(s[1..], x);
      NotAgain(s);
    }
  }

  /** Sorting an enumeration of a set leaves its elements in strictly descending order. */
  lemma SortedKeys(ids: seq<int>, order: seq<int>, keys: set<int>)
    requires Enumerates(order, keys) && multiset(ids) == multiset(order)
    requires forall i, j :: 0 <= i < j < |ids| ==> ids[i] >= ids[j]
    ensures Descending(ids) && forall x :: x in ids <==> x in keys
  {
    forall x
      ensures x in ids <==> x in keys
    {
      assert x in ids <==> x in multiset(ids);
      assert x in order <==> x in multiset(order);
    }
    forall i, j | 0 <= i < j < |ids|
      ensures ids[i] > ids[j]
    {
      if ids[i] == ids[j] {
        TwiceCounted(ids, i, j);
        OnceCounted(order, ids[i]);
      }
    }
  }

  lemma FirstListed(ids: seq<int>)
    requires ids != []
    ensures ids[0] in ids
  {
  }

  /** A strictly descending listing of an interval counts down from its top. */
  lemma {:induction false} DescendingInterval(ids: seq<int>, lo: int, hi: int)
    requires lo <= hi && Descending(ids) && forall x :: x in ids <==> lo <= x < hi
    ensures |ids| == hi - lo
    ensures forall i :: 0 <= i < |ids| ==> ids[i] == hi - 1 - i
    decreases hi - lo
  {
    if lo == hi {
      if ids != [] {
        FirstListed(ids);
      }
    } else {
      assert hi - 1 in ids;
      var k :| 0 <= k < |ids| && ids[k] == hi - 1;
      FirstListed(ids);
      assert k == 0;
      var rest := ids[1..];
      forall x
        ensures x in rest <==> lo <= x < hi - 1
      {
        assert x in ids <==> x == ids[0] || x in rest;
        if x in rest {
          var i :| 0 <= i < |rest| && rest[i] == x;
          assert ids[i + 1] == x;
        }
      }
      DescendingInterval(rest, lo, hi - 1);
    }
  }

  class TaskManager {
    var tasks: Table
    var nextID: int
    ghost var orders: seq<Order>

    ghost predicate Valid()
      reads this
    {
      Holds(tasks, nextID, orders)
    }

    constructor ()
      ensures Valid() && orders == []
    {
      tasks, nextID, orders := map[], 1, [];
    }

    /** Creates a task; when there are too many the oldest goes. */
    method NewTask(kind: string, operatorID: int, operator: string, now: int) returns (task: Task)
      requires Valid()
      modifies this
      ensures Valid()
      ensures orders == old(orders) + [Order(kind, operatorID, operator, now)]
      ensures task == Task(old(nextID), kind, "running", now, operatorID, operator)
      ensures task.id in tasks && tasks[task.id] == task
    {
      ghost var o := Order(kind, operatorID, operator, now);
      CreateHolds(tasks, nextID, orders, o);
      task := Task(nextID, kind, "running", now, operatorID, operator);
      nextID := nextID + 1;
      tasks := tasks[task.id := task];
      orders := orders + [o];
      if |tasks| > CAPACITY {
        var oldest := Oldest(tasks.Keys);
        tasks := tasks - {oldest};
      }
      assert tasks == Create(old(tasks), old(nextID), o);
    }

    /** The ids of the table, sorted in place from newest to oldest. */
    method SortedIds() returns (ids: seq<int>)
      requires Valid()
      ensures |ids| == |tasks| && (forall x :: x in ids <==> x in tasks)
      ensures forall i :: 0 <= i < |ids| ==> ids[i] == nextID - 1 - i
    {
      var order := RangeOver(tasks.Keys);
      var a := new int[|order|](i requires 0 <= i < |order| => order[i]);
      assert a[..] == order;
      SortDescending(a);
      ids := a[..];
      SortedKeys(ids, order, tasks.Keys);
      DescendingInterval(ids, Low(nextID), nextID);
      assert |tasks| == |tasks.Keys|;
    }

    /** The newest `limit` tasks, 10 of them when the limit is out of range. */
    method ListTasks(limit: int) returns (out: seq<Task>)
      requires Valid()
      ensures |out| == Min(if limit <= 0 || limit > 50 then 10 else limit, |tasks|)
      ensures forall i :: 0 <= i < |out| ==>
        nextID - 1 - i in tasks && out[i] == tasks[nextID - 1 - i] && out[i].id == nextID - 1 - i
    {
      var bound := if limit <= 0 || limit > CAPACITY then DEFAULT_LIMIT else limit;
      var ids := SortedIds();
      out := [];
      for i := 0 to |ids|
        invariant |out| == Min(bound, i)
        invariant forall j :: 0 <= j < |out| ==> nextID - 1 - j in tasks && out[j] == tasks[nextID - 1 - j]
      {
        if |out| >= bound {
          break;
        }
        assert ids[i] in tasks;
        out := out + [tasks[ids[i]]];
      }
    }
  }

  // ---- Any number of creations ----

  function CreateAll(orders: seq<Order>): Table
    decreases orders
  {
    if orders == [] then map[] else Create(CreateAll(orders[..|orders|-1]), |orders|, orders[|orders|-1])
  }

  /** After any sequence of creations the table holds exactly the newest 50, unchanged: the ones numbered from
      the 50th last on, each with what was asked for, and running. */
  lemma {:induction false} TableAfter(orders: seq<Order>)
    ensures Holds(CreateAll(orders), |orders| + 1, orders)
    ensures forall id :: id in CreateAll(orders) <==> 1 <= id <= |orders| && id > |orders| - 50
    ensures forall id :: id in CreateAll(orders) ==>
      var o := orders[id - 1];
      CreateAll(orders)[id] == Task(id, o.kind, "running", o.now, o.operatorID, o.operator)
    decreases orders
  {
    if orders == [] {
    } else {
      var front, last := orders[..|orders|-1], orders[|orders|-1];
      assert front + [last] == orders;
      TableAfter(front);
      CreateHolds(CreateAll(front), |orders|, front, last);
    }
  }
}
