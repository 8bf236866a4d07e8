/**
  Class ids: handed out from a counter, returned by lowering the counter. The counter is never
  checked against the ids still in use, so distinctness is conditional; the conditions are exact.
 */
module QosAllocator {
  import opened Basics

  const FIRST_CLASS_ID := 2

  datatype Alloc = Alloc(ids: map<string, int>, nextID: int)

  function ClassID(a: Alloc, name: string): Alloc {
    if name in a.ids then a else Alloc(a.ids[name := a.nextID], a.nextID + 1)
  }

  function Release(a: Alloc, name: string): Alloc {
    if name in a.ids then Alloc(a.ids - {name}, Min(a.ids[name], a.nextID)) else a
  }

  function AssignAll(a: Alloc, names: seq<string>): Alloc
    decreases names
  {
    if names == [] then a else ClassID(AssignAll(a, names[..|names|-1]), names[|names|-1])
  }

  function ReleaseAll(a: Alloc, names: seq<string>): Alloc
    decreases names
  {
    if names == [] then a else Release(ReleaseAll(a, names[..|names|-1]), names[|names|-1])
  }

  ghost predicate Injective(a: Alloc) {
    forall n, m :: n in a.ids && m in a.ids && n != m ==> a.ids[n] != a.ids[m]
  }

  ghost predicate FromTwo(a: Alloc) {
    a.nextID >= FIRST_CLASS_ID && forall n :: n in a.ids ==> a.ids[n] >= FIRST_CLASS_ID
  }

  /** Every live id is below the counter. */
  ghost predicate Compact(a: Alloc) {
    forall n :: n in a.ids ==> a.ids[n] < a.nextID
  }

  ghost function NewNames(a: Alloc, names: seq<string>): set<string> {
    set n | n in names && n !in a.ids
  }

  /** The block of ids that `count` admissions will use holds no live id. */
  ghost predicate Room(a: Alloc, count: nat) {
    forall n :: n in a.ids ==> !(a.nextID <= a.ids[n] < a.nextID + count)
  }

  /** The names hold different ids, all from `lo` up and below the counter. */
  ghost predicate Spread(lo: int, names: set<string>, b: Alloc) {
    && (forall n :: n in names ==> n in b.ids && lo <= b.ids[n] < b.nextID)
    && (forall n, m :: n in names && m in names && n != m ==> b.ids[n] != b.ids[m])
  }

  ghost predicate HoldsId(b: Alloc, names: set<string>, i: int) {
    exists n :: n in names && n in b.ids && b.ids[n] == i
  }

  ghost predicate Fills(lo: int, names: set<string>, b: Alloc) {
    forall i :: lo <= i < b.nextID ==> HoldsId(b, names, i)
  }

  /** `b` extends `a` by ids for exactly the names in `added`, no two alike, filling the block of
      ids from `a`'s counter to `b`'s. */
  ghost predicate Extends(a: Alloc, added: set<string>, b: Alloc) {
    && added !! a.ids.Keys
    && b.ids.Keys == a.ids.Keys + added
    && (forall n :: n in a.ids ==> b.ids[n] == a.ids[n])
    && b.nextID == a.nextID + |added|
    && Spread(a.nextID, added, b)
    && Fills(a.nextID, added, b)
  }

  lemma SpreadStep(lo: int, added: set<string>, b: Alloc, name: string)
    requires Spread(lo, added, b) && lo <= b.nextID
    requires name !in b.ids
    ensures Spread(lo, added + {name}, ClassID(b, name))
  {
  }

  lemma BlockStep(lo: int, added: set<string>, b: Alloc, name: string)
    requires Fills(lo, added, b)
    requires name !in b.ids
    ensures Fills(lo, added + {name}, ClassID(b, name))
  {
    var c := ClassID(b, name);
    forall i | lo <= i < c.nextID
      ensures HoldsId(c, added + {name}, i)
    {
      if i == b.nextID {
        assert c.ids[name] == i;
      } else {
        assert HoldsId(b, added, i);
        var n :| n in added && n in b.ids && b.ids[n] == i;
        assert c.ids[n] == i;
      }
    }
  }

  lemma ExtendsStep(a: Alloc, added: set<string>, b: Alloc, name: string)
    requires Extends(a, added, b)
    requires name !in b.ids
    ensures Extends(a, added + {name}, ClassID(b, name))
  {
    var c := ClassID(b, name);
    assert c.ids == b.ids[name := b.nextID];
    var more := added + {name};
    assert more !! a.ids.Keys;
    assert c.ids.Keys == a.ids.Keys + more;
    assert |more| == |added| + 1;
    SpreadStep(a.nextID, added, b, name);
    BlockStep(a.nextID, added, b, name);
  }

  lemma NewNamesStep(a: Alloc, names: seq<string>)
    requires names != []
    ensures var front, last := names[..|names|-1], names[|names|-1];
      NewNames(a, names) ==
      NewNames(a, front) + (if last in a.ids.Keys + NewNames(a, front) then {} else {last})
  {
    assert forall n :: n in names <==> n in names[..|names|-1] || n == names[|names|-1];
  }

  /** Names that have an id keep it; new names, and no others, get the next ids in turn. */
  lemma {:induction false} AssignAllShape(a: Alloc, names: seq<string>)
    ensures Extends(a, NewNames(a, names), AssignAll(a, names))
    decreases names
  {
    if names == [] {
      assert NewNames(a, names) == {};
    } else {
      var front, last := names[..|names|-1], names[|names|-1];
      AssignAllShape(a, front);
      NewNamesStep(a, names);
      if last !in AssignAll(a, front).ids {
        ExtendsStep(a, NewNames(a, front), AssignAll(a, front), last);
      }
    }
  }

  /** Admitting names to distinct ids keeps them distinct exactly when there is room. */
  lemma AdmissionExact(a: Alloc, added: set<string>, b: Alloc)
    requires Injective(a) && Extends(a, added, b)
    ensures Injective(b) <==> Room(a, |added|)
  {
    if Room(a, |added|) {
      forall n, m | n in b.ids && m in b.ids && n != m
        ensures b.ids[n] != b.ids[m]
      {
        if n in a.ids && m !in a.ids {
          assert m in added;
        } else if m in a.ids && n !in a.ids {
          assert n in added;
        }
      }
    } else {
      var n :| n in a.ids && a.nextID <= a.ids[n] < a.nextID + |added|;
      assert HoldsId(b, added, a.ids[n]);
      var m :| m in added && m in b.ids && b.ids[m] == a.ids[n];
      assert b.ids[n] == b.ids[m];
    }
  }

  /** A compact, injective allocator always has room, and admission keeps it so. */
  lemma CompactAdmits(a: Alloc, added: set<string>, b: Alloc)
    requires Injective(a) && Compact(a) && Extends(a, added, b)
    ensures Room(a, |added|) && Injective(b) && Compact(b)
  {
    AdmissionExact(a, added, b);
    forall n | n in b.ids
      ensures b.ids[n] < b.nextID
    {
      if n !in a.ids {
        assert n in added;
      }
    }
  }

  ghost function Held(a: Alloc, names: seq<string>): set<string> {
    set n | n in names && n in a.ids
  }

  /** A batch of releases takes the counter to the least of itself and the released ids. */
  lemma {:induction false} ReleaseAllShape(a: Alloc, names: seq<string>)
    ensures var b := ReleaseAll(a, names);
      && b.ids == a.ids - Held(a, names)
      && b.nextID <= a.nextID
      && (forall r :: r in Held(a, names) ==> b.nextID <= a.ids[r])
      && (b.nextID == a.nextID || exists r :: r in Held(a, names) && b.nextID == a.ids[r])
    decreases names
  {
    if names == [] {
      assert Held(a, names) == {};
      assert a.ids - {} == a.ids;
    } else {
      var front, last := names[..|names|-1], names[|names|-1];
      ReleaseAllShape(a, front);
      assert forall n :: n in names <==> n in front || n == last;
      var mid, b := ReleaseAll(a, front), ReleaseAll(a, names);
      if last in mid.ids {
        assert Held(a, names) == Held(a, front) + {last};
        assert b.ids == a.ids - Held(a, names);
        if b.nextID != a.nextID {
          if mid.ids[last] < mid.nextID {
            assert last in Held(a, names) && b.nextID == a.ids[last];
          } else {
            var r :| r in Held(a, front) && mid.nextID == a.ids[r];
            assert r in Held(a, names);
          }
        }
      } else {
        assert Held(a, names) == Held(a, front);
      }
    }
  }

  /** The order in which a set of names is released does not matter. */
  lemma ReleaseOrderIrrelevant(a: Alloc, o1: seq<string>, o2: seq<string>)
    requires forall n :: n in o1 <==> n in o2
    ensures ReleaseAll(a, o1) == ReleaseAll(a, o2)
  {
    ReleaseAllShape(a, o1);
    ReleaseAllShape(a, o2);
    assert Held(a, o1) == Held(a, o2);
  }

  /** Releasing keeps ids distinct; it keeps them below the counter exactly when the released ids
      lie above every id that stays. */
  lemma ReleaseExact(a: Alloc, names: seq<string>)
    requires Injective(a) && Compact(a)
    ensures Injective(ReleaseAll(a, names))
    ensures Compact(ReleaseAll(a, names)) <==>
            forall r, n :: r in Held(a, names) && n in a.ids && n !in Held(a, names) ==> a.ids[n] < a.ids[r]
  {
    ReleaseAllShape(a, names);
    var b := ReleaseAll(a, names);
    if Compact(b) {
      forall r, n | r in Held(a, names) && n in a.ids && n !in Held(a, names)
        ensures a.ids[n] < a.ids[r]
      {
        assert n in b.ids;
      }
    }
  }

  /** Both operations keep ids from 2 up, whatever the state. */
  lemma FromTwoKept(a: Alloc, added: set<string>, b: Alloc, released: seq<string>)
    requires FromTwo(a) && Extends(a, added, b)
    ensures FromTwo(b) && FromTwo(ReleaseAll(b, released))
  {
    forall n | n in b.ids
      ensures b.ids[n] >= FIRST_CLASS_ID
    {
      if n !in a.ids {
        assert n in added;
      }
    }
    ReleaseAllShape(b, released);
  }

  lemma ExtendsNothing(a: Alloc)
    ensures Extends(a, {}, a)
  {
  }

  lemma JoinSize(had: set<string>, x: set<string>, y: set<string>)
    requires had !! x && y !! had + x
    ensures had !! x + y && |x + y| == |x| + |y|
    ensures had + x + y == had + (x + y)
  {
  }

  lemma SpreadJoin(lo: int, x: set<string>, b: Alloc, y: set<string>, c: Alloc)
    requires Spread(lo, x, b) && Spread(b.nextID, y, c) && lo <= b.nextID <= c.nextID
    requires forall n :: n in b.ids ==> n in c.ids && c.ids[n] == b.ids[n]
    ensures Spread(lo, x + y, c)
  {
    forall n, m | n in x + y && m in x + y && n != m
      ensures n in c.ids && m in c.ids && c.ids[n] != c.ids[m]
    {
    }
  }

  lemma FillsJoin(lo: int, x: set<string>, b: Alloc, y: set<string>, c: Alloc)
    requires Fills(lo, x, b) && Fills(b.nextID, y, c)
    requires forall n :: n in b.ids ==> n in c.ids && c.ids[n] == b.ids[n]
    ensures Fills(lo, x + y, c)
  {
    forall i | lo <= i < c.nextID
      ensures HoldsId(c, x + y, i)
    {
      if i < b.nextID {
        assert HoldsId(b, x, i);
        var n :| n in x && n in b.ids && b.ids[n] == i;
        assert n in x + y && n in c.ids && c.ids[n] == i;
      } else {
        assert HoldsId(c, y, i);
        var n :| n in y && n in c.ids && c.ids[n] == i;
        assert n in x + y;
      }
    }
  }

  lemma ExtendsTwice(a: Alloc, x: set<string>, b: Alloc, y: set<string>, c: Alloc)
    requires Extends(a, x, b) && Extends(b, y, c)
    ensures Extends(a, x + y, c)
  {
    JoinSize(a.ids.Keys, x, y);
    SpreadJoin(a.nextID, x, b, y, c);
    FillsJoin(a.nextID, x, b, y, c);
  }
}
