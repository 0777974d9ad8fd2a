/** The provider timetable, a java.util.TreeMap<LocalDateTime, Boolean> whose flag is
    true for a free slot and false for a booked one. A TreeMap keeps its keys sorted,
    so it is modelled as the ascending key sequence together with the key-to-flag map;
    the subset type `TreeMap` carries the invariant that the two agree. */
module Timetables {
  import opened Time

  datatype Table = Table(keys: seq<DateTime>, flags: map<DateTime, bool>)

  /** The keys are listed once each, in ascending order, and are exactly the map's keys. */
  predicate Ordered(t: Table) {
    StrictlyIncreasing(t.keys) && t.flags.Keys == set k | k in t.keys
  }

  type TreeMap = t: Table | Ordered(t) witness Table([], map[])

  /** `new TreeMap<>()`. */
  function Empty(): (t: TreeMap)
    ensures t.flags == map[] && t.keys == []
  {
    Table([], map[])
  }

  /** `s` with `k` inserted at its sorted position. */
  function InsertKey(s: seq<DateTime>, k: DateTime): (r: seq<DateTime>)
    requires StrictlyIncreasing(s) && k !in s
    ensures StrictlyIncreasing(r)
    ensures forall x :: x in r <==> x in s || x == k
    ensures |r| == |s| + 1
  {
    if s == [] then [k]
    else if Before(k, s[0]) then
      assert forall y :: y in s ==> Before(k, y) by {
        forall y | y in s ensures Before(k, y) {
          var i :| 0 <= i < |s| && s[i] == y;
          if i > 0 { BeforeIsStrictTotalOrder(k, s[0], y); }
        }
      }
      PrependIncreasing(k, s);
      [k] + s
    else
      BeforeIsStrictTotalOrder(k, s[0], k);
      var r := InsertKey(s[1..], k);
      assert forall y :: y in r ==> Before(s[0], y) by {
        forall y | y in r ensures Before(s[0], y) {
          if y != k {
            var i :| 1 <= i < |s| && s[i] == y;
          }
        }
      }
      PrependIncreasing(s[0], r);
      [s[0]] + r
  }

  /** An element below everything in an ascending sequence can go in front of it. */
  lemma PrependIncreasing(x: DateTime, s: seq<DateTime>)
    requires StrictlyIncreasing(s)
    requires forall y :: y in s ==> Before(x, y)
    ensures StrictlyIncreasing([x] + s)
  {
    forall i, j | 0 <= i < j < |[x] + s|
      ensures Before(([x] + s)[i], ([x] + s)[j])
    {
      if i == 0 { assert ([x] + s)[j] == s[j - 1]; assert s[j - 1] in s; }
    }
  }

  /** The head of an ascending sequence can go in front of any selection of its tail. */
  lemma PrependHead(keys: seq<DateTime>, rest: seq<DateTime>)
    requires |keys| > 0
    requires forall y :: y in rest ==> y in keys[1..]
    requires StrictlyIncreasing(keys) ==> StrictlyIncreasing(rest)
    ensures StrictlyIncreasing(keys) ==> StrictlyIncreasing([keys[0]] + rest)
  {
    if StrictlyIncreasing(keys) {
      forall y | y in rest ensures Before(keys[0], y) {
        var i :| 1 <= i < |keys| && keys[i] == y;
      }
      PrependIncreasing(keys[0], rest);
    }
  }

  /** TreeMap.put: the flag of `k` becomes `v`; a new key takes its place in the order. */
  function Put(t: TreeMap, k: DateTime, v: bool): (r: TreeMap)
    ensures r.flags == t.flags[k := v]
    ensures k in t.flags ==> r.keys == t.keys
    ensures k !in t.flags ==> |r.keys| == |t.keys| + 1
  {
    if k in t.flags then
      Table(t.keys, t.flags[k := v])
    else
      var keys := InsertKey(t.keys, k);
      assert (set x | x in keys) == (set x | x in t.keys) + {k};
      Table(keys, t.flags[k := v])
  }

  /** TreeMap.getOrDefault. */
  function GetOrDefault(t: TreeMap, k: DateTime, default: bool): (r: bool)
    ensures k in t.flags ==> r == t.flags[k]
    ensures k !in t.flags ==> r == default
  {
    if k in t.flags then t.flags[k] else default
  }

  /** The slot at `k` exists and is free. */
  predicate IsFree(t: TreeMap, k: DateTime) {
    k in t.flags && t.flags[k]
  }

  /** The slots that are booked. */
  function Occupied(t: TreeMap): set<DateTime> {
    set k | k in t.flags && !t.flags[k]
  }

  /** Marks a slot free if it is a key, and does nothing otherwise (freeAppointment). */
  function Release(t: TreeMap, k: DateTime): (r: TreeMap)
    ensures r.keys == t.keys
    ensures k in t.flags ==> r.flags == t.flags[k := true]
    ensures k !in t.flags ==> r == t
  {
    if k in t.flags then Put(t, k, true) else t
  }

  /** The free keys among `keys`, in the order of `keys` (a filter over the entry stream). */
  function FreeIn(keys: seq<DateTime>, flags: map<DateTime, bool>): (r: seq<DateTime>)
    requires forall k :: k in keys ==> k in flags
    ensures forall x :: x in r <==> x in keys && flags[x]
    ensures StrictlyIncreasing(keys) ==> StrictlyIncreasing(r)
  {
    if keys == [] then []
    else
      var rest := FreeIn(keys[1..], flags);
      if flags[keys[0]] then
        PrependHead(keys, rest);
        [keys[0]] + rest
      else
        rest
  }

  /** The free slots in ascending time order. */
  function FreeKeys(t: TreeMap): (r: seq<DateTime>)
    ensures StrictlyIncreasing(r)
    ensures forall x :: x in r <==> IsFree(t, x)
  {
    assert forall k :: k in t.keys ==> k in t.flags;
    FreeIn(t.keys, t.flags)
  }

  /** Two ascending sequences with the same elements are the same sequence, so "the free
      keys in ascending order" determines the list uniquely. */
  lemma {:induction false} AscendingIsUnique(a: seq<DateTime>, b: seq<DateTime>)
    requires StrictlyIncreasing(a) && StrictlyIncreasing(b)
    requires forall x :: x in a <==> x in b
    ensures a == b
  {
    if a != [] {
      assert a[0] in b;
      assert b != [];
      assert b[0] in a;
      var i :| 0 <= i < |a| && a[i] == b[0];
      var j :| 0 <= j < |b| && b[j] == a[0];
      if i > 0 && j > 0 {
        BeforeIsStrictTotalOrder(a[0], b[0], a[0]);
        assert false;
      }
      assert a[0] == b[0];
      forall x
        ensures x in a[1..] <==> x in b[1..]
      {
        if x in a[1..] {
          var k :| 1 <= k < |a| && a[k] == x;
          assert Before(a[0], x);
          BeforeIsStrictTotalOrder(a[0], x, a[0]);
          assert x in b && x != b[0];
        }
        if x in b[1..] {
          var k :| 1 <= k < |b| && b[k] == x;
          assert Before(b[0], x);
          BeforeIsStrictTotalOrder(b[0], x, b[0]);
          assert x in a && x != a[0];
        }
      }
      AscendingIsUnique(a[1..], b[1..]);
      assert a == [a[0]] + a[1..] && b == [b[0]] + b[1..];
    } else if b != [] {
      HeadIsElement(b);
      assert false;
    }
  }

  /** The first element of a non-empty list is one of its elements; called where the
      verifier would otherwise not see a witness that the list has an element. */
  lemma HeadIsElement(s: seq<DateTime>)
    requires s != []
    ensures s[0] in s
  {
  }

  /** Booking a free slot occupies exactly that slot: the occupied count grows by one. */
  lemma OccupyAddsOne(t: TreeMap, k: DateTime)
    requires IsFree(t, k)
    ensures Occupied(Put(t, k, false)) == Occupied(t) + {k}
    ensures |Occupied(Put(t, k, false))| == |Occupied(t)| + 1
  {
    assert Occupied(Put(t, k, false)) == Occupied(t) + {k};
  }

  /** Freeing a booked slot frees exactly that slot: the occupied count shrinks by one. */
  lemma ReleaseRemovesOne(t: TreeMap, k: DateTime)
    requires k in t.flags && !t.flags[k]
    ensures Occupied(Release(t, k)) == Occupied(t) - {k}
    ensures |Occupied(Release(t, k))| == |Occupied(t)| - 1
  {
    assert Occupied(Release(t, k)) == Occupied(t) - {k};
  }

  /** Freeing never adds keys and is idempotent. */
  lemma ReleaseIdempotent(t: TreeMap, k: DateTime)
    ensures Release(t, k).flags.Keys == t.flags.Keys
    ensures Release(Release(t, k), k) == Release(t, k)
  {
  }

  /** Booking a free slot and freeing it again restores the timetable. */
  lemma ReleaseUndoesOccupy(t: TreeMap, k: DateTime)
    requires IsFree(t, k)
    ensures Release(Put(t, k, false), k) == t
  {
    assert t.flags[k := false][k := true] == t.flags;
  }
}
