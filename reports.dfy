/** The functions behind the clinic's two report queries: bookings grouped by the
    provider of their current treatment, and providers ranked by how many of their
    bookings were attended. Providers are identified by id, as the provider's equals and
    hashCode do. */
module Reports {
  import opened BookingStatus
  import opened Bookings

  /** The id of the provider of the booking's current treatment. */
  function ProviderId(b: Booking): string
    reads b
  {
    b.treatment.physiotherapist.id
  }

  /** `order` lists every key of the table once: the iteration order of a hash map. */
  ghost predicate IsOrderOf(order: seq<string>, keys: set<string>) {
    && (forall i, j :: 0 <= i < j < |order| ==> order[i] != order[j])
    && (forall k :: k in keys <==> k in order)
  }

  /** The stored bookings, in the order `order` visits their keys (values().stream()). */
  function ValuesInOrder(m: map<string, Booking>, order: seq<string>): (vs: seq<Booking>)
    requires forall k :: k in order ==> k in m
    ensures |vs| == |order|
    ensures forall i :: 0 <= i < |order| ==> vs[i] == m[order[i]]
  {
    if order == [] then []
    else ValuesInOrder(m, order[..|order| - 1]) + [m[order[|order| - 1]]]
  }

  /** The bookings of `bs` whose provider has id `pid`, in the order of `bs`. */
  function Filter(bs: seq<Booking>, pid: string): (r: seq<Booking>)
    reads bs
    ensures |r| <= |bs|
    ensures forall x :: x in r ==> x in bs && ProviderId(x) == pid
  {
    if bs == [] then []
    else
      var last := bs[|bs| - 1];
      Filter(bs[..|bs| - 1], pid) + (if ProviderId(last) == pid then [last] else [])
  }

  /** Every booking occurs in the group of its own provider as often as in `bs`, and in
      no other group: the groups partition `bs`. */
  lemma {:induction false} FilterPartitions(bs: seq<Booking>, pid: string, x: Booking)
    ensures multiset(Filter(bs, pid))[x] == if ProviderId(x) == pid then multiset(bs)[x] else 0
  {
    if bs != [] {
      var init := bs[..|bs| - 1];
      assert bs == init + [bs[|bs| - 1]];
      FilterPartitions(init, pid, x);
    }
  }

  /** Collectors.groupingBy on the provider: each booking in encounter order is appended
      to the list of its provider, which is created on first use. A provider has a group
      exactly when some booking is its, and the group is that provider's bookings in
      encounter order. */
  function GroupBy(bs: seq<Booking>): (g: map<string, seq<Booking>>)
    reads bs
    ensures forall pid :: pid in g <==> Filter(bs, pid) != []
    ensures forall pid :: pid in g ==> g[pid] == Filter(bs, pid)
  {
    if bs == [] then map[]
    else
      var last := bs[|bs| - 1];
      var g := GroupBy(bs[..|bs| - 1]);
      var pid := ProviderId(last);
      g[pid := (if pid in g then g[pid] else []) + [last]]
  }

  /** A provider's group is non-empty exactly when one of the bookings is its. */
  lemma {:induction false} FilterNonEmpty(bs: seq<Booking>, pid: string)
    ensures Filter(bs, pid) != [] <==> exists i :: 0 <= i < |bs| && ProviderId(bs[i]) == pid
  {
    if bs != [] {
      var init := bs[..|bs| - 1];
      FilterNonEmpty(init, pid);
      if exists i :: 0 <= i < |init| && ProviderId(init[i]) == pid {
        var i :| 0 <= i < |init| && ProviderId(init[i]) == pid;
        assert bs[i] == init[i];
      }
      if exists i :: 0 <= i < |bs| && ProviderId(bs[i]) == pid {
        var i :| 0 <= i < |bs| && ProviderId(bs[i]) == pid;
        if i < |init| {
          assert init[i] == bs[i];
        }
      }
    }
  }

  /** The ATTENDED bookings of `bs`, in order: exactly the ATTENDED members. */
  function AttendedBookings(bs: seq<Booking>): (r: seq<Booking>)
    reads bs
    ensures forall x :: x in r ==> x in bs && x.status == Attended
    ensures forall x :: x in bs && x.status == Attended ==> x in r
  {
    if bs == [] then []
    else
      var last := bs[|bs| - 1];
      AttendedBookings(bs[..|bs| - 1]) + (if last.status == Attended then [last] else [])
  }

  /** The ATTENDED filter keeps every occurrence of an ATTENDED booking and none of the
      others. */
  lemma {:induction false} AttendedPartitions(bs: seq<Booking>, x: Booking)
    ensures multiset(AttendedBookings(bs))[x] == if x.status == Attended then multiset(bs)[x] else 0
  {
    if bs != [] {
      var init := bs[..|bs| - 1];
      assert bs == init + [bs[|bs| - 1]];
      AttendedPartitions(init, x);
    }
  }

  /** The number of ATTENDED bookings of `bs` with provider `pid`. */
  function AttendedCount(bs: seq<Booking>, pid: string): (r: nat)
    reads bs
    ensures r <= |bs|
    ensures r == 0 <==> forall i :: 0 <= i < |bs| ==> !(bs[i].status == Attended && ProviderId(bs[i]) == pid)
  {
    if bs == [] then 0
    else
      var last := bs[|bs| - 1];
      AttendedCount(bs[..|bs| - 1], pid) + (if last.status == Attended && ProviderId(last) == pid then 1 else 0)
  }

  /** The attended count of a provider is the number of ATTENDED bookings in its group. */
  lemma {:induction false} AttendedCountOfGroup(bs: seq<Booking>, pid: string)
    ensures AttendedCount(bs, pid) == |AttendedBookings(Filter(bs, pid))|
  {
    if bs != [] {
      var init := bs[..|bs| - 1];
      var last := bs[|bs| - 1];
      AttendedCountOfGroup(init, pid);
      var f := Filter(init, pid);
      if ProviderId(last) == pid {
        var t := f + [last];
        assert Filter(bs, pid) == t;
        assert t[..|t| - 1] == f;
        assert |AttendedBookings(t)| == |AttendedBookings(f)| + (if last.status == Attended then 1 else 0);
      } else {
        assert Filter(bs, pid) == f;
      }
    }
  }

  /** ... and the number of its bookings among the ATTENDED ones. */
  lemma {:induction false} AttendedCountOfAttended(bs: seq<Booking>, pid: string)
    ensures AttendedCount(bs, pid) == |Filter(AttendedBookings(bs), pid)|
  {
    if bs != [] {
      var init := bs[..|bs| - 1];
      var last := bs[|bs| - 1];
      AttendedCountOfAttended(init, pid);
      var a := AttendedBookings(init);
      if last.status == Attended {
        var t := a + [last];
        assert AttendedBookings(bs) == t;
        assert t[..|t| - 1] == a;
        assert |Filter(t, pid)| == |Filter(a, pid)| + (if ProviderId(last) == pid then 1 else 0);
      } else {
        assert AttendedBookings(bs) == a;
      }
    }
  }

  /** Collectors.groupingBy(provider, counting()) over the ATTENDED bookings: a provider
      has an entry exactly when it has an attended booking, and the entry is the count. */
  function CountAttended(bs: seq<Booking>): (m: map<string, nat>)
    reads bs
    ensures forall pid :: pid in m <==> AttendedCount(bs, pid) >= 1
    ensures forall pid :: pid in m ==> m[pid] == AttendedCount(bs, pid)
  {
    if bs == [] then map[]
    else
      var last := bs[|bs| - 1];
      var m := CountAttended(bs[..|bs| - 1]);
      if last.status == Attended then
        var pid := ProviderId(last);
        m[pid := (if pid in m then m[pid] else 0) + 1]
      else
        m
  }

  /** Counts that never increase along the list. */
  predicate NonIncreasing(r: seq<(string, nat)>) {
    forall i, j :: 0 <= i < j < |r| ==> r[i].1 >= r[j].1
  }

  /** Putting an entry in front of a non-increasing list keeps it so when the entry's
      count bounds every count in the list. */
  lemma ConsNonIncreasing(x: (string, nat), r: seq<(string, nat)>)
    requires NonIncreasing(r)
    requires forall y :: y in r ==> y.1 <= x.1
    ensures NonIncreasing([x] + r)
  {
    var s := [x] + r;
    forall i, j | 0 <= i < j < |s| ensures s[i].1 >= s[j].1 {
      if i == 0 {
        assert s[j] == r[j - 1] && r[j - 1] in r;
      } else {
        assert s[i] == r[i - 1] && s[j] == r[j - 1];
      }
    }
  }

  /** No id occurs twice. */
  predicate DistinctKeys(r: seq<(string, nat)>) {
    forall i, j :: 0 <= i < j < |r| ==> r[i].0 != r[j].0
  }

  lemma ConsDistinct(x: (string, nat), r: seq<(string, nat)>)
    requires DistinctKeys(r)
    requires forall y :: y in r ==> y.0 != x.0
    ensures DistinctKeys([x] + r)
  {
    var s := [x] + r;
    forall i, j | 0 <= i < j < |s| ensures s[i].0 != s[j].0 {
      if i == 0 {
        assert s[j] == r[j - 1] && r[j - 1] in r;
      } else {
        assert s[i] == r[i - 1] && s[j] == r[j - 1];
      }
    }
  }

  /** In a non-increasing list the first count bounds all the others, and the rest of
      the list is non-increasing too. */
  lemma HeadIsMax(r: seq<(string, nat)>)
    requires NonIncreasing(r) && r != []
    ensures forall y :: y in r ==> y.1 <= r[0].1
    ensures NonIncreasing(r[1..])
  {
    forall y | y in r ensures y.1 <= r[0].1 {
      var j :| 0 <= j < |r| && r[j] == y;
    }
    var tail := r[1..];
    forall i, j | 0 <= i < j < |tail| ensures tail[i].1 >= tail[j].1 {
      assert tail[i] == r[i + 1] && tail[j] == r[j + 1];
    }
  }

  /** Stable insertion into a list sorted by non-increasing count: the new entry goes
      after every entry whose count is at least its own, as a stable sort on the
      reversed count comparator places it. */
  function InsertByCount(r: seq<(string, nat)>, e: (string, nat)): (s: seq<(string, nat)>)
    requires NonIncreasing(r)
    ensures NonIncreasing(s)
    ensures multiset(s) == multiset(r) + multiset{e}
    ensures forall x :: x in s <==> x in r || x == e
  {
    if r == [] then [e]
    else
      HeadIsMax(r);
      if r[0].1 >= e.1 then
        var rest := InsertByCount(r[1..], e);
        assert r == [r[0]] + r[1..];
        assert forall y :: y in r[1..] ==> y in r;
        ConsNonIncreasing(r[0], rest);
        [r[0]] + rest
      else
        ConsNonIncreasing(e, r);
        [e] + r
  }

  /** Inserting an entry whose id is not yet ranked keeps the ids distinct. */
  lemma {:induction false} InsertKeepsDistinct(r: seq<(string, nat)>, e: (string, nat))
    requires NonIncreasing(r) && DistinctKeys(r)
    requires forall x :: x in r ==> x.0 != e.0
    ensures DistinctKeys(InsertByCount(r, e))
  {
    if r != [] {
      if r[0].1 >= e.1 {
        var tail := r[1..];
        assert NonIncreasing(tail) by {
          forall i, j | 0 <= i < j < |tail| ensures tail[i].1 >= tail[j].1 {
            assert tail[i] == r[i + 1] && tail[j] == r[j + 1];
          }
        }
        assert DistinctKeys(tail) by {
          forall i, j | 0 <= i < j < |tail| ensures tail[i].0 != tail[j].0 {
            assert tail[i] == r[i + 1] && tail[j] == r[j + 1];
          }
        }
        assert forall x :: x in tail ==> x in r;
        InsertKeepsDistinct(tail, e);
        var rest := InsertByCount(tail, e);
        assert forall y :: y in rest ==> y.0 != r[0].0 by {
          forall y | y in rest ensures y.0 != r[0].0 {
            if y != e {
              var j :| 0 <= j < |tail| && tail[j] == y;
              assert r[j + 1] == y;
            }
          }
        }
        ConsDistinct(r[0], rest);
      } else {
        ConsDistinct(e, r);
      }
    }
  }

  /** Sorting the count entries, visited in the order `keys`: each one is inserted in
      turn, as a stable sort of that sequence by non-increasing count produces them. */
  function Rank(counts: map<string, nat>, keys: seq<string>): (r: seq<(string, nat)>)
    requires forall k :: k in keys ==> k in counts
    ensures NonIncreasing(r)
  {
    if keys == [] then []
    else
      var k := keys[|keys| - 1];
      InsertByCount(Rank(counts, keys[..|keys| - 1]), (k, counts[k]))
  }

  /** The ranking of distinct keys holds exactly their entries, each id once. */
  lemma {:induction false} RankEntries(counts: map<string, nat>, keys: seq<string>)
    requires forall k :: k in keys ==> k in counts
    requires forall i, j :: 0 <= i < j < |keys| ==> keys[i] != keys[j]
    ensures forall e :: e in Rank(counts, keys) <==> e.0 in keys && e.1 == counts[e.0]
    ensures DistinctKeys(Rank(counts, keys))
  {
    if keys != [] {
      var init := keys[..|keys| - 1];
      var k := keys[|keys| - 1];
      RankEntries(counts, init);
      var prev := Rank(counts, init);
      assert k !in init;
      InsertKeepsDistinct(prev, (k, counts[k]));
      assert forall x :: x in keys <==> x in init || x == k by {
        assert keys == init + [k];
      }
    }
  }

  /** The values visited in a complete order of the keys are the table's values. */
  lemma ValuesInOrderMembers(m: map<string, Booking>, order: seq<string>)
    requires IsOrderOf(order, m.Keys)
    ensures forall x :: x in ValuesInOrder(m, order) <==> x in m.Values
  {
    var vs := ValuesInOrder(m, order);
    forall x | x in m.Values ensures x in vs {
      var k :| k in m && m[k] == x;
      var i :| 0 <= i < |order| && order[i] == k;
      assert vs[i] == x;
    }
  }

  /** A group holds exactly the bookings of its provider, and every provider of some
      booking has a group. */
  lemma GroupMembers(bs: seq<Booking>)
    ensures forall pid :: pid in GroupBy(bs) <==> exists x :: x in bs && ProviderId(x) == pid
    ensures forall pid, x :: pid in GroupBy(bs) && x in GroupBy(bs)[pid] ==> x in bs && ProviderId(x) == pid
    ensures forall x :: x in bs ==> ProviderId(x) in GroupBy(bs) && x in GroupBy(bs)[ProviderId(x)]
  {
    forall x | x in bs ensures ProviderId(x) in GroupBy(bs) && x in GroupBy(bs)[ProviderId(x)] {
      FilterNonEmpty(bs, ProviderId(x));
      FilterPartitions(bs, ProviderId(x), x);
    }
    forall pid ensures pid in GroupBy(bs) <==> exists x :: x in bs && ProviderId(x) == pid {
      FilterNonEmpty(bs, pid);
    }
  }
}
