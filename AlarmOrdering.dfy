/** The order the alarm list is kept in: weekday first, then minutes since
    midnight. The list is re-sorted with this comparator after every
    structural change. */
module AlarmOrdering {
  import opened Alarms

  /** A single number that orders alarms the same way as the comparator. */
  function Rank(a: Alarm): int
  {
    a.weekday * MinutesPerDay + MinuteOfDay(a.time)
  }

  /** `sortAlarms(_:_:)`: true when `lhs` belongs strictly before `rhs`. */
  function Precedes(lhs: Alarm, rhs: Alarm): (before: bool)
    ensures before <==> Rank(lhs) < Rank(rhs)
  {
    InstantDecomposition(lhs.time);
    InstantDecomposition(rhs.time);
    if lhs.weekday != rhs.weekday then
      lhs.weekday < rhs.weekday
    else
      var lMinutes := Hour(lhs.time) * 60 + Minute(lhs.time);
      var rMinutes := Hour(rhs.time) * 60 + Minute(rhs.time);
      lMinutes < rMinutes
  }

  /** Neither alarm precedes the other. */
  predicate Tied(a: Alarm, b: Alarm)
  {
    !Precedes(a, b) && !Precedes(b, a)
  }

  /** The comparator is a strict weak order, as `sort(by:)` demands. */
  lemma PrecedesIsStrictWeakOrder(a: Alarm, b: Alarm, c: Alarm)
    ensures !Precedes(a, a)
    ensures Precedes(a, b) ==> !Precedes(b, a)
    ensures Precedes(a, b) && Precedes(b, c) ==> Precedes(a, c)
    ensures Tied(a, b) && Tied(b, c) ==> Tied(a, c)
  {
  }

  /** No alarm is followed by one that precedes it. */
  predicate Sorted(s: seq<Alarm>)
  {
    forall i, j :: 0 <= i < j < |s| ==> !Precedes(s[j], s[i])
  }

  /** Places `x` after every element that does not come after it. */
  function Insert(x: Alarm, s: seq<Alarm>): (r: seq<Alarm>)
    requires Sorted(s)
    ensures Sorted(r)
    ensures multiset(r) == multiset(s) + multiset{x}
  {
    if s == [] then [x]
    else if Precedes(x, s[0]) then [x] + s
    else
      var tail := Insert(x, s[1..]);
      assert multiset(s) == multiset{s[0]} + multiset(s[1..]) by {
        assert s == [s[0]] + s[1..];
      }
      forall k | 0 <= k < |tail| ensures !Precedes(tail[k], s[0]) {
        assert tail[k] in multiset(tail);
        if tail[k] != x {
          assert tail[k] in s[1..];
        }
      }
      [s[0]] + tail
  }

  /** `alarms.sort(by: sortAlarms)`, modelled as a stable insertion sort:
      sorted, and a permutation of its input. */
  function SortAlarms(s: seq<Alarm>): (r: seq<Alarm>)
    ensures Sorted(r)
    ensures multiset(r) == multiset(s)
    ensures |r| == |s|
  {
    if s == [] then []
    else
      var n := |s| - 1;
      var front := SortAlarms(s[..n]);
      assert multiset(s) == multiset(s[..n]) + multiset{s[n]} by {
        assert s == s[..n] + [s[n]];
      }
      var r := Insert(s[n], front);
      assert |r| == |multiset(r)| == |s|;
      r
  }

  lemma {:induction false} InsertAfterAll(x: Alarm, s: seq<Alarm>)
    requires Sorted(s)
    requires forall k :: 0 <= k < |s| ==> !Precedes(x, s[k])
    ensures Insert(x, s) == s + [x]
  {
    if s != [] {
      InsertAfterAll(x, s[1..]);
      assert [s[0]] + (s[1..] + [x]) == s + [x];
    }
  }

  /** Sorting an already sorted list leaves it as it is. */
  lemma {:induction false} SortSortedIsIdentity(s: seq<Alarm>)
    requires Sorted(s)
    ensures SortAlarms(s) == s
  {
    if s != [] {
      var n := |s| - 1;
      SortSortedIsIdentity(s[..n]);
      InsertAfterAll(s[n], s[..n]);
      assert s[..n] + [s[n]] == s;
    }
  }

  /** Replacing elements by ones with the same weekday and time keeps a
      sorted list sorted. */
  lemma SameKeysStaySorted(s: seq<Alarm>, t: seq<Alarm>)
    requires Sorted(s) && |s| == |t|
    requires forall k :: 0 <= k < |s| ==> t[k].weekday == s[k].weekday && t[k].time == s[k].time
    ensures Sorted(t)
  {
  }

  /** In a sorted list, ranks never decrease. */
  lemma SortedRanks(s: seq<Alarm>, i: int, j: int)
    requires Sorted(s) && 0 <= i <= j < |s|
    ensures Rank(s[i]) <= Rank(s[j])
  {
    if i < j {
      assert !Precedes(s[j], s[i]);
    }
  }

  /** Taking one alarm out of a sorted list leaves it sorted. */
  lemma SortedWithout(s: seq<Alarm>, k: nat)
    requires Sorted(s) && k < |s|
    ensures Sorted(s[..k] + s[k + 1..])
  {
    var r := s[..k] + s[k + 1..];
    forall i, j | 0 <= i < j < |r| ensures !Precedes(r[j], r[i]) {
      var i', j' := if i < k then i else i + 1, if j < k then j else j + 1;
      assert r[i] == s[i'] && r[j] == s[j'];
    }
  }

  /** A position holding an alarm of a list. */
  lemma PositionOf(x: Alarm, t: seq<Alarm>) returns (k: nat)
    requires x in multiset(t)
    ensures k < |t| && t[k] == x
  {
    k :| 0 <= k < |t| && t[k] == x;
  }

  /** Taking the first alarm from one list and the same alarm from a
      permutation of it leaves permutations of each other. */
  lemma PermutationWithout(s: seq<Alarm>, t: seq<Alarm>, k: nat)
    requires multiset(s) == multiset(t) && s != [] && k < |t| && t[k] == s[0]
    ensures multiset(s[1..]) == multiset(t[..k] + t[k + 1..])
  {
    var a, b := multiset(s[1..]), multiset(t[..k] + t[k + 1..]);
    var p, q := multiset(t[..k]), multiset(t[k + 1..]);
    assert t == t[..k] + [t[k]] + t[k + 1..];
    assert multiset(t) == p + multiset{s[0]} + q;
    assert b == p + q;
    assert s == [s[0]] + s[1..];
    assert multiset(s) == multiset{s[0]} + a;
    forall x ensures a[x] == b[x] {
      assert multiset(s)[x] == multiset{s[0]}[x] + a[x];
      assert multiset(t)[x] == p[x] + multiset{s[0]}[x] + q[x];
    }
  }

  /** Putting back at `k` an alarm ranked like the first one of a sorted
      list restores position-by-position agreement of ranks. */
  lemma RanksAfterReinsert(s: seq<Alarm>, t: seq<Alarm>, k: nat, rest: seq<Alarm>)
    requires Sorted(t) && k < |t| && |s| == |t| && rest == t[..k] + t[k + 1..]
    requires Rank(s[0]) == Rank(t[k]) && Rank(t[0]) == Rank(t[k])
    requires forall i :: 0 <= i < |s[1..]| ==> Rank(s[1..][i]) == Rank(rest[i])
    ensures forall i :: 0 <= i < |s| ==> Rank(s[i]) == Rank(t[i])
  {
    forall i | 0 <= i < |s| ensures Rank(s[i]) == Rank(t[i]) {
      if 0 < i <= k {
        assert Rank(s[i]) == Rank(rest[i - 1]) by { assert s[i] == s[1..][i - 1]; }
        assert rest[i - 1] == t[i - 1];
        SortedRanks(t, 0, i - 1);
        SortedRanks(t, i, k);
        SortedRanks(t, 0, i);
      } else if k < i {
        assert Rank(s[i]) == Rank(rest[i - 1]) by { assert s[i] == s[1..][i - 1]; }
        assert rest[i - 1] == t[i];
      }
    }
  }

  /** The list order is determined up to ties: two sorted arrangements of
      the same alarms agree, position by position, on weekday and minute of
      the day. So "sorted, and a permutation of the input" pins the result
      down except for the order among tied alarms. */
  lemma {:induction false} SortedPermutationsAgree(s: seq<Alarm>, t: seq<Alarm>)
    requires Sorted(s) && Sorted(t) && multiset(s) == multiset(t)
    ensures |s| == |t|
    ensures forall i :: 0 <= i < |s| ==> Rank(s[i]) == Rank(t[i])
    decreases |s|
  {
    assert |s| == |multiset(s)| == |multiset(t)| == |t|;
    if s != [] {
      assert s[0] in multiset(t) && t[0] in multiset(s);
      var k := PositionOf(s[0], t);
      var j := PositionOf(t[0], s);
      SortedRanks(t, 0, k);
      SortedRanks(s, 0, j);
      var rest := t[..k] + t[k + 1..];
      PermutationWithout(s, t, k);
      SortedWithout(t, k);
      SortedPermutationsAgree(s[1..], rest);
      RanksAfterReinsert(s, t, k, rest);
    }
  }

  // ----- Stability -----

  /** The alarms of `s` whose sort key is `k`, in their order in `s`. */
  function WithRank(s: seq<Alarm>, k: int): (r: seq<Alarm>)
    ensures |r| <= |s|
  {
    if s == [] then []
    else (if Rank(s[0]) == k then [s[0]] else []) + WithRank(s[1..], k)
  }

  /** Alarms that tie appear in `r` in the same relative order as in `s`. */
  ghost predicate SameTieOrder(r: seq<Alarm>, s: seq<Alarm>)
  {
    forall k :: WithRank(r, k) == WithRank(s, k)
  }

  lemma {:induction false} WithRankAppend(a: seq<Alarm>, b: seq<Alarm>, k: int)
    ensures WithRank(a + b, k) == WithRank(a, k) + WithRank(b, k)
  {
    if a == [] {
      assert a + b == b;
    } else {
      var h := if Rank(a[0]) == k then [a[0]] else [];
      calc {
        WithRank(a + b, k);
        == { assert (a + b)[0] == a[0] && (a + b)[1..] == a[1..] + b; }
        h + WithRank(a[1..] + b, k);
        == { WithRankAppend(a[1..], b, k); }
        h + (WithRank(a[1..], k) + WithRank(b, k));
        == (h + WithRank(a[1..], k)) + WithRank(b, k);
      }
    }
  }

  /** No alarm of a list whose keys all exceed `k` has key `k`. */
  lemma {:induction false} WithRankAbove(s: seq<Alarm>, k: int)
    requires forall i :: 0 <= i < |s| ==> k < Rank(s[i])
    ensures WithRank(s, k) == []
  {
    if s != [] {
      WithRankAbove(s[1..], k);
    }
  }

  /** In a sorted list no alarm has a key below the first one's. */
  lemma SortedWithRankFloor(s: seq<Alarm>, k: int)
    requires Sorted(s) && s != [] && k < Rank(s[0])
    ensures WithRank(s, k) == []
  {
    forall i | 0 <= i < |s| ensures k < Rank(s[i]) {
      SortedRanks(s, 0, i);
    }
    WithRankAbove(s, k);
  }

  /** Inserting places `x` after every alarm it ties with. */
  lemma {:induction false} InsertKeepsTies(x: Alarm, s: seq<Alarm>, k: int)
    requires Sorted(s)
    ensures WithRank(Insert(x, s), k) == WithRank(s + [x], k)
  {
    if s == [] {
    } else if Precedes(x, s[0]) {
      WithRankAppend([x], s, k);
      WithRankAppend(s, [x], k);
      if Rank(x) == k {
        SortedWithRankFloor(s, k);
      }
    } else {
      InsertKeepsTies(x, s[1..], k);
      var tail := Insert(x, s[1..]);
      assert ([s[0]] + tail)[1..] == tail;
      assert (s + [x])[1..] == s[1..] + [x];
    }
  }

  lemma {:induction false} SortAlarmsKeepsTies(s: seq<Alarm>, k: int)
    ensures WithRank(SortAlarms(s), k) == WithRank(s, k)
    decreases |s|
  {
    if s != [] {
      var n := |s| - 1;
      SortAlarmsKeepsTies(s[..n], k);
      InsertKeepsTies(s[n], SortAlarms(s[..n]), k);
      WithRankAppend(SortAlarms(s[..n]), [s[n]], k);
      WithRankAppend(s[..n], [s[n]], k);
      assert s[..n] + [s[n]] == s;
    }
  }

  /** The sort is stable: tied alarms keep their relative order. */
  lemma SortAlarmsIsStable(s: seq<Alarm>)
    ensures SameTieOrder(SortAlarms(s), s)
  {
    forall k ensures WithRank(SortAlarms(s), k) == WithRank(s, k) {
      SortAlarmsKeepsTies(s, k);
    }
  }

  /** Two sorted lists with the same tie order start with the same alarm. */
  lemma SortedHeadsAgree(r: seq<Alarm>, t: seq<Alarm>)
    requires Sorted(r) && Sorted(t) && SameTieOrder(r, t) && r != [] && t != []
    ensures r[0] == t[0]
  {
    var m, n := Rank(r[0]), Rank(t[0]);
    assert WithRank(r, m) != [] && WithRank(t, n) != [];
    if m < n {
      SortedWithRankFloor(t, m);
    } else if n < m {
      SortedWithRankFloor(r, n);
    }
    assert WithRank(r, m)[0] == r[0] && WithRank(t, m)[0] == t[0];
  }

  /** Dropping the same first alarm from both lists keeps their tie order. */
  lemma SameTieOrderTails(r: seq<Alarm>, t: seq<Alarm>)
    requires SameTieOrder(r, t) && r != [] && t != [] && r[0] == t[0]
    ensures SameTieOrder(r[1..], t[1..])
  {
    forall k ensures WithRank(r[1..], k) == WithRank(t[1..], k) {
      var head := if Rank(r[0]) == k then [r[0]] else [];
      assert WithRank(r, k) == head + WithRank(r[1..], k);
      assert WithRank(t, k) == head + WithRank(t[1..], k);
      assert (head + WithRank(r[1..], k))[|head|..] == WithRank(r[1..], k);
      assert (head + WithRank(t[1..], k))[|head|..] == WithRank(t[1..], k);
    }
  }

  /** Only the empty list has the empty list's tie order. */
  lemma EmptyTieOrder(r: seq<Alarm>, t: seq<Alarm>)
    requires SameTieOrder(r, t) && r == []
    ensures t == []
  {
    if t != [] {
      assert WithRank(r, Rank(t[0])) == [];
    }
  }

  /** A sorted list is fixed by the order of its ties. */
  lemma {:induction false} StableSortUnique(r: seq<Alarm>, t: seq<Alarm>)
    requires Sorted(r) && Sorted(t) && SameTieOrder(r, t)
    ensures r == t
    decreases |r|
  {
    if r == [] {
      EmptyTieOrder(r, t);
    } else if t == [] {
      EmptyTieOrder(t, r);
    } else {
      SortedHeadsAgree(r, t);
      SameTieOrderTails(r, t);
      SortedTail(r);
      SortedTail(t);
      StableSortUnique(r[1..], t[1..]);
      assert r == [r[0]] + r[1..] && t == [t[0]] + t[1..];
    }
  }

  lemma SortedTail(s: seq<Alarm>)
    requires Sorted(s) && s != []
    ensures Sorted(s[1..])
  {
    SortedWithout(s, 0);
    assert s[..0] + s[1..] == s[1..];
  }

  /** Being sorted and keeping the order of ties is exactly what the sort
      produces: the sorted list with the same tie order is `SortAlarms`. */
  lemma StableSortCharacterization(r: seq<Alarm>, s: seq<Alarm>)
    ensures Sorted(r) && SameTieOrder(r, s) <==> r == SortAlarms(s)
  {
    SortAlarmsIsStable(s);
    if Sorted(r) && SameTieOrder(r, s) {
      StableSortUnique(r, SortAlarms(s));
    }
  }
}
