/** What the alarm list controller does to the list, as functions on
    sequences: finding an alarm by id, the edit, toggle and demotion
    rewrites of one alarm, removal at a set of offsets, and the
    reconciliation pass over one-shot alarms. The controller class states
    its effects with these. */
module AlarmLists {
  import opened Wrappers
  import opened Uuids
  import opened Alarms
  import AlarmSounds
  import opened Notifications
  import opened AlarmOrdering

  /** `firstIndex(where: { $0.id == id })`. */
  function FirstIndex(s: seq<Alarm>, id: Uuid): (r: Option<nat>)
    ensures r.Some? ==> r.value < |s| && s[r.value].id == id
    ensures r.Some? ==> forall j :: 0 <= j < r.value ==> s[j].id != id
    ensures r.None? ==> forall j :: 0 <= j < |s| ==> s[j].id != id
  {
    if s == [] then None
    else if s[0].id == id then Some(0)
    else
      match FirstIndex(s[1..], id)
      case None => None
      case Some(k) => Some(k + 1)
  }

  // ----- Add -----

  /** The alarm `addAlarm` stores: built enabled, dated with
      `nextTriggerDate()` when it is one-shot, and demoted to disabled when
      notifications may not be posted. */
  function AddedAlarm(
    id: Uuid, time: Instant, labelText: string, weekday: int, sound: AlarmSounds.AlarmSound,
    repeatsWeekly: bool, status: AuthorizationStatus, now: Instant,
    nextTriggerDate: (Alarm, Instant) -> Instant): (a: Alarm)
    ensures a.id == id && a.time == time && a.weekday == weekday && a.sound == sound
    ensures a.repeatsWeekly == repeatsWeekly && a.repeatsDaily
    ensures a.labelText != [] && (labelText != [] ==> a.labelText == labelText)
    ensures labelText == [] ==> a.labelText == DefaultLabel
    ensures a.isEnabled <==> MayPostNotifications(status)
    ensures repeatsWeekly ==> a.scheduledDate == None
    ensures !repeatsWeekly ==>
      a.scheduledDate == Some(nextTriggerDate(NewAlarm(id, time, weekday, sound, repeatsWeekly, labelText, true), now))
  {
    var created := NewAlarm(id, time, weekday, sound, repeatsWeekly, labelText, true);
    var dated := if repeatsWeekly then created else created.(scheduledDate := Some(nextTriggerDate(created, now)));
    if MayPostNotifications(status) then dated else dated.(isEnabled := false)
  }

  // ----- Update -----

  /** The fields `updateAlarm` writes into the alarm it found. */
  function Edited(
    a: Alarm, time: Instant, labelText: string, weekday: int, sound: AlarmSounds.AlarmSound,
    repeatsWeekly: bool, now: Instant, nextTriggerDate: (Alarm, Instant) -> Instant): (r: Alarm)
    ensures r.id == a.id && r.isEnabled == a.isEnabled && r.repeatsDaily == a.repeatsDaily
    ensures r.time == time && r.weekday == weekday && r.sound == sound && r.repeatsWeekly == repeatsWeekly
    ensures r.labelText != [] && (labelText != [] ==> r.labelText == labelText)
    ensures labelText == [] ==> r.labelText == DefaultLabel
    ensures r.scheduledDate.None? <==> repeatsWeekly
    ensures !repeatsWeekly ==> r.scheduledDate == Some(nextTriggerDate(r.(scheduledDate := a.scheduledDate), now))
  {
    var b := a.(time := time, labelText := NormalizedLabel(labelText), weekday := weekday,
                sound := sound, repeatsWeekly := repeatsWeekly);
    b.(scheduledDate := if repeatsWeekly then None else Some(nextTriggerDate(b, now)))
  }

  // ----- Toggle -----

  /** `toggleAlarm` on the alarm it found: the flag is set, and enabling a
      one-shot alarm dates it afresh from `now`. */
  function Toggled(a: Alarm, isEnabled: bool, now: Instant, nextTriggerDate: (Alarm, Instant) -> Instant): (r: Alarm)
    ensures r.isEnabled == isEnabled
    ensures r.(isEnabled := a.isEnabled, scheduledDate := a.scheduledDate) == a
    ensures isEnabled && !a.repeatsWeekly ==> r.scheduledDate == Some(nextTriggerDate(a.(isEnabled := true), now))
    ensures !(isEnabled && !a.repeatsWeekly) ==> r.scheduledDate == a.scheduledDate
  {
    var b := a.(isEnabled := isEnabled);
    if isEnabled && !a.repeatsWeekly then b.(scheduledDate := Some(nextTriggerDate(b, now))) else b
  }

  /** `handleSchedulingError` on the list: the first alarm with the id, if
      any, is disabled; nothing else changes. */
  function Demoted(s: seq<Alarm>, id: Uuid): (r: seq<Alarm>)
    ensures |r| == |s|
    ensures forall k :: 0 <= k < |s| && FirstIndex(s, id) != Some(k) ==> r[k] == s[k]
    ensures FirstIndex(s, id).Some? ==>
      var i := FirstIndex(s, id).value;
      s[i].id == id && !r[i].isEnabled && r[i].(isEnabled := s[i].isEnabled) == s[i]
  {
    match FirstIndex(s, id)
    case None => s
    case Some(i) => s[i := s[i].(isEnabled := false)]
  }

  // ----- Delete -----

  /** The alarms of `s` whose offset, counting the first as `from`, is not
      in `offsets`, in their original order. */
  function Survivors(s: seq<Alarm>, offsets: set<nat>, from: nat): (r: seq<Alarm>)
    ensures |r| <= |s|
  {
    if s == [] then []
    else (if from in offsets then [] else [s[0]]) + Survivors(s[1..], offsets, from + 1)
  }

  /** The ids of the alarms at `offsets`, in ascending offset order. */
  function IdsAt(s: seq<Alarm>, offsets: set<nat>, from: nat): seq<Uuid>
  {
    if s == [] then []
    else (if from in offsets then [s[0].id] else []) + IdsAt(s[1..], offsets, from + 1)
  }

  /** The ids cancelled are exactly those of the alarms at the offsets. */
  lemma {:induction false} IdsAtAreRemoved(s: seq<Alarm>, offsets: set<nat>, from: nat)
    ensures forall x :: x in IdsAt(s, offsets, from) ==>
      exists k :: 0 <= k < |s| && from + k in offsets && s[k].id == x
    ensures forall k :: 0 <= k < |s| && from + k in offsets ==> s[k].id in IdsAt(s, offsets, from)
  {
    if s != [] {
      IdsAtAreRemoved(s[1..], offsets, from + 1);
      var ids, rest := IdsAt(s, offsets, from), IdsAt(s[1..], offsets, from + 1);
      forall x | x in ids ensures exists k :: 0 <= k < |s| && from + k in offsets && s[k].id == x {
        if x in rest {
          var k :| 0 <= k < |s[1..]| && from + 1 + k in offsets && s[1..][k].id == x;
          assert s[k + 1] == s[1..][k];
        } else {
          assert from + 0 in offsets && s[0].id == x;
        }
      }
      forall k | 0 <= k < |s| && from + k in offsets ensures s[k].id in ids {
        if k > 0 {
          assert s[1..][k - 1] == s[k];
        }
      }
    }
  }

  /** The offsets in `[lo, hi)`. */
  function OffsetsIn(offsets: set<nat>, lo: nat, hi: nat): set<nat>
  {
    set i | i in offsets && lo <= i < hi
  }

  /** Exactly one alarm leaves the list per offset, and every other one
      stays. */
  lemma {:induction false} SurvivorsCount(s: seq<Alarm>, offsets: set<nat>, from: nat)
    ensures |IdsAt(s, offsets, from)| == |OffsetsIn(offsets, from, from + |s|)|
    ensures |Survivors(s, offsets, from)| + |IdsAt(s, offsets, from)| == |s|
  {
    if s == [] {
      assert OffsetsIn(offsets, from, from) == {};
    } else {
      SurvivorsCount(s[1..], offsets, from + 1);
      var rest := OffsetsIn(offsets, from + 1, from + |s|);
      if from in offsets {
        assert OffsetsIn(offsets, from, from + |s|) == {from} + rest;
        assert from !in rest;
      } else {
        assert OffsetsIn(offsets, from, from + |s|) == rest;
      }
    }
  }

  lemma {:induction false} SurvivorsSplit(s: seq<Alarm>, offsets: set<nat>, from: nat, j: nat)
    requires j <= |s|
    ensures Survivors(s, offsets, from) == Survivors(s[..j], offsets, from) + Survivors(s[j..], offsets, from + j)
  {
    if j > 0 {
      SurvivorsSplit(s[1..], offsets, from + 1, j - 1);
      assert s[1..][..j - 1] == s[..j][1..];
      assert s[1..][j - 1..] == s[j..];
    }
  }

  lemma {:induction false} SurvivorsFrame(s: seq<Alarm>, offsets: set<nat>, others: set<nat>, from: nat)
    requires forall i :: from <= i < from + |s| ==> (i in offsets <==> i in others)
    ensures Survivors(s, offsets, from) == Survivors(s, others, from)
  {
    if s != [] {
      SurvivorsFrame(s[1..], offsets, others, from + 1);
    }
  }

  lemma {:induction false} SurvivorsOfUntouched(s: seq<Alarm>, offsets: set<nat>, from: nat)
    requires forall i :: from <= i < from + |s| ==> i !in offsets
    ensures Survivors(s, offsets, from) == s
  {
    if s != [] {
      SurvivorsOfUntouched(s[1..], offsets, from + 1);
      assert [s[0]] + s[1..] == s;
    }
  }

  /** When no offset below `k` is removed, the first `k` alarms survive as
      they are. */
  lemma SurvivorsKeepPrefix(s: seq<Alarm>, offsets: set<nat>, k: nat)
    requires k <= |s|
    requires forall i :: 0 <= i < k ==> i !in offsets
    ensures Survivors(s, offsets, 0) == s[..k] + Survivors(s[k..], offsets, k)
  {
    SurvivorsSplit(s, offsets, 0, k);
    SurvivorsOfUntouched(s[..k], offsets, 0);
  }

  /** With only offsets above `k` removed, everything up to `k` is still in
      place. */
  lemma SurvivorsAround(s: seq<Alarm>, removed: set<nat>, k: nat)
    requires k < |s|
    requires forall d :: d in removed ==> k < d
    ensures Survivors(s, removed, 0) == s[..k] + [s[k]] + Survivors(s[k + 1..], removed, k + 1)
  {
    SurvivorsKeepPrefix(s, removed, k);
    assert s[k..][0] == s[k] && s[k..][1..] == s[k + 1..];
  }

  /** Adding `k` to those offsets drops exactly the alarm at `k`. */
  lemma SurvivorsWithout(s: seq<Alarm>, removed: set<nat>, k: nat)
    requires k < |s|
    requires forall d :: d in removed ==> k < d
    ensures Survivors(s, removed + {k}, 0) == s[..k] + Survivors(s[k + 1..], removed, k + 1)
  {
    var more := removed + {k};
    SurvivorsKeepPrefix(s, more, k);
    SurvivorsDropHead(s[k..], more, removed, k);
    assert s[k..][1..] == s[k + 1..];
  }

  /** A list whose first offset is removed survives as its tail does. */
  lemma SurvivorsDropHead(t: seq<Alarm>, offsets: set<nat>, others: set<nat>, from: nat)
    requires t != [] && from in offsets
    requires forall i :: from < i ==> (i in offsets <==> i in others)
    ensures Survivors(t, offsets, from) == Survivors(t[1..], others, from + 1)
  {
    SurvivorsFrame(t[1..], offsets, others, from + 1);
  }

  /** Removing, by position, offset `k` from what is left after removing
      only larger offsets is the same as removing `k` with them: the reason
      the offsets are processed in descending order. */
  lemma RemoveLargestRemaining(s: seq<Alarm>, removed: set<nat>, k: nat)
    requires k < |s|
    requires forall d :: d in removed ==> k < d
    ensures var current := Survivors(s, removed, 0);
      k < |current| && current[k] == s[k] &&
      current[..k] + current[k + 1..] == Survivors(s, removed + {k}, 0)
  {
    var current := Survivors(s, removed, 0);
    var rest := Survivors(s[k + 1..], removed, k + 1);
    SurvivorsAround(s, removed, k);
    SurvivorsWithout(s, removed, k);
    assert current[..k] == s[..k];
    assert current[k + 1..] == rest;
  }

  /** Every survivor comes from the list. */
  lemma {:induction false} SurvivorsFromList(s: seq<Alarm>, offsets: set<nat>, from: nat)
    ensures forall x :: x in Survivors(s, offsets, from) ==> x in s
  {
    if s != [] {
      SurvivorsFromList(s[1..], offsets, from + 1);
    }
  }

  /** Survivors keep their relative order, so a sorted list stays sorted. */
  lemma {:induction false} SurvivorsSorted(s: seq<Alarm>, offsets: set<nat>, from: nat)
    requires Sorted(s)
    ensures Sorted(Survivors(s, offsets, from))
  {
    if s != [] {
      var tail := Survivors(s[1..], offsets, from + 1);
      SurvivorsSorted(s[1..], offsets, from + 1);
      SurvivorsFromList(s[1..], offsets, from + 1);
      forall k | 0 <= k < |tail| ensures !Precedes(tail[k], s[0]) {
        assert tail[k] in s[1..];
      }
    }
  }

  // ----- Reconciliation -----

  /** An enabled one-shot alarm whose scheduled date has come: it has fired
      or expired. */
  predicate Expired(a: Alarm, now: Instant): (r: bool)
    ensures r ==> !Undated(a)
  {
    !a.repeatsWeekly && a.isEnabled && a.scheduledDate.Some? && a.scheduledDate.value <= now
  }

  /** An enabled one-shot alarm that has no scheduled date yet. */
  predicate Undated(a: Alarm)
  {
    !a.repeatsWeekly && a.isEnabled && a.scheduledDate.None?
  }

  /** One step of `reconcileOneTimeAlarms`. */
  function ReconcileOne(a: Alarm, now: Instant, nextTriggerDate: (Alarm, Instant) -> Instant): (r: Alarm)
    ensures r.(isEnabled := a.isEnabled, scheduledDate := a.scheduledDate) == a
    ensures !Expired(a, now) && !Undated(a) ==> r == a
    ensures Expired(a, now) ==> !r.isEnabled && r.scheduledDate == a.scheduledDate
    ensures Undated(a) ==> r.isEnabled && r.scheduledDate == Some(nextTriggerDate(a, now))
    ensures r.isEnabled && !r.repeatsWeekly ==> r.scheduledDate.Some?
    ensures r.isEnabled && !r.repeatsWeekly && a.scheduledDate.Some? ==> now < a.scheduledDate.value
  {
    if a.repeatsWeekly then a
    else if Expired(a, now) then a.(isEnabled := false)
    else if Undated(a) then a.(scheduledDate := Some(nextTriggerDate(a, now)))
    else a
  }

  /** The list after the reconciliation loop, before any re-sort. */
  function Reconciled(s: seq<Alarm>, now: Instant, nextTriggerDate: (Alarm, Instant) -> Instant): (r: seq<Alarm>)
    ensures |r| == |s|
    ensures forall k :: 0 <= k < |s| ==> r[k] == ReconcileOne(s[k], now, nextTriggerDate)
  {
    if s == [] then []
    else
      var n := |s| - 1;
      Reconciled(s[..n], now, nextTriggerDate) + [ReconcileOne(s[n], now, nextTriggerDate)]
  }

  /** The `cancel` calls the reconciliation loop makes: one per expired
      alarm, in list order. */
  function ExpiryCancellations(s: seq<Alarm>, now: Instant): seq<CenterCall>
  {
    if s == [] then []
    else
      var n := |s| - 1;
      ExpiryCancellations(s[..n], now) +
        (if Expired(s[n], now) then [RemovePending([UuidString(s[n].id)])] else [])
  }

  /** The pass cancels exactly the expired alarms. */
  lemma {:induction false} ExpiryCancellationsAreExpired(s: seq<Alarm>, now: Instant)
    ensures forall c :: c in ExpiryCancellations(s, now) ==>
      exists k :: 0 <= k < |s| && Expired(s[k], now) && c == RemovePending([UuidString(s[k].id)])
    ensures forall k :: 0 <= k < |s| && Expired(s[k], now) ==>
      RemovePending([UuidString(s[k].id)]) in ExpiryCancellations(s, now)
  {
    if s != [] {
      var n := |s| - 1;
      ExpiryCancellationsAreExpired(s[..n], now);
      var calls, front := ExpiryCancellations(s, now), ExpiryCancellations(s[..n], now);
      forall c | c in calls
        ensures exists k :: 0 <= k < |s| && Expired(s[k], now) && c == RemovePending([UuidString(s[k].id)])
      {
        if c in front {
          var k :| 0 <= k < |s[..n]| && Expired(s[..n][k], now) && c == RemovePending([UuidString(s[..n][k].id)]);
          assert s[..n][k] == s[k];
        } else {
          assert Expired(s[n], now) && c == RemovePending([UuidString(s[n].id)]);
        }
      }
      forall k | 0 <= k < |s| && Expired(s[k], now) ensures RemovePending([UuidString(s[k].id)]) in calls {
        if k < n {
          assert s[..n][k] == s[k];
        }
      }
    }
  }

  /** An enabled one-shot alarm is expired, undated, or still due later;
      repeating and disabled alarms are neither expired nor undated. */
  lemma OneShotCases(a: Alarm, now: Instant)
    ensures !(Expired(a, now) && Undated(a))
    ensures !a.repeatsWeekly && a.isEnabled ==>
      Expired(a, now) || Undated(a) || (a.scheduledDate.Some? && now < a.scheduledDate.value)
    ensures a.repeatsWeekly || !a.isEnabled ==> !Expired(a, now) && !Undated(a)
  {
  }

  /** Some alarm gives the reconciliation loop something to do. */
  predicate ReconcileNeeded(s: seq<Alarm>, now: Instant)
  {
    exists k :: 0 <= k < |s| && (Expired(s[k], now) || Undated(s[k]))
  }

  /** Extending the scanned prefix by one alarm adds that alarm's
      cancellation, if it is expired, and its need for a change. */
  lemma ReconcilePrefixStep(s: seq<Alarm>, k: nat, now: Instant)
    requires k < |s|
    ensures ExpiryCancellations(s[..k + 1], now) ==
      ExpiryCancellations(s[..k], now) + (if Expired(s[k], now) then [RemovePending([UuidString(s[k].id)])] else [])
    ensures ReconcileNeeded(s[..k + 1], now) <==>
      ReconcileNeeded(s[..k], now) || Expired(s[k], now) || Undated(s[k])
  {
    assert s[..k + 1][..k] == s[..k];
    if ReconcileNeeded(s[..k + 1], now) && !Expired(s[k], now) && !Undated(s[k]) {
      var j :| 0 <= j < k + 1 && (Expired(s[..k + 1][j], now) || Undated(s[..k + 1][j]));
      assert s[..k][j] == s[j];
    }
    if ReconcileNeeded(s[..k], now) {
      var j :| 0 <= j < k && (Expired(s[..k][j], now) || Undated(s[..k][j]));
      assert s[..k + 1][j] == s[j];
    }
  }

  /** The loop's `didChange` flag is exact: the pass changes the list
      exactly when some alarm is expired or undated. */
  lemma ReconciledUnchangedIff(s: seq<Alarm>, now: Instant, nextTriggerDate: (Alarm, Instant) -> Instant)
    ensures Reconciled(s, now, nextTriggerDate) == s <==> !ReconcileNeeded(s, now)
  {
    var r := Reconciled(s, now, nextTriggerDate);
    if ReconcileNeeded(s, now) {
      var k :| 0 <= k < |s| && (Expired(s[k], now) || Undated(s[k]));
      assert r[k] != s[k];
    }
  }

  /** A second pass at the same instant does nothing, provided the trigger
      calculation dates alarms in the future. */
  lemma ReconcileIdempotent(s: seq<Alarm>, now: Instant, nextTriggerDate: (Alarm, Instant) -> Instant)
    requires forall a: Alarm :: now < nextTriggerDate(a, now)
    ensures !ReconcileNeeded(Reconciled(s, now, nextTriggerDate), now)
    ensures Reconciled(Reconciled(s, now, nextTriggerDate), now, nextTriggerDate) == Reconciled(s, now, nextTriggerDate)
  {
    var r := Reconciled(s, now, nextTriggerDate);
    forall k | 0 <= k < |r| ensures !Expired(r[k], now) && !Undated(r[k]) {
      if Undated(s[k]) {
        assert now < nextTriggerDate(s[k], now);
      }
    }
    ReconciledUnchangedIff(r, now, nextTriggerDate);
  }

  /** The pass only changes `isEnabled` and `scheduledDate`, so the list
      order is preserved. */
  lemma ReconciledStaysSorted(s: seq<Alarm>, now: Instant, nextTriggerDate: (Alarm, Instant) -> Instant)
    requires Sorted(s)
    ensures Sorted(Reconciled(s, now, nextTriggerDate))
  {
    var r := Reconciled(s, now, nextTriggerDate);
    SameKeysStaySorted(s, r);
  }
}
