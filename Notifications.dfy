/** The notification service: the authorization guard, the next-occurrence
    calculation, the request it builds for an alarm, and the calls it makes
    on the platform notification centre, recorded in a ghost log. */
module Notifications {
  import opened Wrappers
  import opened Uuids
  import opened Alarms

  datatype AuthorizationStatus = NotDetermined | Denied | Authorized | Provisional | Ephemeral

  /** Only an authorized or provisional status lets an alarm be posted. */
  predicate MayPostNotifications(status: AuthorizationStatus): (ok: bool)
    ensures !ok <==> status == NotDetermined || status == Denied || status == Ephemeral
  {
    status == Authorized || status == Provisional
  }

  /** `NotificationServiceError.notAuthorized`, and a failure reported by
      the notification centre with its localized description. */
  datatype ServiceError = NotAuthorized | CenterError(description: string)

  const NotAuthorizedDescription: string := "Notifications are not authorized. Please enable them in Settings."

  function LocalizedDescription(e: ServiceError): (d: string)
    ensures e.NotAuthorized? ==> d == NotAuthorizedDescription
    ensures e.CenterError? ==> d == e.description
  {
    match e
    case NotAuthorized => NotAuthorizedDescription
    case CenterError(d) => d
  }

  lemma DayStartDecomposition(d: int, m: int)
    requires 0 <= m < MinutesPerDay
    ensures DayOf(d * MinutesPerDay + m) == d && MinuteOfDay(d * MinutesPerDay + m) == m
  {
    var t := d * MinutesPerDay + m;
    var q, r := DayOf(t), MinuteOfDay(t);
    assert t == q * MinutesPerDay + r;
    assert (q - d) * MinutesPerDay == m - r;
  }

  /** `nextOccurrence(for:)`: today at the alarm's hour and minute (second
      zero) if that is still ahead of `now`, and otherwise the same time one
      day later. */
  function NextOccurrence(time: Instant, now: Instant): (r: Instant)
    ensures now < r <= now + MinutesPerDay
    ensures Hour(r) == Hour(time) && Minute(r) == Minute(time)
    ensures MinuteOfDay(r) == MinuteOfDay(time)
  {
    var todayTarget := DayOf(now) * MinutesPerDay + Hour(time) * MinutesPerHour + Minute(time);
    InstantDecomposition(time);
    InstantDecomposition(now);
    DayStartDecomposition(DayOf(now), MinuteOfDay(time));
    DayStartDecomposition(DayOf(now) + 1, MinuteOfDay(time));
    if todayTarget > now then todayTarget else todayTarget + MinutesPerDay
  }

  /** No instant strictly after `now` with the alarm's time of day comes
      earlier than the one chosen. */
  lemma NextOccurrenceIsEarliest(time: Instant, now: Instant, t: Instant)
    requires now < t && MinuteOfDay(t) == MinuteOfDay(time)
    ensures NextOccurrence(time, now) <= t
  {
    var r := NextOccurrence(time, now);
    InstantDecomposition(t);
    InstantDecomposition(r);
    assert (DayOf(r) - DayOf(t)) * MinutesPerDay == r - t;
  }

  /** The chosen instant is on today's date exactly when the alarm's time
      of day is later than now's, and otherwise on tomorrow's. */
  lemma NextOccurrenceTodayOrTomorrow(time: Instant, now: Instant)
    ensures var r := NextOccurrence(time, now);
      (DayOf(r) == DayOf(now) <==> MinuteOfDay(time) > MinuteOfDay(now)) &&
      (DayOf(r) != DayOf(now) ==> DayOf(r) == DayOf(now) + 1)
  {
    InstantDecomposition(time);
    InstantDecomposition(now);
    DayStartDecomposition(DayOf(now), MinuteOfDay(time));
    DayStartDecomposition(DayOf(now) + 1, MinuteOfDay(time));
  }

  /** At the very minute of the alarm, the next occurrence is a full day
      away: a match at `now` itself is never returned. */
  lemma NextOccurrenceSkipsNow(time: Instant, now: Instant)
    requires MinuteOfDay(now) == MinuteOfDay(time)
    ensures NextOccurrence(time, now) == now + MinutesPerDay
  {
    var r := NextOccurrence(time, now);
    NextOccurrenceIsEarliest(time, now, now + MinutesPerDay);
    InstantDecomposition(now);
    DayStartDecomposition(DayOf(now) + 1, MinuteOfDay(time));
    assert now + MinutesPerDay == (DayOf(now) + 1) * MinutesPerDay + MinuteOfDay(now);
  }

  /** The calendar components a trigger matches. A daily trigger names the
      hour and minute; a dated one also names the day (the day number stands
      for the calendar's year, month and day). */
  datatype DateMatch =
    | HourMinute(hour: int, minute: int)
    | DayHourMinute(day: int, hour: int, minute: int)

  predicate Matches(m: DateMatch, t: Instant)
  {
    match m
    case HourMinute(h, mi) => Hour(t) == h && Minute(t) == mi
    case DayHourMinute(d, h, mi) => DayOf(t) == d && Hour(t) == h && Minute(t) == mi
  }

  /** `UNCalendarNotificationTrigger(dateMatching:repeats:)`. */
  datatype Trigger = CalendarTrigger(dateMatching: DateMatch, repeats: bool)

  /** The trigger `schedule` builds: repeating with the alarm's hour and
      minute for a daily alarm, otherwise once, at the next occurrence. */
  function TriggerFor(alarm: Alarm, now: Instant): (t: Trigger)
    ensures t.repeats == alarm.repeatsDaily
    ensures alarm.repeatsDaily ==>
      t.dateMatching.HourMinute? &&
      forall x :: Matches(t.dateMatching, x) <==> MinuteOfDay(x) == MinuteOfDay(alarm.time)
    ensures !alarm.repeatsDaily ==>
      t.dateMatching.DayHourMinute? &&
      forall x :: Matches(t.dateMatching, x) <==> x == NextOccurrence(alarm.time, now)
  {
    InstantDecomposition(alarm.time);
    if alarm.repeatsDaily then
      var m := HourMinute(Hour(alarm.time), Minute(alarm.time));
      assert forall x :: Matches(m, x) <==> MinuteOfDay(x) == MinuteOfDay(alarm.time) by {
        forall x ensures Matches(m, x) <==> MinuteOfDay(x) == MinuteOfDay(alarm.time) {
          InstantDecomposition(x);
        }
      }
      CalendarTrigger(m, true)
    else
      var next := NextOccurrence(alarm.time, now);
      var m := DayHourMinute(DayOf(next), Hour(next), Minute(next));
      assert forall x :: Matches(m, x) <==> x == next by {
        forall x ensures Matches(m, x) <==> x == next {
          InstantDecomposition(x);
          InstantDecomposition(next);
        }
      }
      CalendarTrigger(m, false)
  }

  /** `UNNotificationRequest`: identifier, content title and trigger. */
  datatype NotificationRequest = NotificationRequest(identifier: string, title: string, trigger: Trigger)

  /** The request `schedule` posts for an alarm. */
  function RequestFor(alarm: Alarm, now: Instant): (r: NotificationRequest)
    ensures r.identifier == UuidString(alarm.id) && ParseUuid(r.identifier) == Some(alarm.id)
    ensures r.title != []
    ensures alarm.labelText != [] ==> r.title == alarm.labelText
    ensures alarm.labelText == [] ==> r.title == DefaultLabel
    ensures r.trigger == TriggerFor(alarm, now)
  {
    UuidStringRoundTrip(alarm.id);
    NotificationRequest(UuidString(alarm.id), NormalizedLabel(alarm.labelText), TriggerFor(alarm, now))
  }

  /** `ids.map(\.uuidString)`: one identifier per id, in the given order,
      each naming exactly its id. */
  function Identifiers(ids: seq<Uuid>): (r: seq<string>)
    ensures |r| == |ids|
    ensures forall i :: 0 <= i < |ids| ==> r[i] == UuidString(ids[i]) && ParseUuid(r[i]) == Some(ids[i])
  {
    if ids == [] then []
    else
      UuidStringRoundTrip(ids[0]);
      [UuidString(ids[0])] + Identifiers(ids[1..])
  }

  /** A call made on `UNUserNotificationCenter`. */
  datatype CenterCall =
    | AddRequest(request: NotificationRequest)
    | RemovePending(identifiers: seq<string>)

  class NotificationService {
    /** Every call made on the notification centre, oldest first. */
    ghost var centerCalls: seq<CenterCall>

    constructor()
      ensures centerCalls == []
    {
      centerCalls := [];
    }

    /** `schedule(alarm:)`. `status` is what `authorizationStatus()`
        answered and `added` is how the centre completed the `add` call. */
    method Schedule(alarm: Alarm, status: AuthorizationStatus, now: Instant, added: Outcome<string>)
      returns (r: Outcome<ServiceError>)
      modifies this
      ensures !MayPostNotifications(status) ==> r == Fail(NotAuthorized) && centerCalls == old(centerCalls)
      ensures MayPostNotifications(status) ==>
        centerCalls == old(centerCalls) + [AddRequest(RequestFor(alarm, now))] &&
        r == (if added.Pass? then Pass else Fail(CenterError(added.error)))
    {
      if !MayPostNotifications(status) {
        return Fail(NotAuthorized);
      }
      var request := RequestFor(alarm, now);
      centerCalls := centerCalls + [AddRequest(request)];
      if added.Fail? {
        return Fail(CenterError(added.error));
      }
      return Pass;
    }

    /** `cancel(alarmID:)`: removes exactly one identifier. */
    method Cancel(alarmID: Uuid)
      modifies this
      ensures centerCalls == old(centerCalls) + [RemovePending([UuidString(alarmID)])]
    {
      centerCalls := centerCalls + [RemovePending([UuidString(alarmID)])];
    }

    /** `cancelAll(ids:)`: one call naming every id, in the given order. */
    method CancelAll(ids: seq<Uuid>)
      modifies this
      ensures centerCalls == old(centerCalls) + [RemovePending(Identifiers(ids))]
    {
      centerCalls := centerCalls + [RemovePending(Identifiers(ids))];
    }
  }
}
