/** The alarm record and the wall-clock arithmetic it is read with.

    Instants are whole minutes since a fixed epoch on the local wall clock,
    so the calendar's hour and minute of an instant are plain arithmetic
    on it. */
module Alarms {
  import opened Wrappers
  import opened Uuids
  import AlarmSounds

  type Instant = int

  const MinutesPerHour: int := 60
  const MinutesPerDay: int := 1440

  /** Minutes since the local midnight of the instant's day. */
  function MinuteOfDay(t: Instant): (m: int)
    ensures 0 <= m < MinutesPerDay
  {
    t % MinutesPerDay
  }

  /** The day an instant falls on, counted from the epoch. */
  function DayOf(t: Instant): int
  {
    t / MinutesPerDay
  }

  /** `dateComponents([.hour], from: t).hour`. */
  function Hour(t: Instant): (h: int)
    ensures 0 <= h < 24
  {
    MinuteOfDay(t) / MinutesPerHour
  }

  /** `dateComponents([.minute], from: t).minute`. */
  function Minute(t: Instant): (m: int)
    ensures 0 <= m < 60
  {
    MinuteOfDay(t) % MinutesPerHour
  }

  /** An instant is its day, its hour and its minute. */
  lemma InstantDecomposition(t: Instant)
    ensures t == DayOf(t) * MinutesPerDay + Hour(t) * MinutesPerHour + Minute(t)
    ensures Hour(t) * MinutesPerHour + Minute(t) == MinuteOfDay(t)
  {
  }

  /** One alarm (`labelText` is the label; `label` is a Dafny keyword).
      `repeatsDaily` is the field the notification service reads;
      `weekday`, `sound`, `repeatsWeekly` and `scheduledDate` are the fields
      the alarm list controller reads and writes. */
  datatype Alarm = Alarm(
    id: Uuid,
    time: Instant,
    labelText: string,
    isEnabled: bool,
    repeatsDaily: bool,
    weekday: int,
    sound: AlarmSounds.AlarmSound,
    repeatsWeekly: bool,
    scheduledDate: Option<Instant>)

  const DefaultLabel: string := "Alarm"

  /** The label rule shared by the initializer, the editor and the
      notification title: an empty label reads as "Alarm". */
  function NormalizedLabel(labelText: string): (r: string)
    ensures r != []
    ensures labelText != [] ==> r == labelText
    ensures labelText == [] ==> r == DefaultLabel
  {
    if labelText == [] then DefaultLabel else labelText
  }

  /** `Alarm.init`, with the initializer's defaults. The id is the caller's
      fresh `UUID()`. No scheduled date is set by construction. */
  function NewAlarm(
    id: Uuid,
    time: Instant,
    weekday: int,
    sound: AlarmSounds.AlarmSound,
    repeatsWeekly: bool,
    labelText: string := DefaultLabel,
    isEnabled: bool := true,
    repeatsDaily: bool := true): (a: Alarm)
    ensures a.labelText != []
    ensures labelText != [] ==> a.labelText == labelText
    ensures labelText == [] ==> a.labelText == DefaultLabel
    ensures a.id == id && a.time == time && a.isEnabled == isEnabled && a.repeatsDaily == repeatsDaily
    ensures a.weekday == weekday && a.sound == sound && a.repeatsWeekly == repeatsWeekly
    ensures a.scheduledDate == None
  {
    Alarm(id, time, NormalizedLabel(labelText), isEnabled, repeatsDaily, weekday, sound, repeatsWeekly, None)
  }

  lemma NewAlarmDefaults(id: Uuid, time: Instant, weekday: int, sound: AlarmSounds.AlarmSound, repeatsWeekly: bool)
    ensures var a := NewAlarm(id, time, weekday, sound, repeatsWeekly);
      a.labelText == "Alarm" && a.isEnabled && a.repeatsDaily
  {
  }
}
