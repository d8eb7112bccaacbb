# Shabbat Alarm Clock: alarm list controller, in Dafny

This project models the core of the Shabbat Alarm Clock iOS app. That core is the
alarm list controller (`AlarmListViewModel`), plus the small pieces it relies on:
- the `Alarm` record and its label rule;
- the `AlarmSound` catalogue;
- the notification service's authorization guard, next-occurrence calculation,
  request construction and cancellation calls.

The model is split into modules:

- `Wrappers`: `Option`, `Result` and `Outcome`.
- `Uuids`: an alarm id is 16 bytes. Its `uuidString` is the upper-case
  8-4-4-4-12 hexadecimal form of RFC 4122 section 3. A parser proves that the
  textual form determines the id, so two alarms never share a notification
  identifier.
- `AlarmSounds`: the five sounds, their raw values, `id`, `displayName`,
  `resourceFileName` and raw-value decoding.
- `Alarms`: instants and the `Alarm` record.
  - An instant is a whole number of minutes on the local wall clock, so the
    calendar's hour and minute are arithmetic on it.
  - `Alarm` holds the fields the struct declares (`id`, `time`, `label`,
    `isEnabled`, `repeatsDaily`). It also holds the fields the controller reads
    and writes (`weekday`, `sound`, `repeatsWeekly`, `scheduledDate`).
  - `NewAlarm` is `Alarm.init` with its defaults.
- `Notifications`: the authorization guard, `nextOccurrence`, the calendar
  trigger and the request that `schedule` posts, and the `NotificationService`
  class.
  - The class records every add and remove call it makes on the notification
    centre in a ghost log, `centerCalls`. The settings query that
    `authorizationStatus()` makes is not recorded; its answer is a parameter.
  - `schedule` receives as parameters the status it reads and the centre's
    completion of `add`.
- `AlarmOrdering`: the `sortAlarms` comparator as a rank, its strict weak order,
  sortedness, a stable insertion sort, and its characterization: the sorted
  list that keeps the relative order of tied alarms is unique.
- `AlarmLists`: what the controller does to the list, written as functions on
  sequences:
  - lookup by id;
  - the rewrite of one alarm by add, update, toggle and scheduling failure;
  - removal at an index set;
  - the one-shot reconciliation pass.
- `ViewModels`: the `AlarmListViewModel` class. Its `alarms` field is updated in
  place, and every method states the new state in terms of the functions above.
  - The repository is a ghost log `saves` of every saved list.
  - Each asynchronous scheduling task is an entry in a ghost log
    `scheduleTasks`. Its completion is the later call `RunScheduleTask`, which
    only a started and not yet completed task can make (`completedTasks`).
  - The class invariant `Valid()` says that the list is in `sortAlarms` order.

The standard library's `sort(by:)` is a stable sort, and the model's
`SortAlarms` (an insertion sort) is stable too. The controller's contracts
describe the sorted list by two properties:
- it is in `sortAlarms` order (`Sorted`);
- alarms that tie keep the relative order they had before (`SameTieOrder`).

`AlarmOrdering.StableSortCharacterization` proves that a list has both
properties exactly when it equals `SortAlarms` of the list before. The contracts
are written with the two properties rather than with `SortAlarms` itself, which
keeps the recursive sort out of the controller's proofs. Because reconciliation
never changes an alarm's sort key, the re-sort after it changes nothing, and
`ReconcileOneTimeAlarms` and `OnAppear` state their new list exactly.

The controller builds a new alarm with an initializer that takes `weekday:`,
`sound:` and `repeatsWeekly:` and does not pass `repeatsDaily:`. That initializer
is not the one declared in `Alarm.swift`. The model assumes it behaves like the declared one:
`repeatsDaily` is true, an empty label becomes "Alarm", and no scheduled date is set. Under that assumption,
every alarm added through the list gets a daily repeating trigger, including a
one-shot (`repeatsWeekly == false`) alarm.

## Model

| member | source | states |
|---|---|---|
| AlarmSounds.RawValue | ShabbatAlarmClockiOS/Models/AlarmSound.swift:4-8 | each raw value is the case name: the display name with its initial capital lowered |
| AlarmSounds.Id | ShabbatAlarmClockiOS/Models/AlarmSound.swift:10 | a sound's `id` is its raw value |
| AlarmSounds.DisplayName | ShabbatAlarmClockiOS/Models/AlarmSound.swift:12-25 | every display name is non-empty |
| AlarmSounds.ResourceFileName | ShabbatAlarmClockiOS/Models/AlarmSound.swift:27-29 | the file name is the raw value followed by ".wav", and four characters longer |
| AlarmSounds.FromRawValue | ShabbatAlarmClockiOS/Models/AlarmSound.swift:3 | a decoded case has exactly the given raw value; decoding fails exactly when no case has it (no fallback case) |
| AlarmSounds.AllSoundsIsTheCatalogue | ShabbatAlarmClockiOS/Models/AlarmSound.swift:3-8 | `allCases` has five pairwise distinct entries and contains every sound |
| AlarmSounds.RawValueRoundTrip | ShabbatAlarmClockiOS/Models/AlarmSound.swift:3-8 | decoding the raw value of any sound gives that sound back |
| AlarmSounds.RawValueInjective | ShabbatAlarmClockiOS/Models/AlarmSound.swift:4-8 | distinct sounds have distinct raw values |
| AlarmSounds.DisplayNameInjective | ShabbatAlarmClockiOS/Models/AlarmSound.swift:12-25 | distinct sounds have distinct display names |
| Alarms.NormalizedLabel | ShabbatAlarmClockiOS/Models/Alarm.swift:19 | the stored label is never empty; a non-empty label is kept unchanged; an empty one becomes "Alarm" |
| Alarms.NewAlarm | ShabbatAlarmClockiOS/Models/Alarm.swift:10-22 | the label is the input when that is non-empty and "Alarm" when it is empty; id, time, isEnabled and repeatsDaily are stored as given; no scheduled date is set |
| Alarms.NewAlarmDefaults | ShabbatAlarmClockiOS/Models/Alarm.swift:13-15 | the defaults are label "Alarm", enabled, and repeating daily |
| Alarms.Hour | ShabbatAlarmClockiOS/ViewModels/AlarmListViewModel.swift:218-219 | the hour component of an instant lies in 0..23 |
| Alarms.Minute | ShabbatAlarmClockiOS/ViewModels/AlarmListViewModel.swift:218-219 | the minute component of an instant lies in 0..59 |
| Alarms.InstantDecomposition | ShabbatAlarmClockiOS/ViewModels/AlarmListViewModel.swift:221-222 | an instant is its day, hour and minute; `hour * 60 + minute` is the minute of the day |
| Uuids.UuidString | ShabbatAlarmClockiOS/Services/NotificationServiceError.swift:71 | `uuidString` has 36 characters, with dashes at offsets 8, 13, 18 and 23 |
| Uuids.ParseHexOfHex | ShabbatAlarmClockiOS/Services/NotificationServiceError.swift:71 | reading back the hexadecimal digits of any bytes gives those bytes |
| Uuids.UuidStringRoundTrip | ShabbatAlarmClockiOS/Services/NotificationServiceError.swift:71 | parsing an id's `uuidString` gives the id back |
| Uuids.UuidStringInjective | ShabbatAlarmClockiOS/Services/NotificationServiceError.swift:88 | two different alarm ids never give the same notification identifier |
| Notifications.MayPostNotifications | ShabbatAlarmClockiOS/Services/NotificationServiceError.swift:49 | posting is refused exactly for the not-determined, denied and ephemeral statuses |
| Notifications.LocalizedDescription | ShabbatAlarmClockiOS/Services/NotificationServiceError.swift:15-20 | `notAuthorized` reads as its fixed sentence; a centre error keeps its own description |
| Notifications.NextOccurrence | ShabbatAlarmClockiOS/Services/NotificationServiceError.swift:95-111 | the result is strictly after now and at most one day after it, and has the alarm's hour and minute |
| Notifications.NextOccurrenceIsEarliest | ShabbatAlarmClockiOS/Services/NotificationServiceError.swift:99-110 | no instant strictly after now with the alarm's time of day is earlier than the result |
| Notifications.NextOccurrenceTodayOrTomorrow | ShabbatAlarmClockiOS/Services/NotificationServiceError.swift:105-110 | the result is today exactly when the alarm's time of day is later than now's, and tomorrow otherwise |
| Notifications.NextOccurrenceSkipsNow | ShabbatAlarmClockiOS/Services/NotificationServiceError.swift:106-109 | at the alarm's own minute the result is exactly one day later (the comparison is strict) |
| Notifications.TriggerFor | ShabbatAlarmClockiOS/Services/NotificationServiceError.swift:58-68 | the trigger repeats iff `repeatsDaily`; a daily trigger matches exactly the instants with the alarm's time of day; any other matches exactly the next occurrence |
| Notifications.RequestFor | ShabbatAlarmClockiOS/Services/NotificationServiceError.swift:54-74 | the identifier is the alarm id's `uuidString` and parses back to the id; the title is the label, or "Alarm" when the label is empty; the trigger is `TriggerFor` |
| Notifications.Identifiers | ShabbatAlarmClockiOS/Services/NotificationServiceError.swift:92 | one identifier per id, in order, each the `uuidString` of its id and parsing back to it |
| Notifications.NotificationService.constructor | ShabbatAlarmClockiOS/Services/NotificationServiceError.swift:23-24 | no centre calls have been made |
| Notifications.NotificationService.Schedule | ShabbatAlarmClockiOS/Services/NotificationServiceError.swift:47-85 | unless the status is authorized or provisional: fails with `notAuthorized` and adds nothing; otherwise adds exactly `RequestFor(alarm)` and reports the centre's failure, if any |
| Notifications.NotificationService.Cancel | ShabbatAlarmClockiOS/Services/NotificationServiceError.swift:87-89 | one removal call naming exactly the id's identifier |
| Notifications.NotificationService.CancelAll | ShabbatAlarmClockiOS/Services/NotificationServiceError.swift:91-93 | one removal call naming every id's identifier in the given order |
| AlarmOrdering.Precedes | ShabbatAlarmClockiOS/ViewModels/AlarmListViewModel.swift:212-225 | `lhs` precedes `rhs` iff its (weekday, minutes since midnight) key is lexicographically smaller |
| AlarmOrdering.PrecedesIsStrictWeakOrder | ShabbatAlarmClockiOS/ViewModels/AlarmListViewModel.swift:212-225 | the comparator is irreflexive, asymmetric and transitive, and being tied is transitive |
| AlarmOrdering.SortAlarms | ShabbatAlarmClockiOS/ViewModels/AlarmListViewModel.swift:79 | the result is sorted by the comparator and is a permutation of the input |
| AlarmOrdering.SortSortedIsIdentity | ShabbatAlarmClockiOS/ViewModels/AlarmListViewModel.swift:79 | sorting a list already in order leaves it unchanged |
| AlarmOrdering.SameKeysStaySorted | ShabbatAlarmClockiOS/ViewModels/AlarmListViewModel.swift:135-141 | rewriting alarms without touching weekday or time keeps a sorted list sorted |
| AlarmOrdering.SortAlarmsIsStable | ShabbatAlarmClockiOS/ViewModels/AlarmListViewModel.swift:79 | the sort keeps the relative order of tied alarms |
| AlarmOrdering.StableSortUnique | ShabbatAlarmClockiOS/ViewModels/AlarmListViewModel.swift:79 | two sorted lists with the same order of ties are equal |
| AlarmOrdering.StableSortCharacterization | ShabbatAlarmClockiOS/ViewModels/AlarmListViewModel.swift:79 | a list is sorted and keeps the order of ties iff it is `SortAlarms` of the input |
| AlarmOrdering.SortedPermutationsAgree | ShabbatAlarmClockiOS/ViewModels/AlarmListViewModel.swift:79 | two sorted permutations of the same alarms agree position by position on the sort key |
| AlarmLists.FirstIndex | ShabbatAlarmClockiOS/ViewModels/AlarmListViewModel.swift:105 | finds the first alarm with the id, or reports that none has it |
| AlarmLists.AddedAlarm | ShabbatAlarmClockiOS/ViewModels/AlarmListViewModel.swift:59-76 | the stored alarm has the given fields; its label is the input, or "Alarm" when that is empty; it is enabled iff notifications may be posted; a one-shot alarm is dated with `nextTriggerDate`, a weekly one is not dated |
| AlarmLists.Edited | ShabbatAlarmClockiOS/ViewModels/AlarmListViewModel.swift:109-114 | id, isEnabled and repeatsDaily are kept; the edited fields are as given; the label is the input, or "Alarm" when that is empty; no scheduled date iff `repeatsWeekly`, and a one-shot alarm is dated with `nextTriggerDate` of the edited alarm |
| AlarmLists.Toggled | ShabbatAlarmClockiOS/ViewModels/AlarmListViewModel.swift:135-139 | only `isEnabled` and `scheduledDate` change; the latter is re-dated only when enabling a one-shot alarm |
| AlarmLists.Demoted | ShabbatAlarmClockiOS/ViewModels/AlarmListViewModel.swift:170-173 | only the first alarm with the id, if any, changes, and only by being disabled |
| AlarmLists.Survivors | ShabbatAlarmClockiOS/ViewModels/AlarmListViewModel.swift:162-164 | the alarms left after the removals are never more than the list |
| AlarmLists.SurvivorsFromList | ShabbatAlarmClockiOS/ViewModels/AlarmListViewModel.swift:162-164 | every survivor comes from the list |
| AlarmLists.IdsAtAreRemoved | ShabbatAlarmClockiOS/ViewModels/AlarmListViewModel.swift:158 | the ids handed to `cancelAll` are exactly the ids of the alarms at the offsets |
| AlarmLists.SurvivorsCount | ShabbatAlarmClockiOS/ViewModels/AlarmListViewModel.swift:157-164 | one id is cancelled per offset, and removed plus surviving alarms make up the list |
| AlarmLists.RemoveLargestRemaining | ShabbatAlarmClockiOS/ViewModels/AlarmListViewModel.swift:162-164 | removing the largest pending offset by position removes the alarm originally at that offset |
| AlarmLists.SurvivorsSorted | ShabbatAlarmClockiOS/ViewModels/AlarmListViewModel.swift:162-164 | removal keeps survivors in their order, so a sorted list stays sorted |
| AlarmLists.Expired | ShabbatAlarmClockiOS/ViewModels/AlarmListViewModel.swift:193-195 | the expiry condition of the loop: an enabled one-shot alarm whose scheduled date is at or before now; such an alarm is never also undated, so the loop's two branches never compete |
| AlarmLists.OneShotCases | ShabbatAlarmClockiOS/ViewModels/AlarmListViewModel.swift:191-203 | expired and undated exclude each other; an enabled one-shot alarm is expired, undated or due later; repeating and disabled alarms are neither |
| AlarmLists.ExpiryCancellationsAreExpired | ShabbatAlarmClockiOS/ViewModels/AlarmListViewModel.swift:197 | the loop cancels the identifier of every expired alarm and of no other |
| AlarmLists.ReconcileOne | ShabbatAlarmClockiOS/ViewModels/AlarmListViewModel.swift:191-203 | repeating alarms are untouched; an expired one is disabled; an undated enabled one is dated from now; afterwards every enabled one-shot alarm has a date |
| AlarmLists.Reconciled | ShabbatAlarmClockiOS/ViewModels/AlarmListViewModel.swift:190-204 | every alarm is reconciled in its place |
| AlarmLists.ReconcilePrefixStep | ShabbatAlarmClockiOS/ViewModels/AlarmListViewModel.swift:190-204 | each alarm scanned adds its own cancellation and its own need for a change |
| AlarmLists.ReconciledUnchangedIff | ShabbatAlarmClockiOS/ViewModels/AlarmListViewModel.swift:188-206 | `didChange` is exact: the pass changes the list iff some alarm is expired or undated |
| AlarmLists.ReconcileIdempotent | ShabbatAlarmClockiOS/ViewModels/AlarmListViewModel.swift:186-210 | when `nextTriggerDate` dates into the future, a second pass at the same instant changes nothing |
| AlarmLists.ReconciledStaysSorted | ShabbatAlarmClockiOS/ViewModels/AlarmListViewModel.swift:196-201 | reconciliation does not disturb the sort order |
| ViewModels.AlarmListViewModel.constructor | ShabbatAlarmClockiOS/ViewModels/AlarmListViewModel.swift:7-21 | empty list, no editor, status not determined, no alert, nothing saved, started or completed |
| ViewModels.AlarmListViewModel.Persist | ShabbatAlarmClockiOS/ViewModels/AlarmListViewModel.swift:177-179 | the current list is saved |
| ViewModels.AlarmListViewModel.SortAndPersist | ShabbatAlarmClockiOS/ViewModels/AlarmListViewModel.swift:79-80 | the list becomes sorted, a permutation of itself that keeps the order of ties, and is saved |
| ViewModels.AlarmListViewModel.PresentAlert | ShabbatAlarmClockiOS/ViewModels/AlarmListViewModel.swift:181-184 | the message is set and the alert shown |
| ViewModels.AlarmListViewModel.OnAppear | ShabbatAlarmClockiOS/ViewModels/AlarmListViewModel.swift:31-38 | the list becomes `Reconciled(SortAlarms(loaded))`, each expired alarm is cancelled, and the list is saved only if reconciliation changed something |
| ViewModels.AlarmListViewModel.RefreshNotificationStatus | ShabbatAlarmClockiOS/ViewModels/AlarmListViewModel.swift:40-42 | the status becomes the one the service answered |
| ViewModels.AlarmListViewModel.CompletePermissionRequest | ShabbatAlarmClockiOS/ViewModels/AlarmListViewModel.swift:44-57 | the status is refreshed on an answer; a refusal or an error raises its alert; a grant raises none |
| ViewModels.AlarmListViewModel.AddAlarm | ShabbatAlarmClockiOS/ViewModels/AlarmListViewModel.swift:59-91 | the list is the old list plus exactly `AddedAlarm`, sorted with ties kept in order, and saved; only an enabled alarm is handed to a scheduling task; when notifications may not be posted the advisory alert is raised |
| ViewModels.AlarmListViewModel.EditAlarm | ShabbatAlarmClockiOS/ViewModels/AlarmListViewModel.swift:93-95 | the alarm becomes the one being edited |
| ViewModels.AlarmListViewModel.UpdateAlarm | ShabbatAlarmClockiOS/ViewModels/AlarmListViewModel.swift:97-130 | an unknown id changes nothing; otherwise the id is cancelled, the alarm is replaced by `Edited`, and the list is re-sorted with ties kept in order, saved and the editor closed; an enabled alarm is handed to a scheduling task |
| ViewModels.AlarmListViewModel.ToggleAlarm | ShabbatAlarmClockiOS/ViewModels/AlarmListViewModel.swift:132-155 | an unknown id changes nothing; otherwise only that alarm becomes `Toggled` in place, the order is kept, the list is saved, and enabling schedules while disabling cancels |
| ViewModels.AlarmListViewModel.DeleteAlarms | ShabbatAlarmClockiOS/ViewModels/AlarmListViewModel.swift:157-167 | exactly the alarms at the offsets are removed, survivors keep their order, all removed ids are cancelled in one call, and the list is saved |
| ViewModels.AlarmListViewModel.RemoveOffsets | ShabbatAlarmClockiOS/ViewModels/AlarmListViewModel.swift:161-164 | removing one offset at a time, largest first, leaves exactly the survivors |
| ViewModels.LargestOffset | ShabbatAlarmClockiOS/ViewModels/AlarmListViewModel.swift:162 | picks the largest offset still pending (the descending order of the loop) |
| ViewModels.AlarmListViewModel.HandleSchedulingError | ShabbatAlarmClockiOS/ViewModels/AlarmListViewModel.swift:169-175 | disables the alarm with the id if it is still present, saving only then, and always raises the alert with the error's description |
| ViewModels.AlarmListViewModel.RunScheduleTask | ShabbatAlarmClockiOS/ViewModels/AlarmListViewModel.swift:83-89 | the task must be started and not completed, and becomes completed; without authorization nothing is posted and the alarm is demoted; otherwise the request is posted, and a failure demotes the alarm and raises the alert; a demotion saves only if the alarm is still in the list |
| ViewModels.AlarmListViewModel.ReconcileOneTimeAlarms | ShabbatAlarmClockiOS/ViewModels/AlarmListViewModel.swift:186-210 | every expired one-shot alarm is cancelled; the list becomes exactly `Reconciled` (the re-sort keeps it as it is); it is saved iff something needed to change |
| ViewModels.AlarmListViewModel.ReconcilePass | ShabbatAlarmClockiOS/ViewModels/AlarmListViewModel.swift:188-204 | the loop leaves `Reconciled` in place, its flag is exact, and its cancellations are the expired alarms in list order |
| ViewModels.AlarmListViewModel.ReconcileAt | ShabbatAlarmClockiOS/ViewModels/AlarmListViewModel.swift:191-203 | one iteration rewrites only its own alarm and reports whether it changed it |

## Left out

- The repository (`AlarmRepository`, JSON in `UserDefaults`) is not part of this model. Saving is the ghost log `saves`, and the loaded list is a parameter of `OnAppear`.
- `Task { ... }` and the continuation bridging are not modelled as concurrency. A started task is an entry in `scheduleTasks`, and its completion is the separate call `RunScheduleTask`. The order in which tasks complete is left to the caller.
- `authorizationStatus()`, `requestAuthorization()`, `Date()`, `UUID()` and the centre's completion of `add` are parameters.
- The notification body (`DateFormatter.alarmTime`, a locale-dependent formatting) and `content.sound` are not modelled. The request carries identifier, title and trigger.
- `Calendar.current` time zones and daylight saving are not modelled. Instants are wall-clock minutes, and a year/month/day is represented by a day number.
- The `?? now` and `?? todayTarget` fallbacks of `nextOccurrence` are taken as never hit.
- The body of `Alarm.nextTriggerDate(referenceDate:)` is not part of this model. It is an uninterpreted function of the controller, and the omitted argument is the current instant. The function is assumed never to fail: it always returns a date, although trigger calculation can fail in the app. If it returned no date, the loop of `reconcileOneTimeAlarms` would still set `didChange` and save, while leaving the alarm undated.
- Edited: `scheduledDate.None? <==> repeatsWeekly` holds only because `nextTriggerDate` is assumed never to fail.
- ReconcileOne: that every enabled one-shot alarm without a date ends up dated holds only because `nextTriggerDate` is assumed never to fail.
- ReconciledUnchangedIff: the change flag is exact only because `nextTriggerDate` is assumed never to fail; a failing call would report a change that leaves the list as it was.
- ReconcileIdempotent: holds only because `nextTriggerDate` is assumed never to fail, so that a first pass leaves no enabled one-shot alarm undated.
- `NotificationServiceError.errorDescription` is carried as the constant description of `NotAuthorized`. Errors thrown by the centre keep their own description.
- The struct declared in `Alarm.swift` lacks fields the controller uses. The model's `Alarm` is the union of both field lists. The controller is followed:
  - weekdays are not normalised;
  - an unknown sound raw value has no fallback case;
  - `nextOccurrence` ignores the weekday.
- `showAddAlarm` is a field, but none of the modelled methods sets it.
- Offsets passed to `deleteAlarms` must lie inside the list: Swift traps on any other, so `DeleteAlarms` requires them.
- Views, `AppTheme`, the sound preview player, `AppStoreConfiguration` and the date formatter are presentation or I/O and are not modelled.
- AddedAlarm: assumes that the controller's initializer, which is not part of this model, behaves like the one declared in `Alarm.swift`: it defaults `repeatsDaily` to true, applies the label rule of `Alarm.swift:19` (an empty label becomes "Alarm") and leaves `scheduledDate` nil. It also assumes that `nextTriggerDate` never fails, so a one-shot alarm is always dated.
