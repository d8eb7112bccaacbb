/** The alarm list controller. It owns the list of alarms and changes it in
    place; it is the only writer of the list. Its collaborators are seen only
    through what it hands them: the repository through the ghost log of
    saved lists, the notification service through that service's own log of
    notification-centre calls, and each asynchronous scheduling task through
    the ghost log of alarms handed to one. A task's completion is the later
    call `RunScheduleTask`. */
module ViewModels {
  import opened Wrappers
  import opened Uuids
  import opened Alarms
  import AlarmSounds
  import opened Notifications
  import opened AlarmOrdering
  import opened AlarmLists

  const SavedButDisabledAdvisory: string :=
    "Alarm saved, but notifications are not enabled. Turn them on in Settings to activate alarms."
  const NotificationsDeniedAdvisory: string :=
    "Notifications were not allowed. You can still save alarms, but they won’t ring until notifications are enabled."
  const PermissionFailurePrefix: string := "Failed to request notification permission: "
  const SchedulingFailurePrefix: string := "Couldn’t schedule alarm: "

  class AlarmListViewModel {
    var alarms: seq<Alarm>
    var showAddAlarm: bool
    var editingAlarm: Option<Alarm>
    var notificationStatus: AuthorizationStatus
    var alertMessage: Option<string>
    var showAlert: bool

    const service: NotificationService
    /** `Alarm.nextTriggerDate(referenceDate:)`; its body is not part of
        this model, and it is taken to always return a date. */
    const nextTriggerDate: (Alarm, Instant) -> Instant

    /** Every list handed to the repository's `save`, oldest first. */
    ghost var saves: seq<seq<Alarm>>
    /** Every alarm handed to an asynchronous `schedule` task, oldest first. */
    ghost var scheduleTasks: seq<Alarm>
    /** The tasks among those that have run to completion. */
    ghost var completedTasks: multiset<Alarm>

    /** The list is always in `sortAlarms` order. */
    ghost predicate Valid()
      reads this
    {
      Sorted(alarms)
    }

    constructor(service: NotificationService, nextTriggerDate: (Alarm, Instant) -> Instant)
      ensures Valid()
      ensures this.service == service && this.nextTriggerDate == nextTriggerDate
      ensures alarms == [] && !showAddAlarm && editingAlarm == None
      ensures notificationStatus == NotDetermined && alertMessage == None && !showAlert
      ensures saves == [] && scheduleTasks == [] && completedTasks == multiset{}
    {
      this.service := service;
      this.nextTriggerDate := nextTriggerDate;
      alarms := [];
      showAddAlarm := false;
      editingAlarm := None;
      notificationStatus := NotDetermined;
      alertMessage := None;
      showAlert := false;
      saves := [];
      scheduleTasks := [];
      completedTasks := multiset{};
    }

    /** `persist()`: hands the current list to the repository. */
    method Persist()
      modifies this`saves
      ensures saves == old(saves) + [alarms]
    {
      saves := saves + [alarms];
    }

    /** `alarms.sort(by: sortAlarms)` followed by `persist()`: the list is
        rearranged into `sortAlarms` order, and the sorted list is saved. */
    method SortAndPersist()
      modifies this`alarms, this`saves
      ensures Valid()
      ensures multiset(alarms) == multiset(old(alarms))
      ensures SameTieOrder(alarms, old(alarms))
      ensures saves == old(saves) + [alarms]
    {
      SortAlarmsIsStable(alarms);
      alarms := SortAlarms(alarms);
      Persist();
    }

    /** `presentAlert(_:)`. */
    method PresentAlert(message: string)
      modifies this`alertMessage, this`showAlert
      ensures alertMessage == Some(message) && showAlert
    {
      alertMessage := Some(message);
      showAlert := true;
    }

    /** `onAppear()`: load and sort the stored list, then reconcile it. The
        status refresh it starts is the later call
        `RefreshNotificationStatus`. */
    method OnAppear(loaded: seq<Alarm>, now: Instant)
      modifies this`alarms, this`saves, service
      ensures Valid()
      ensures var sorted := SortAlarms(loaded);
        && service.centerCalls == old(service.centerCalls) + ExpiryCancellations(sorted, now)
        && alarms == Reconciled(sorted, now, nextTriggerDate)
        && (ReconcileNeeded(sorted, now) ==> saves == old(saves) + [alarms])
        && (!ReconcileNeeded(sorted, now) ==> alarms == sorted && saves == old(saves))
    {
      alarms := SortAlarms(loaded);
      ReconcileOneTimeAlarms(now);
    }

    /** `refreshNotificationStatus()`, with the status the service answered. */
    method RefreshNotificationStatus(status: AuthorizationStatus)
      modifies this`notificationStatus
      ensures notificationStatus == status
    {
      notificationStatus := status;
    }

    /** The task `requestNotificationPermissionIfNeeded()` starts, given how
        the permission request completed (granted or not, or an error with
        its description) and the status read afterwards. */
    method CompletePermissionRequest(response: Result<bool, string>, status: AuthorizationStatus)
      modifies this`notificationStatus, this`alertMessage, this`showAlert
      ensures response.Success? ==> notificationStatus == status
      ensures response.Failure? ==> notificationStatus == old(notificationStatus)
      ensures response == Success(true) ==> alertMessage == old(alertMessage) && showAlert == old(showAlert)
      ensures response == Success(false) ==> alertMessage == Some(NotificationsDeniedAdvisory) && showAlert
      ensures response.Failure? ==> alertMessage == Some(PermissionFailurePrefix + response.error) && showAlert
    {
      match response
      case Success(granted) =>
        RefreshNotificationStatus(status);
        if !granted {
          PresentAlert(NotificationsDeniedAdvisory);
        }
      case Failure(description) =>
        PresentAlert(PermissionFailurePrefix + description);
    }

    /** `addAlarm(...)`. `id` is the fresh `UUID()` and `now` the current
        instant. The new list is the old one with the new alarm added, in
        `sortAlarms` order. */
    method AddAlarm(
      id: Uuid, time: Instant, labelText: string, weekday: int, sound: AlarmSounds.AlarmSound,
      repeatsWeekly: bool, now: Instant)
      requires Valid()
      modifies this`alarms, this`saves, this`scheduleTasks, this`alertMessage, this`showAlert
      ensures Valid()
      ensures var added := AddedAlarm(id, time, labelText, weekday, sound, repeatsWeekly,
                                      notificationStatus, now, nextTriggerDate);
        && multiset(alarms) == multiset(old(alarms)) + multiset{added}
        && SameTieOrder(alarms, old(alarms) + [added])
        && saves == old(saves) + [alarms]
        && scheduleTasks == old(scheduleTasks) + (if added.isEnabled then [added] else [])
      ensures MayPostNotifications(notificationStatus) ==>
        alertMessage == old(alertMessage) && showAlert == old(showAlert)
      ensures !MayPostNotifications(notificationStatus) ==>
        alertMessage == Some(SavedButDisabledAdvisory) && showAlert
    {
      var newAlarm := NewAlarm(id, time, weekday, sound, repeatsWeekly, labelText, true);
      if !repeatsWeekly {
        newAlarm := newAlarm.(scheduledDate := Some(nextTriggerDate(newAlarm, now)));
      }
      if !MayPostNotifications(notificationStatus) {
        newAlarm := newAlarm.(isEnabled := false);
        PresentAlert(SavedButDisabledAdvisory);
      }
      alarms := alarms + [newAlarm];
      SortAndPersist();
      if newAlarm.isEnabled {
        scheduleTasks := scheduleTasks + [newAlarm];
      }
    }

    /** `editAlarm(_:)`. */
    method EditAlarm(alarm: Alarm)
      modifies this`editingAlarm
      ensures editingAlarm == Some(alarm)
    {
      editingAlarm := Some(alarm);
    }

    /** `updateAlarm(id:...)`: nothing happens for an unknown id; otherwise
        the pending notification is cancelled, the alarm rewritten, the list
        re-sorted and saved, the editor closed, and an enabled alarm handed
        to a scheduling task. */
    method UpdateAlarm(
      id: Uuid, time: Instant, labelText: string, weekday: int, sound: AlarmSounds.AlarmSound,
      repeatsWeekly: bool, now: Instant)
      requires Valid()
      modifies this`alarms, this`saves, this`scheduleTasks, this`editingAlarm, service
      ensures Valid()
      ensures FirstIndex(old(alarms), id).None? ==>
        && alarms == old(alarms) && saves == old(saves) && scheduleTasks == old(scheduleTasks)
        && editingAlarm == old(editingAlarm) && service.centerCalls == old(service.centerCalls)
      ensures FirstIndex(old(alarms), id).Some? ==>
        var i := FirstIndex(old(alarms), id).value;
        var updated := Edited(old(alarms)[i], time, labelText, weekday, sound, repeatsWeekly, now, nextTriggerDate);
        && service.centerCalls == old(service.centerCalls) + [RemovePending([UuidString(id)])]
        && multiset(alarms) == multiset(old(alarms)[i := updated])
        && SameTieOrder(alarms, old(alarms)[i := updated])
        && saves == old(saves) + [alarms]
        && editingAlarm == None
        && scheduleTasks == old(scheduleTasks) + (if updated.isEnabled then [updated] else [])
    {
      var found := FirstIndex(alarms, id);
      if found.None? {
        return;
      }
      var index := found.value;
      service.Cancel(id);
      var a := alarms[index].(time := time, labelText := NormalizedLabel(labelText), weekday := weekday,
                              sound := sound, repeatsWeekly := repeatsWeekly);
      a := a.(scheduledDate := if repeatsWeekly then None else Some(nextTriggerDate(a, now)));
      alarms := alarms[index := a];
      var updatedAlarm := alarms[index];
      SortAndPersist();
      editingAlarm := None;
      if updatedAlarm.isEnabled {
        scheduleTasks := scheduleTasks + [updatedAlarm];
      }
    }

    /** `toggleAlarm(id:isEnabled:)`: the list keeps its order (no re-sort);
        enabling hands the alarm to a scheduling task, disabling cancels its
        notification. */
    method ToggleAlarm(id: Uuid, isEnabled: bool, now: Instant)
      requires Valid()
      modifies this`alarms, this`saves, this`scheduleTasks, service
      ensures Valid()
      ensures FirstIndex(old(alarms), id).None? ==>
        && alarms == old(alarms) && saves == old(saves) && scheduleTasks == old(scheduleTasks)
        && service.centerCalls == old(service.centerCalls)
      ensures FirstIndex(old(alarms), id).Some? ==>
        var i := FirstIndex(old(alarms), id).value;
        && alarms == old(alarms)[i := Toggled(old(alarms)[i], isEnabled, now, nextTriggerDate)]
        && saves == old(saves) + [alarms]
        && (isEnabled ==>
              scheduleTasks == old(scheduleTasks) + [alarms[i]] && service.centerCalls == old(service.centerCalls))
        && (!isEnabled ==>
              scheduleTasks == old(scheduleTasks)
              && service.centerCalls == old(service.centerCalls) + [RemovePending([UuidString(id)])])
    {
      var found := FirstIndex(alarms, id);
      if found.None? {
        return;
      }
      var index := found.value;
      ghost var before := alarms;
      var a := alarms[index].(isEnabled := isEnabled);
      if isEnabled && !a.repeatsWeekly {
        a := a.(scheduledDate := Some(nextTriggerDate(a, now)));
      }
      alarms := alarms[index := a];
      SameKeysStaySorted(before, alarms);
      var alarm := alarms[index];
      Persist();
      if isEnabled {
        scheduleTasks := scheduleTasks + [alarm];
      } else {
        service.Cancel(id);
      }
    }

    /** `deleteAlarms(at:)`: one `cancelAll` naming every removed alarm in
        offset order, then the removal, then a save. */
    method DeleteAlarms(offsets: set<nat>)
      requires Valid()
      requires forall o :: o in offsets ==> o < |alarms|
      modifies this`alarms, this`saves, service
      ensures Valid()
      ensures alarms == Survivors(old(alarms), offsets, 0)
      ensures |alarms| == |old(alarms)| - |offsets|
      ensures service.centerCalls ==
        old(service.centerCalls) + [RemovePending(Identifiers(IdsAt(old(alarms), offsets, 0)))]
      ensures |IdsAt(old(alarms), offsets, 0)| == |offsets|
      ensures saves == old(saves) + [alarms]
    {
      var idsToCancel := IdsAt(alarms, offsets, 0);
      service.CancelAll(idsToCancel);
      ghost var original := alarms;
      RemoveOffsets(offsets);
      SurvivorsSorted(original, offsets, 0);
      SurvivorsCount(original, offsets, 0);
      assert OffsetsIn(offsets, 0, |original|) == offsets;
      Persist();
    }

    /** The removal loop of `deleteAlarms(at:)`: `remove(at:)` once per
        offset, from the largest down, so that each offset still names the
        alarm it named in the original list. */
    method RemoveOffsets(offsets: set<nat>)
      requires forall o :: o in offsets ==> o < |alarms|
      modifies this`alarms
      ensures alarms == Survivors(old(alarms), offsets, 0)
    {
      ghost var original := alarms;
      SurvivorsOfUntouched(original, {}, 0);
      var pending := offsets;
      ghost var removed: set<nat> := {};
      while pending != {}
        invariant pending + removed == offsets && pending !! removed
        invariant forall p, d :: p in pending && d in removed ==> p < d
        invariant alarms == Survivors(original, removed, 0)
        decreases pending
      {
        var index := LargestOffset(pending);
        RemoveLargestRemaining(original, removed, index);
        alarms := alarms[..index] + alarms[index + 1..];
        pending := pending - {index};
        removed := removed + {index};
      }
    }

    /** `handleSchedulingError(for:error:)`: disables the alarm if it is
        still in the list, and always raises the alert. */
    method HandleSchedulingError(alarmID: Uuid, error: ServiceError)
      requires Valid()
      modifies this`alarms, this`saves, this`alertMessage, this`showAlert
      ensures Valid()
      ensures alarms == Demoted(old(alarms), alarmID)
      ensures FirstIndex(old(alarms), alarmID).Some? ==> saves == old(saves) + [alarms]
      ensures FirstIndex(old(alarms), alarmID).None? ==> saves == old(saves)
      ensures alertMessage == Some(SchedulingFailurePrefix + LocalizedDescription(error)) && showAlert
    {
      var found := FirstIndex(alarms, alarmID);
      if found.Some? {
        var index := found.value;
        ghost var before := alarms;
        alarms := alarms[index := alarms[index].(isEnabled := false)];
        SameKeysStaySorted(before, alarms);
        Persist();
      }
      PresentAlert(SchedulingFailurePrefix + LocalizedDescription(error));
    }

    /** The body of a scheduling task started by add, update or toggle and
        not yet completed: `schedule(alarm:)` with the status it reads and
        the centre's answer, and `handleSchedulingError` when that throws. */
    method RunScheduleTask(alarm: Alarm, status: AuthorizationStatus, now: Instant, added: Outcome<string>)
      requires Valid()
      requires alarm in multiset(scheduleTasks) - completedTasks
      modifies this`alarms, this`saves, this`alertMessage, this`showAlert, this`completedTasks, service
      ensures Valid()
      ensures completedTasks == old(completedTasks) + multiset{alarm}
      ensures !(MayPostNotifications(status) && added.Pass?) ==>
        && (FirstIndex(old(alarms), alarm.id).Some? ==> saves == old(saves) + [alarms])
        && (FirstIndex(old(alarms), alarm.id).None? ==> saves == old(saves))
      ensures !MayPostNotifications(status) ==>
        && service.centerCalls == old(service.centerCalls)
        && alarms == Demoted(old(alarms), alarm.id)
        && alertMessage == Some(SchedulingFailurePrefix + NotAuthorizedDescription) && showAlert
      ensures MayPostNotifications(status) ==>
        service.centerCalls == old(service.centerCalls) + [AddRequest(RequestFor(alarm, now))]
      ensures MayPostNotifications(status) && added.Pass? ==>
        && alarms == old(alarms) && saves == old(saves)
        && alertMessage == old(alertMessage) && showAlert == old(showAlert)
      ensures MayPostNotifications(status) && added.Fail? ==>
        && alarms == Demoted(old(alarms), alarm.id)
        && alertMessage == Some(SchedulingFailurePrefix + added.error) && showAlert
    {
      completedTasks := completedTasks + multiset{alarm};
      var outcome := service.Schedule(alarm, status, now, added);
      if outcome.Fail? {
        HandleSchedulingError(alarm.id, outcome.error);
      }
    }

    /** `reconcileOneTimeAlarms()`: disable every expired one-shot alarm and
        cancel its notification, date every undated enabled one-shot alarm
        from `now`, and re-sort and save only if something changed. */
    method ReconcileOneTimeAlarms(now: Instant)
      requires Valid()
      modifies this`alarms, this`saves, service
      ensures Valid()
      ensures service.centerCalls == old(service.centerCalls) + ExpiryCancellations(old(alarms), now)
      ensures alarms == Reconciled(old(alarms), now, nextTriggerDate)
      ensures ReconcileNeeded(old(alarms), now) ==> saves == old(saves) + [alarms]
      ensures !ReconcileNeeded(old(alarms), now) ==> alarms == old(alarms) && saves == old(saves)
    {
      ghost var original := alarms;
      var didChange := ReconcilePass(now);
      if didChange {
        ghost var reconciled := alarms;
        ReconciledStaysSorted(original, now, nextTriggerDate);
        SortAndPersist();
        StableSortUnique(alarms, reconciled);
      } else {
        ReconciledUnchangedIff(original, now, nextTriggerDate);
      }
    }

    /** One iteration of that loop, on the alarm at `index`. */
    method ReconcileAt(index: nat, now: Instant) returns (changed: bool)
      requires index < |alarms|
      modifies this`alarms, service
      ensures alarms == old(alarms)[index := ReconcileOne(old(alarms)[index], now, nextTriggerDate)]
      ensures changed <==> Expired(old(alarms)[index], now) || Undated(old(alarms)[index])
      ensures service.centerCalls == old(service.centerCalls) +
        (if Expired(old(alarms)[index], now) then [RemovePending([UuidString(old(alarms)[index].id)])] else [])
    {
      var a := alarms[index];
      changed := false;
      if !a.repeatsWeekly {
        if a.isEnabled && a.scheduledDate.Some? && a.scheduledDate.value <= now {
          alarms := alarms[index := a.(isEnabled := false)];
          service.Cancel(a.id);
          changed := true;
        } else if a.isEnabled && a.scheduledDate.None? {
          alarms := alarms[index := a.(scheduledDate := Some(nextTriggerDate(a, now)))];
          changed := true;
        }
      }
    }

    /** The loop of `reconcileOneTimeAlarms()`, in place, with its
        `didChange` flag. */
    method ReconcilePass(now: Instant) returns (didChange: bool)
      modifies this`alarms, service
      ensures alarms == Reconciled(old(alarms), now, nextTriggerDate)
      ensures didChange <==> ReconcileNeeded(old(alarms), now)
      ensures service.centerCalls == old(service.centerCalls) + ExpiryCancellations(old(alarms), now)
    {
      ghost var original := alarms;
      didChange := false;
      var index := 0;
      while index < |alarms|
        invariant 0 <= index <= |alarms| == |original|
        invariant forall k :: 0 <= k < index ==> alarms[k] == ReconcileOne(original[k], now, nextTriggerDate)
        invariant forall k :: index <= k < |alarms| ==> alarms[k] == original[k]
        invariant didChange <==> ReconcileNeeded(original[..index], now)
        invariant service.centerCalls == old(service.centerCalls) + ExpiryCancellations(original[..index], now)
      {
        ReconcilePrefixStep(original, index, now);
        var changed := ReconcileAt(index, now);
        didChange := didChange || changed;
        index := index + 1;
      }
      assert original[..index] == original;
    }
  }

  /** The largest of a non-empty set of offsets. */
  method LargestOffset(offsets: set<nat>) returns (m: nat)
    requires offsets != {}
    ensures m in offsets && forall o :: o in offsets ==> o <= m
  {
    var rest := offsets;
    m :| m in rest;
    rest := rest - {m};
    while rest != {}
      invariant m in offsets && rest <= offsets
      invariant forall o :: o in offsets && o !in rest ==> o <= m
      decreases rest
    {
      var o :| o in rest;
      if o > m {
        m := o;
      }
      rest := rest - {o};
    }
  }
}
