/** The reminder handlers and the worker's loop, over the stored reminders. */
module ReminderHandlers {
  import opened Wrappers
  import opened ReminderSchedule
  import opened ReminderModel
  import opened ReminderTheorems

  datatype ReminderError = ReminderNotFound | Forbidden

  datatype Reading = Reading(id: ReminderId, reminder: Reminder)

  datatype SentNotice = SentNotice(id: ReminderId, notice: Notice)

  type Store = map<ReminderId, Reminder>

  // ---------- One pass of the worker, as a function ----------

  function AdmitsReading(store: Store, reading: Reading): bool {
    reading.id in store && Admits(store[reading.id], reading.reminder)
  }

  function WriteReading(store: Store, reading: Reading, now: int): Store {
    if AdmitsReading(store, reading)
    then store[reading.id := UpdateDue(store[reading.id], reading.reminder, now)]
    else store
  }

  function NoticesFor(store: Store, reading: Reading, now: int): seq<SentNotice> {
    if IsDue(reading.reminder, now) && AdmitsReading(store, reading)
    then [SentNotice(reading.id, NoticeFor(reading.reminder, now))]
    else []
  }

  function ProcessAll(store: Store, readings: seq<Reading>, now: int): (Store, seq<SentNotice>) {
    if readings == [] then (store, [])
    else
      var n := |readings| - 1;
      var (before, sent) := ProcessAll(store, readings[..n], now);
      (if IsDue(readings[n].reminder, now) then WriteReading(before, readings[n], now) else before,
       sent + NoticesFor(before, readings[n], now))
  }

  lemma ProcessOneMore(store: Store, readings: seq<Reading>, i: nat, now: int)
    requires i < |readings|
    ensures var (before, sent) := ProcessAll(store, readings[..i], now);
      ProcessAll(store, readings[..i + 1], now) ==
        if !IsDue(readings[i].reminder, now) || !AdmitsReading(before, readings[i]) then (before, sent)
        else (before[readings[i].id := UpdateDue(before[readings[i].id], readings[i].reminder, now)],
              sent + [SentNotice(readings[i].id, NoticeFor(readings[i].reminder, now))])
  {
    hide UpdateDue, NoticeFor;
    var upTo := readings[..i + 1];
    assert upTo[..i] == readings[..i] && upTo[i] == readings[i] && upTo != [];
    var (before, sent) := ProcessAll(store, readings[..i], now);
    assert sent + [] == sent;
  }

  class ReminderStore {
    var reminders: Store

    constructor ()
      ensures reminders == map[]
    {
      reminders := map[];
    }

    method CreateReminder(id: ReminderId, mayUse: bool, remindAt: int, rule: RepeatRule, notifyBefore: int)
      returns (r: Result<Reminder, ReminderError>)
      requires id !in reminders
      modifies this
      ensures r == if mayUse then Success(NewReminder(remindAt, rule, notifyBefore)) else Failure(Forbidden)
      ensures reminders == if r.Success? then old(reminders)[id := r.value] else old(reminders)
    {
      if !mayUse { return Failure(Forbidden); }
      var nextNotifyAt := GetInitialNextNotifyAt(remindAt, notifyBefore);
      var reminder := Reminder(remindAt, rule, notifyBefore, nextNotifyAt, None, ACTIVE);
      reminders := reminders[id := reminder];
      return Success(reminder);
    }

    method UpdateReminder(id: ReminderId, mayManage: bool, e: Edit) returns (error: Option<ReminderError>)
      modifies this
      ensures error ==
        if id !in old(reminders) then Some(ReminderNotFound) else if !mayManage then Some(Forbidden) else None
      ensures reminders ==
        if error.None? then old(reminders)[id := ApplyEdit(old(reminders)[id], e)] else old(reminders)
    {
      if id !in reminders { return Some(ReminderNotFound); }
      var r := reminders[id];
      if !mayManage { return Some(Forbidden); }
      var remindAt := if e.remindAt.Some? then e.remindAt.value else r.remindAt;
      var notifyBefore := if e.notifyBefore.Some? then e.notifyBefore.value else r.notifyBefore;
      var updated := r;
      if e.remindAt.Some? { updated := updated.(remindAt := remindAt); }
      if e.repeatRule.Some? { updated := updated.(repeatRule := e.repeatRule.value); }
      if e.notifyBefore.Some? { updated := updated.(notifyBefore := notifyBefore); }
      if e.remindAt.Some? || e.notifyBefore.Some? || e.repeatRule.Some? {
        var nextNotifyAt := GetInitialNextNotifyAt(remindAt, notifyBefore);
        updated := updated.(nextNotifyAt := nextNotifyAt);
      }
      if e.status.Some? { updated := updated.(status := e.status.value); }
      reminders := reminders[id := updated];
      return None;
    }

    method DeleteReminder(id: ReminderId, mayManage: bool) returns (error: Option<ReminderError>)
      modifies this
      ensures error ==
        if id !in old(reminders) then Some(ReminderNotFound) else if !mayManage then Some(Forbidden) else None
      ensures reminders ==
        if error.None? then old(reminders)[id := old(reminders)[id].(status := CANCELLED)] else old(reminders)
    {
      if id !in reminders { return Some(ReminderNotFound); }
      if !mayManage { return Some(Forbidden); }
      reminders := reminders[id := reminders[id].(status := CANCELLED)];
      return None;
    }

    /** The repository's conditional update. */
    method UpdateDueReminder(id: ReminderId, expectedNextNotifyAt: int, data: Update) returns (updated: bool)
      modifies this
      ensures updated <==>
        id in old(reminders) && old(reminders)[id].status == ACTIVE && old(reminders)[id].nextNotifyAt == expectedNextNotifyAt
      ensures reminders == if updated then old(reminders)[id := Merge(old(reminders)[id], data)] else old(reminders)
    {
      if id !in reminders || reminders[id].status != ACTIVE || reminders[id].nextNotifyAt != expectedNextNotifyAt {
        return false;
      }
      reminders := reminders[id := Merge(reminders[id], data)];
      return true;
    }

    /** One pass over the readings the query returned, which may be out of date by the time they are written. */
    method ProcessDueReminders(readings: seq<Reading>, now: int) returns (sent: seq<SentNotice>)
      modifies this
      ensures (reminders, sent) == ProcessAll(old(reminders), readings, now)
    {
      sent := [];
      assert readings[..0] == [];
      for i := 0 to |readings|
        invariant (reminders, sent) == ProcessAll(old(reminders), readings[..i], now)
      {
        var reminder := readings[i].reminder;
        ProcessOneMore(old(reminders), readings, i, now);
        if reminder.status != ACTIVE || reminder.nextNotifyAt > now { continue; }
        var data := GetReminderNotificationUpdate(reminder, now);
        var updated := UpdateDueReminder(readings[i].id, reminder.nextNotifyAt, data);
        if !updated { continue; }
        var isBeforeEvent := now < reminder.remindAt;
        sent := sent + [SentNotice(readings[i].id,
                                   if isBeforeEvent then Upcoming(reminder.remindAt) else Due(reminder.remindAt))];
      }
      assert readings[..|readings|] == readings;
    }
  }

  method GetInitialNextNotifyAt(remindAt: int, notifyBefore: int) returns (r: int)
    ensures r <= remindAt && (r == remindAt <==> notifyBefore <= 0)
    ensures notifyBefore > 0 ==> (remindAt - r) % 60000 == 0 && (remindAt - r) / 60000 == notifyBefore
    ensures r == InitialNextNotifyAt(remindAt, notifyBefore)
  {
    r := remindAt - (if notifyBefore > 0 then notifyBefore else 0) * 60000;
  }

  method GetReminderNotificationUpdate(reminder: Reminder, now: int) returns (u: Update)
    ensures u == NotificationUpdate(reminder, now)
  {
    if now < reminder.remindAt { return Update(None, Some(reminder.remindAt), None, now); }
    if reminder.repeatRule == NONE { return Update(None, None, Some(DONE), now); }
    var nextRemindAt := GetNextRepeatedReminderAt(reminder.remindAt, reminder.repeatRule, now);
    var nextNotifyAt := GetInitialNextNotifyAt(nextRemindAt, reminder.notifyBefore);
    return Update(Some(nextRemindAt), Some(nextNotifyAt), None, now);
  }

  // ---------- A prompt pass ----------

  ghost predicate PromptReadings(store: Store, readings: seq<Reading>, now: int) {
    (forall i :: 0 <= i < |readings| ==>
      readings[i].id in store && store[readings[i].id] == readings[i].reminder && IsDue(readings[i].reminder, now)) &&
    forall i, j :: 0 <= i < j < |readings| ==> readings[i].id != readings[j].id
  }

  /** What one reading of the pass has led to. */
  ghost predicate Processed(reading: Reading, now: int, after: Store, sent: SentNotice) {
    reading.id in after && after[reading.id] == UpdateDue(reading.reminder, reading.reminder, now) &&
    sent == SentNotice(reading.id, NoticeFor(reading.reminder, now))
  }

  predicate IsRead(readings: seq<Reading>, id: ReminderId) {
    exists i :: 0 <= i < |readings| && readings[i].id == id
  }

  ghost predicate PassDone(store: Store, readings: seq<Reading>, now: int, after: Store, sent: seq<SentNotice>) {
    |sent| == |readings| && after.Keys == store.Keys &&
    (forall i :: 0 <= i < |readings| ==> Processed(readings[i], now, after, sent[i])) &&
    (forall id :: id in store && !IsRead(readings, id) ==> after[id] == store[id])
  }

  /**
   * A pass over current readings sends one notice for each, in their order, moves each of them on,
   * and touches nothing else.
   */
  lemma {:induction false} PromptPassNotifiesAll(store: Store, readings: seq<Reading>, now: int)
    requires PromptReadings(store, readings, now)
    ensures var (after, sent) := ProcessAll(store, readings, now); PassDone(store, readings, now, after, sent)
  {
    hide UpdateDue, NoticeFor, PassDone;
    if readings == [] {
      assert PassDone(store, [], now, store, []) by { NothingRead(store, now); }
    } else {
      var n := |readings| - 1;
      PromptPassNotifiesAll(store, readings[..n], now);
      ProcessOneMore(store, readings, n, now);
      assert readings[..n + 1] == readings;
      var (before, sent) := ProcessAll(store, readings[..n], now);
      PassOneMore(store, readings, n, now, before, sent);
    }
  }

  lemma NothingRead(store: Store, now: int)
    ensures PassDone(store, [], now, store, [])
  {}

  lemma PassOneMore(store: Store, readings: seq<Reading>, n: nat, now: int, before: Store, sent: seq<SentNotice>)
    requires PromptReadings(store, readings, now) && |readings| == n + 1
    requires PassDone(store, readings[..n], now, before, sent)
    ensures readings[n].id in before && before[readings[n].id] == readings[n].reminder
    ensures var r := readings[n].reminder;
      PassDone(store, readings, now, before[readings[n].id := UpdateDue(r, r, now)],
               sent + [SentNotice(readings[n].id, NoticeFor(r, now))])
  {
    hide UpdateDue, NoticeFor;
    var reading := readings[n];
    assert !IsRead(readings[..n], reading.id);
    var after := before[reading.id := UpdateDue(reading.reminder, reading.reminder, now)];
    forall i | 0 <= i < n ensures Processed(readings[i], now, after, sent[i]) {
      assert Processed(readings[..n][i], now, before, sent[i]);
    }
    forall id | id in store && !IsRead(readings, id) ensures after[id] == store[id] {
      assert readings[n].id != id && !IsRead(readings[..n], id);
    }
  }

  /** After a write at `now` only the early notice of a later occurrence can be due at the same instant. */
  lemma SecondPassSendsOnlyEarlyNotices(r: Reminder, now: int)
    requires IsDue(r, now) && NotifyPoint(r)
    ensures IsDue(UpdateDue(r, r, now), now) ==>
      NoticeFor(UpdateDue(r, r, now), now) == Upcoming(UpdateDue(r, r, now).remindAt) &&
      UpdateDue(r, r, now).remindAt > now >= r.remindAt
  {
    hide NextOccurrence;
    if r.repeatRule != NONE && r.remindAt <= now { var _ := NextIsLater(r, now); }
  }
}
