/** What creating, editing and notifying leave of a stored reminder, field by field, and which notice goes out. */
module ReminderAnswers {
  import opened Wrappers
  import opened ReminderSchedule
  import opened ReminderModel
  import opened ReminderHandlers

  /** The first notice goes out the given minutes before the event, and at the event when none are given. */
  lemma NewReminderMeans(remindAt: int, rule: RepeatRule, minutes: int)
    ensures var r := NewReminder(remindAt, rule, minutes);
      r.remindAt == remindAt && r.repeatRule == rule && r.notifyBefore == minutes && r.status == ACTIVE &&
      r.lastNotifiedAt == None && r.nextNotifyAt == if minutes > 0 then remindAt - 60000 * minutes else remindAt
  {}

  /** An edit sets the fields it gives, and starts the notices again if the event, the rule or the lead is among them. */
  lemma EditMeans(r: Reminder, e: Edit)
    ensures var after := ApplyEdit(r, e);
      (e.remindAt.Some? ==> after.remindAt == e.remindAt.value) && (e.remindAt.None? ==> after.remindAt == r.remindAt) &&
      (e.repeatRule.Some? ==> after.repeatRule == e.repeatRule.value) && (e.repeatRule.None? ==> after.repeatRule == r.repeatRule) &&
      (e.notifyBefore.Some? ==> after.notifyBefore == e.notifyBefore.value) &&
      (e.notifyBefore.None? ==> after.notifyBefore == r.notifyBefore) &&
      (e.status.Some? ==> after.status == e.status.value) && (e.status.None? ==> after.status == r.status) &&
      after.lastNotifiedAt == r.lastNotifiedAt &&
      after.nextNotifyAt ==
        if e.remindAt.None? && e.repeatRule.None? && e.notifyBefore.None? then r.nextNotifyAt
        else if after.notifyBefore > 0 then after.remindAt - 60000 * after.notifyBefore
        else after.remindAt
  {}

  /**
   * A worker's write goes through exactly for an active reminder still to be notified when the worker thought, and
   * then moves the notice from the lead to the event, and past it to the next occurrence, or finishes the reminder.
   */
  lemma WriteMeans(stored: Reminder, seen: Reminder, now: int)
    ensures var after := UpdateDue(stored, seen, now);
      if stored.status != ACTIVE || stored.nextNotifyAt != seen.nextNotifyAt then after == stored
      else if now < seen.remindAt then after == stored.(nextNotifyAt := seen.remindAt, lastNotifiedAt := Some(now))
      else if seen.repeatRule == NONE then after == stored.(status := DONE, lastNotifiedAt := Some(now))
      else
        after.status == ACTIVE && after.repeatRule == stored.repeatRule && after.notifyBefore == stored.notifyBefore &&
        after.lastNotifiedAt == Some(now) &&
        (exists k: nat :: LeastOccurrenceAfter(seen.remindAt, seen.repeatRule, now, after.remindAt, k)) &&
        after.nextNotifyAt == if seen.notifyBefore > 0 then after.remindAt - 60000 * seen.notifyBefore else after.remindAt
  {
    hide NextOccurrence, LeastOccurrenceAfter;
    if now >= seen.remindAt && seen.repeatRule != NONE {
      var k := NextIsLeast(seen.remindAt, seen.repeatRule, now);
    }
  }

  /** A reading leads to a notice exactly when it was due and its write goes through: early before the event, due from then on. */
  lemma NoticeMeans(store: Store, reading: Reading, now: int)
    ensures NoticesFor(store, reading, now) ==
      if reading.reminder.status == ACTIVE && reading.reminder.nextNotifyAt <= now && reading.id in store &&
         store[reading.id].status == ACTIVE && store[reading.id].nextNotifyAt == reading.reminder.nextNotifyAt
      then [SentNotice(reading.id,
                       if now < reading.reminder.remindAt then Upcoming(reading.reminder.remindAt) else Due(reading.reminder.remindAt))]
      else []
  {}

  /** A pass goes through its readings in order, writing and notifying for each on what the ones before have left. */
  lemma PassMeans(store: Store, readings: seq<Reading>, reading: Reading, now: int)
    ensures ProcessAll(store, [], now) == (store, [])
    ensures var (before, sent) := ProcessAll(store, readings, now);
      var (after, all) := ProcessAll(store, readings + [reading], now);
      all == sent + NoticesFor(before, reading, now) &&
      after ==
        if reading.reminder.status == ACTIVE && reading.reminder.nextNotifyAt <= now && reading.id in before
        then before[reading.id := UpdateDue(before[reading.id], reading.reminder, now)] else before
  {
    hide NotificationUpdate, NoticeFor;
    assert (readings + [reading])[..|readings|] == readings;
    var (before, _) := ProcessAll(store, readings, now);
    if reading.id in before && !Admits(before[reading.id], reading.reminder) {
      assert before[reading.id := before[reading.id]] == before;
    }
  }
}
