/** Group reminders: what the handlers and the worker write, and the runs of workers between two edits. */
module ReminderModel {
  import opened Wrappers
  import opened ReminderSchedule

  type ReminderId = string

  datatype Status = ACTIVE | CANCELLED | DONE

  /** `notifyBefore` is in minutes, every instant in milliseconds. */
  datatype Reminder = Reminder(
    remindAt: int,
    repeatRule: RepeatRule,
    notifyBefore: int,
    nextNotifyAt: int,
    lastNotifiedAt: Option<int>,
    status: Status
  )

  /** The fields a write sets; an absent one keeps its stored value. */
  datatype Update = Update(
    remindAt: Option<int>,
    nextNotifyAt: Option<int>,
    status: Option<Status>,
    lastNotifiedAt: int
  )

  datatype Edit = Edit(
    remindAt: Option<int>,
    repeatRule: Option<RepeatRule>,
    notifyBefore: Option<int>,
    status: Option<Status>
  )

  datatype Notice = Upcoming(occurrence: int) | Due(occurrence: int)

  function GetOr<T>(o: Option<T>, default: T): T {
    match o case Some(v) => v case None => default
  }

  // ---------- The handlers ----------

  /** How long before the event the first notice goes out. */
  function Lead(notifyBefore: int): (r: int)
    ensures r >= 0
  {
    if notifyBefore > 0 then notifyBefore * 60000 else 0
  }

  function InitialNextNotifyAt(remindAt: int, notifyBefore: int): int {
    remindAt - Lead(notifyBefore)
  }

  function NewReminder(remindAt: int, rule: RepeatRule, notifyBefore: int): Reminder {
    Reminder(remindAt, rule, notifyBefore, InitialNextNotifyAt(remindAt, notifyBefore), None, ACTIVE)
  }

  function ApplyEdit(r: Reminder, e: Edit): Reminder {
    var remindAt, before := GetOr(e.remindAt, r.remindAt), GetOr(e.notifyBefore, r.notifyBefore);
    Reminder(
      remindAt,
      GetOr(e.repeatRule, r.repeatRule),
      before,
      if e.remindAt.Some? || e.notifyBefore.Some? || e.repeatRule.Some?
      then InitialNextNotifyAt(remindAt, before) else r.nextNotifyAt,
      r.lastNotifiedAt,
      GetOr(e.status, r.status))
  }

  // ---------- The worker ----------

  predicate IsDue(r: Reminder, now: int) {
    r.status == ACTIVE && r.nextNotifyAt <= now
  }

  function NotificationUpdate(r: Reminder, now: int): Update {
    if now < r.remindAt then Update(None, Some(r.remindAt), None, now)
    else if r.repeatRule == NONE then Update(None, None, Some(DONE), now)
    else
      var next := NextOccurrence(r.remindAt, r.repeatRule, now);
      Update(Some(next), Some(InitialNextNotifyAt(next, r.notifyBefore)), None, now)
  }

  function NoticeFor(seen: Reminder, now: int): Notice {
    if now < seen.remindAt then Upcoming(seen.remindAt) else Due(seen.remindAt)
  }

  function Merge(r: Reminder, u: Update): Reminder {
    r.(remindAt := GetOr(u.remindAt, r.remindAt), nextNotifyAt := GetOr(u.nextNotifyAt, r.nextNotifyAt),
       status := GetOr(u.status, r.status), lastNotifiedAt := Some(u.lastNotifiedAt))
  }

  /** The store's condition: still active, and still to be notified at the time the worker read. */
  predicate Admits(stored: Reminder, seen: Reminder) {
    stored.status == ACTIVE && stored.nextNotifyAt == seen.nextNotifyAt
  }

  function UpdateDue(stored: Reminder, seen: Reminder, now: int): Reminder {
    if Admits(stored, seen) then Merge(stored, NotificationUpdate(seen, now)) else stored
  }

  // ---------- Runs ----------

  /** A worker that read the reminder in state `seen` of the run, found it due at `now`, and writes. */
  datatype Attempt = Attempt(seen: nat, now: int)

  /** Any number of workers between two edits, each as late with its write as it likes. */
  ghost predicate IsWorkerRun(states: seq<Reminder>, attempts: seq<Attempt>) {
    |states| == |attempts| + 1 &&
    forall i :: 0 <= i < |attempts| ==> IsStep(states, attempts, i)
  }

  ghost predicate IsStep(states: seq<Reminder>, attempts: seq<Attempt>, i: nat)
    requires |states| == |attempts| + 1 && i < |attempts|
  {
    attempts[i].seen <= i && IsDue(states[attempts[i].seen], attempts[i].now) &&
    states[i + 1] == UpdateDue(states[i], states[attempts[i].seen], attempts[i].now)
  }

  predicate Admitted(states: seq<Reminder>, attempts: seq<Attempt>, i: nat)
    requires |states| == |attempts| + 1 && i < |attempts| && attempts[i].seen <= i
  {
    Admits(states[i], states[attempts[i].seen])
  }

  function NoticeAt(states: seq<Reminder>, attempts: seq<Attempt>, i: nat): Notice
    requires |states| == |attempts| + 1 && i < |attempts| && attempts[i].seen <= i
  {
    NoticeFor(states[attempts[i].seen], attempts[i].now)
  }

  /** Every admitted write was computed from the state it replaced. */
  ghost predicate SawCurrent(states: seq<Reminder>, attempts: seq<Attempt>)
    requires IsWorkerRun(states, attempts)
  {
    forall i :: 0 <= i < |attempts| && IsStep(states, attempts, i) && Admitted(states, attempts, i) ==>
      states[attempts[i].seen] == states[i]
  }

  /** The next notice is either the early one or the one at the event itself. */
  predicate NotifyPoint(r: Reminder) {
    r.nextNotifyAt == r.remindAt || r.nextNotifyAt == InitialNextNotifyAt(r.remindAt, r.notifyBefore)
  }

  /** The lead is the exact distance between two occurrences. */
  ghost predicate Aliases(r: Reminder, a: nat, b: nat) {
    a < b && Lead(r.notifyBefore) > 0 &&
    Occurrence(r.remindAt, r.repeatRule, b) - Occurrence(r.remindAt, r.repeatRule, a) == Lead(r.notifyBefore)
  }

  ghost predicate NoAlias(r: Reminder) {
    forall a: nat, b: nat :: !Aliases(r, a, b)
  }
}
