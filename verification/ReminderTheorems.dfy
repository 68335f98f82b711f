/**
 * The worker's compare-and-set on `nextNotifyAt`: when it tells a current reading from a stale one,
 * and what follows for the notices sent.
 */
module ReminderTheorems {
  import opened Wrappers
  import opened ReminderSchedule
  import opened ReminderModel

  // ---------- One write ----------

  /** Further back on the schedule, or the very same reminder, or the same one before it was finished. */
  ghost predicate Precedes(a: Reminder, b: Reminder) {
    a == b ||
    (a.status == ACTIVE &&
     (Raised(a, b) || (a.remindAt == b.remindAt && a.nextNotifyAt == b.nextNotifyAt && b.status != ACTIVE)))
  }

  predicate Raised(a: Reminder, b: Reminder) {
    a.remindAt < b.remindAt || (a.remindAt == b.remindAt && a.nextNotifyAt < b.nextNotifyAt)
  }

  lemma NextIsLater(r: Reminder, now: int) returns (k: nat)
    requires r.repeatRule != NONE && r.remindAt <= now
    ensures NextOccurrence(r.remindAt, r.repeatRule, now) == Occurrence(r.remindAt, r.repeatRule, k)
    ensures NextOccurrence(r.remindAt, r.repeatRule, now) > now && k >= 1
  {
    k := NextIsLeast(r.remindAt, r.repeatRule, now);
  }

  /** Creating and editing set the notice to one of its two points, and a worker's write keeps it there. */
  lemma WritesKeepNotifyPoint(r: Reminder, e: Edit, now: int)
    requires NotifyPoint(r)
    ensures NotifyPoint(NewReminder(r.remindAt, r.repeatRule, r.notifyBefore))
    ensures NotifyPoint(ApplyEdit(r, e))
    ensures NotifyPoint(UpdateDue(r, r, now))
    ensures r.nextNotifyAt <= r.remindAt
  {
    hide NextOccurrence;
  }

  /** A write from a current reading finishes the reminder or moves it strictly forward. */
  lemma CurrentWriteRaises(r: Reminder, now: int)
    requires IsDue(r, now)
    ensures UpdateDue(r, r, now).status == DONE || (UpdateDue(r, r, now).status == ACTIVE && Raised(r, UpdateDue(r, r, now)))
    ensures UpdateDue(r, r, now) == r.(status := DONE, lastNotifiedAt := Some(now)) || Raised(r, UpdateDue(r, r, now))
  {
    hide NextOccurrence, Occurrence;
    if r.repeatRule != NONE && r.remindAt <= now {
      var _ := NextIsLater(r, now);
    }
  }

  /**
   * A write from any reading, however stale, leaves the notice no later than the event
   * exactly when it is not an early notice for an occurrence later than the stored one.
   */
  lemma WriteKeepsNotLateIff(stored: Reminder, seen: Reminder, now: int)
    requires stored.nextNotifyAt <= stored.remindAt && Admits(stored, seen)
    ensures UpdateDue(stored, seen, now).nextNotifyAt <= UpdateDue(stored, seen, now).remindAt <==>
      (now < seen.remindAt ==> seen.remindAt <= stored.remindAt)
  {
    hide NextOccurrence;
  }

  // ---------- Runs without aliases ----------

  ghost predicate OnSchedule(r0: Reminder, r: Reminder, k: nat) {
    r.repeatRule == r0.repeatRule && r.notifyBefore == r0.notifyBefore &&
    r.remindAt == Occurrence(r0.remindAt, r0.repeatRule, k) && NotifyPoint(r)
  }

  lemma StepStaysOnSchedule(r0: Reminder, r: Reminder, k: nat, now: int) returns (k': nat)
    requires OnSchedule(r0, r, k) && IsDue(r, now)
    ensures OnSchedule(r0, UpdateDue(r, r, now), k')
  {
    hide NextOccurrence, Occurrence;
    if r.repeatRule != NONE && r.remindAt <= now {
      var n := NextIsLater(r, now);
      OccurrencesCompose(r0.remindAt, r0.repeatRule, k, n);
      k' := k + n;
    } else {
      k' := k;
    }
  }

  /** Two states of one schedule with the same notice time are at the same occurrence, unless the lead aliases. */
  lemma SameNoticeSameOccurrence(r0: Reminder, a: Reminder, j: nat, b: Reminder, k: nat)
    requires OnSchedule(r0, a, j) && OnSchedule(r0, b, k) && NoAlias(r0)
    requires a.nextNotifyAt == b.nextNotifyAt && a.remindAt <= b.remindAt
    ensures a.remindAt == b.remindAt
  {
    hide Occurrence;
    assert !Aliases(r0, j, k);
    if k <= j {
      OccurrencesAscend(r0.remindAt, r0.repeatRule, k, j);
      NonNegative(j - k, r0.repeatRule);
    }
  }

  lemma NonNegative(n: nat, rule: RepeatRule)
    ensures n * ShortestInterval(rule) >= 0
  {
    assert ShortestInterval(rule) >= 0;
  }

  ghost predicate Orderly(states: seq<Reminder>, i: nat)
    requires i < |states|
  {
    (exists k: nat :: OnSchedule(states[0], states[i], k)) &&
    forall j :: 0 <= j <= i ==> Precedes(states[j], states[i])
  }

  ghost predicate SawCurrentBefore(states: seq<Reminder>, attempts: seq<Attempt>, n: nat)
    requires |states| == |attempts| + 1 && n <= |attempts|
  {
    forall i :: 0 <= i < n && IsStep(states, attempts, i) && Admitted(states, attempts, i) ==>
      states[attempts[i].seen] == states[i]
  }

  /** Runs of current writes go forward along the schedule. */
  lemma {:induction false} CurrentRunIsOrderly(states: seq<Reminder>, attempts: seq<Attempt>, n: nat)
    requires IsWorkerRun(states, attempts) && NotifyPoint(states[0])
    requires n <= |attempts| && SawCurrentBefore(states, attempts, n)
    ensures forall i :: 0 <= i <= n ==> Orderly(states, i)
  {
    hide Occurrence, UpdateDue, NotifyPoint;
    if n == 0 {
      StartIsOnSchedule(states[0]);
      assert Orderly(states, 0);
    } else {
      CurrentRunIsOrderly(states, attempts, n - 1);
      assert IsStep(states, attempts, n - 1);
      OrderlyStep(states, attempts, n - 1);
    }
  }

  /** Without an alias every run is such a run. */
  lemma {:induction false} NoAliasSeesCurrent(states: seq<Reminder>, attempts: seq<Attempt>, n: nat)
    requires IsWorkerRun(states, attempts) && NotifyPoint(states[0]) && NoAlias(states[0]) && n <= |attempts|
    ensures SawCurrentBefore(states, attempts, n)
  {
    hide Occurrence, UpdateDue, NotifyPoint, NoAlias;
    if n > 0 {
      NoAliasSeesCurrent(states, attempts, n - 1);
      CurrentRunIsOrderly(states, attempts, n - 1);
      assert IsStep(states, attempts, n - 1);
      if Admitted(states, attempts, n - 1) { AdmittedSawCurrent(states, attempts, n - 1); }
    }
  }

  lemma StartIsOnSchedule(r: Reminder)
    requires NotifyPoint(r)
    ensures OnSchedule(r, r, 0)
  {}

  lemma AdmittedSawCurrent(states: seq<Reminder>, attempts: seq<Attempt>, i: nat)
    requires |states| == |attempts| + 1 && i < |attempts| && IsStep(states, attempts, i)
    requires NoAlias(states[0]) && Admitted(states, attempts, i)
    requires forall j :: 0 <= j <= i ==> Orderly(states, j)
    ensures states[attempts[i].seen] == states[i]
  {
    hide Occurrence, NotifyPoint, NoAlias, UpdateDue, OnSchedule;
    var s := attempts[i].seen;
    assert Orderly(states, s) && Orderly(states, i);
    var k: nat :| OnSchedule(states[0], states[i], k);
    var j: nat :| OnSchedule(states[0], states[s], j);
    SameNoticeSameOccurrence(states[0], states[s], j, states[i], k);
  }

  lemma OrderlyStep(states: seq<Reminder>, attempts: seq<Attempt>, i: nat)
    requires |states| == |attempts| + 1 && i < |attempts| && IsStep(states, attempts, i)
    requires Admitted(states, attempts, i) ==> states[attempts[i].seen] == states[i]
    requires forall j :: 0 <= j <= i ==> Orderly(states, j)
    ensures Orderly(states, i + 1)
  {
    hide Occurrence, NotifyPoint, NotificationUpdate, Merge, OnSchedule;
    var now := attempts[i].now;
    assert Orderly(states, i);
    var k: nat :| OnSchedule(states[0], states[i], k);
    if Admitted(states, attempts, i) {
      CurrentWriteRaises(states[i], now);
      var k' := StepStaysOnSchedule(states[0], states[i], k, now);
    }
  }

  // ---------- What follows for the notices ----------

  ghost predicate TwoAdmitted(states: seq<Reminder>, attempts: seq<Attempt>, i: nat, j: nat) {
    IsWorkerRun(states, attempts) && i < j < |attempts| &&
    IsStep(states, attempts, i) && IsStep(states, attempts, j) &&
    Admitted(states, attempts, i) && Admitted(states, attempts, j)
  }

  /** In a run of current writes, later admitted writes start further along the schedule. */
  lemma AdmittedWritesAdvance(states: seq<Reminder>, attempts: seq<Attempt>, i: nat, j: nat)
    requires TwoAdmitted(states, attempts, i, j) && NotifyPoint(states[0]) && SawCurrent(states, attempts)
    ensures Raised(states[i], states[j])
    ensures Precedes(states[i + 1], states[j])
  {
    hide Occurrence, NotifyPoint, NotificationUpdate, Merge, OnSchedule, Precedes;
    CurrentRunIsOrderly(states, attempts, |attempts|);
    assert Orderly(states, i) && Orderly(states, j) && Orderly(states, i + 1);
    CurrentWriteRaises(states[i], attempts[i].now);
    StrictlyLater(states[i], states[i + 1], states[j]);
  }

  lemma StrictlyLater(a: Reminder, b: Reminder, c: Reminder)
    requires Raised(a, b) || b.status == DONE
    requires Precedes(b, c) && c.status == ACTIVE
    requires Precedes(a, b)
    ensures Raised(a, c)
  {}

  /** Between two edits, each occurrence gets at most one early notice and one notice at its time. */
  lemma OneNoticeOfEachKind(states: seq<Reminder>, attempts: seq<Attempt>, i: nat, j: nat)
    requires TwoAdmitted(states, attempts, i, j) && NotifyPoint(states[0]) && SawCurrent(states, attempts)
    ensures NoticeAt(states, attempts, i) != NoticeAt(states, attempts, j)
  {
    hide Occurrence, NotifyPoint, OnSchedule, NextOccurrence;
    AdmittedWritesAdvance(states, attempts, i, j);
    var r, now := states[i], attempts[i].now;
    if r.repeatRule != NONE && r.remindAt <= now { var _ := NextIsLater(r, now); }
  }

  /** The notice is never later than the event in such a run. */
  lemma NeverLate(states: seq<Reminder>, attempts: seq<Attempt>, i: nat)
    requires IsWorkerRun(states, attempts) && NotifyPoint(states[0]) && SawCurrent(states, attempts) && i < |states|
    ensures NotifyPoint(states[i]) && states[i].nextNotifyAt <= states[i].remindAt
  {
    hide Occurrence, UpdateDue;
    CurrentRunIsOrderly(states, attempts, |attempts|);
    assert Orderly(states, i);
    var k: nat :| OnSchedule(states[0], states[i], k);
  }

  /** Writes that follow their reading at once are current, whatever the lead. */
  lemma PromptRunsSeeCurrent(states: seq<Reminder>, attempts: seq<Attempt>)
    requires IsWorkerRun(states, attempts) && forall i :: 0 <= i < |attempts| ==> attempts[i].seen == i
    ensures SawCurrent(states, attempts)
  {}

  /** With a lead shorter than the interval the notice time itself rises with every admitted write. */
  lemma ShortLeadAdmitsEachTimeOnce(states: seq<Reminder>, attempts: seq<Attempt>, i: nat, j: nat)
    requires TwoAdmitted(states, attempts, i, j) && NotifyPoint(states[0])
    requires states[0].repeatRule == NONE || Lead(states[0].notifyBefore) < ShortestInterval(states[0].repeatRule)
    ensures SawCurrent(states, attempts) && states[i].nextNotifyAt < states[j].nextNotifyAt
  {
    hide Occurrence, UpdateDue, Precedes, IsStep;
    ShortLeadHasNoAlias(states[0]);
    NoAliasSeesCurrent(states, attempts, |attempts|);
    AdmittedWritesAdvance(states, attempts, i, j);
    CurrentRunIsOrderly(states, attempts, |attempts|);
    assert Orderly(states, i) && Orderly(states, j);
    var k: nat :| OnSchedule(states[0], states[i], k);
    var k': nat :| OnSchedule(states[0], states[j], k');
    OccurrencesApart(states[0].remindAt, states[0].repeatRule, k, k');
  }

  /** Different occurrences are at least the shortest interval apart. */
  lemma OccurrencesApart(t: int, rule: RepeatRule, j: nat, k: nat)
    ensures Occurrence(t, rule, j) < Occurrence(t, rule, k) ==>
      Occurrence(t, rule, j) + ShortestInterval(rule) <= Occurrence(t, rule, k) && rule != NONE && j < k
  {
    hide Occurrence;
    NoRuleNeverMoves(t, j);
    NoRuleNeverMoves(t, k);
    if j < k {
      OccurrencesAscend(t, rule, j, k);
      AtLeastOnce(k - j, rule);
    } else {
      OccurrencesAscend(t, rule, k, j);
      NonNegative(j - k, rule);
    }
  }

  lemma AtLeastOnce(n: nat, rule: RepeatRule)
    requires n >= 1
    ensures n * ShortestInterval(rule) >= ShortestInterval(rule)
  {
    NonNegative(n - 1, rule);
    assert n * ShortestInterval(rule) == (n - 1) * ShortestInterval(rule) + ShortestInterval(rule);
  }

  lemma ShortLeadHasNoAlias(r: Reminder)
    requires r.repeatRule == NONE || Lead(r.notifyBefore) < ShortestInterval(r.repeatRule)
    ensures NoAlias(r)
  {
    hide Occurrence;
    forall a: nat, b: nat ensures !Aliases(r, a, b) {
      OccurrencesApart(r.remindAt, r.repeatRule, a, b);
    }
  }

  /** For days and weeks the aliasing leads are the positive multiples of the interval. */
  lemma FixedIntervalAliasIff(r: Reminder)
    requires r.repeatRule == DAILY || r.repeatRule == WEEKLY
    ensures NoAlias(r) <==> Lead(r.notifyBefore) == 0 || Lead(r.notifyBefore) % ShortestInterval(r.repeatRule) != 0
  {
    hide Occurrence, Lead;
    var lead, interval := Lead(r.notifyBefore), ShortestInterval(r.repeatRule);
    forall a: nat, b: nat | Aliases(r, a, b) ensures lead > 0 && lead % interval == 0 {
      FixedOccurrence(r.remindAt, r.repeatRule, a);
      FixedOccurrence(r.remindAt, r.repeatRule, b);
      assert b * interval - a * interval == (b - a) * interval;
      MultipleHasNoRemainder(b - a, r.repeatRule);
    }
    if lead > 0 && lead % interval == 0 {
      var n: nat := lead / interval;
      FixedOccurrence(r.remindAt, r.repeatRule, 0);
      FixedOccurrence(r.remindAt, r.repeatRule, n);
      assert Aliases(r, 0, n);
    }
  }

  lemma MultipleHasNoRemainder(n: nat, rule: RepeatRule)
    requires rule == DAILY || rule == WEEKLY
    ensures n * ShortestInterval(rule) % ShortestInterval(rule) == 0
  {}

  // ---------- And with an alias ----------

  ghost predicate EveryRunSeesCurrent(r: Reminder) {
    forall states: seq<Reminder>, attempts: seq<Attempt> ::
      IsWorkerRun(states, attempts) && states[0] == r ==> SawCurrent(states, attempts)
  }

  /** Two admitted writes of the run send the same notice of the same occurrence. */
  ghost predicate Repeats(states: seq<Reminder>, attempts: seq<Attempt>, i: nat, j: nat) {
    TwoAdmitted(states, attempts, i, j) && NoticeAt(states, attempts, i) == NoticeAt(states, attempts, j)
  }

  ghost predicate EveryRunNotifiesOnce(r: Reminder) {
    forall states: seq<Reminder>, attempts: seq<Attempt>, i: nat, j: nat ::
      IsWorkerRun(states, attempts) && states[0] == r ==> !Repeats(states, attempts, i, j)
  }

  /** The compare-and-set tells stale readings from current ones in every run exactly when the lead does not alias. */
  lemma CompareAndSetIsExactIff(r: Reminder)
    requires r.status == ACTIVE && NotifyPoint(r)
    ensures EveryRunSeesCurrent(r) <==> NoAlias(r)
  {
    hide IsStep, Occurrence, NotifyPoint;
    if NoAlias(r) {
      forall states: seq<Reminder>, attempts: seq<Attempt> | IsWorkerRun(states, attempts) && states[0] == r
        ensures SawCurrent(states, attempts)
      {
        NoAliasSeesCurrent(states, attempts, |attempts|);
      }
    } else {
      var a: nat, b: nat :| Aliases(r, a, b);
      var states, attempts, i, j := AliasRepeatsANotice(r, a, b);
    }
  }

  /**
   * Under any interleaving of workers between two edits each occurrence gets at most one early notice and at most
   * one at its time, if and only if the lead is not the distance between two occurrences.
   */
  lemma NotifiesOnceIff(r: Reminder)
    requires r.status == ACTIVE && NotifyPoint(r)
    ensures EveryRunNotifiesOnce(r) <==> NoAlias(r)
  {
    hide IsStep, Occurrence, NotifyPoint;
    if NoAlias(r) {
      forall states: seq<Reminder>, attempts: seq<Attempt>, i: nat, j: nat |
        IsWorkerRun(states, attempts) && states[0] == r
        ensures !Repeats(states, attempts, i, j)
      {
        NoAliasSeesCurrent(states, attempts, |attempts|);
        if TwoAdmitted(states, attempts, i, j) { OneNoticeOfEachKind(states, attempts, i, j); }
      }
    } else {
      var a: nat, b: nat :| Aliases(r, a, b);
      var states, attempts, i, j := AliasRepeatsANotice(r, a, b);
    }
  }

  lemma Extend(states: seq<Reminder>, attempts: seq<Attempt>, seen: nat, now: int)
    returns (longer: seq<Reminder>, more: seq<Attempt>)
    requires IsWorkerRun(states, attempts) && seen < |states| && IsDue(states[seen], now)
    ensures longer == states + [UpdateDue(states[|states| - 1], states[seen], now)]
    ensures more == attempts + [Attempt(seen, now)]
    ensures IsWorkerRun(longer, more)
  {
    hide UpdateDue, IsDue;
    longer := states + [UpdateDue(states[|states| - 1], states[seen], now)];
    more := attempts + [Attempt(seen, now)];
    forall i | 0 <= i < |more| ensures IsStep(longer, more, i) {
      if i < |attempts| { assert IsStep(states, attempts, i); }
    }
  }

  lemma DueAtItsTime(r: Reminder)
    requires r.repeatRule != NONE && r.status == ACTIVE && NotifyPoint(r)
    ensures IsDue(r, r.remindAt)
    ensures UpdateDue(r, r, r.remindAt) ==
      r.(remindAt := Occurrence(r.remindAt, r.repeatRule, 1),
         nextNotifyAt := InitialNextNotifyAt(Occurrence(r.remindAt, r.repeatRule, 1), r.notifyBefore),
         lastNotifiedAt := Some(r.remindAt))
  {
    NextStepIsNextOccurrence(r.remindAt, r.repeatRule);
    hide NextOccurrence, Occurrence;
  }

  lemma NextStepIsNextOccurrence(t: int, rule: RepeatRule)
    requires rule != NONE
    ensures NextOccurrence(t, rule, t) == Occurrence(t, rule, 1)
  {
    hide AddReminderInterval, ShortestInterval;
    StepIsLong(t, rule);
    IntervalIsPositive(rule);
    assert Occurrence(t, rule, 0) == t;
  }

  /** Continues a run by `m` prompt notices, each at its occurrence. */
  lemma {:induction false} DriveOn(states: seq<Reminder>, attempts: seq<Attempt>, m: nat)
    returns (longer: seq<Reminder>, more: seq<Attempt>)
    requires IsWorkerRun(states, attempts)
    requires var r := states[|states| - 1]; r.status == ACTIVE && r.repeatRule != NONE && NotifyPoint(r)
    ensures IsWorkerRun(longer, more) && states <= longer && attempts <= more
    ensures var r, last := states[|states| - 1], longer[|longer| - 1];
      last.status == ACTIVE && last.repeatRule == r.repeatRule && last.notifyBefore == r.notifyBefore &&
      NotifyPoint(last) && last.remindAt == Occurrence(r.remindAt, r.repeatRule, m) &&
      (m > 0 ==> last.nextNotifyAt == InitialNextNotifyAt(last.remindAt, last.notifyBefore)) &&
      (m == 0 ==> last == r)
    decreases m
  {
    hide UpdateDue, AddReminderInterval, IsDue, IsStep;
    var r := states[|states| - 1];
    if m == 0 {
      longer, more := states, attempts;
    } else {
      DueAtItsTime(r);
      var states', attempts' := Extend(states, attempts, |states| - 1, r.remindAt);
      assert states <= states';
      longer, more := DriveOn(states', attempts', m - 1);
      OccurrencesCompose(r.remindAt, r.repeatRule, 1, m - 1);
    }
  }

  /** A run up to the notice at the event of occurrence `a` itself. */
  lemma RunToEvent(r: Reminder, a: nat) returns (states: seq<Reminder>, attempts: seq<Attempt>)
    requires r.status == ACTIVE && NotifyPoint(r) && r.repeatRule != NONE && Lead(r.notifyBefore) > 0
    ensures IsWorkerRun(states, attempts) && states[0] == r
    ensures var last := states[|states| - 1];
      last.status == ACTIVE && last.repeatRule == r.repeatRule && last.notifyBefore == r.notifyBefore &&
      last.remindAt == last.nextNotifyAt == Occurrence(r.remindAt, r.repeatRule, a)
  {
    hide Occurrence, IsStep;
    states, attempts := DriveOn([r], [], a);
    var last := states[|states| - 1];
    if last.nextNotifyAt != last.remindAt {
      states, attempts := Extend(states, attempts, |states| - 1, last.nextNotifyAt);
    }
  }

  /** Two workers read the reminder at its event; one writes, and the run goes on to the alias of that reading. */
  lemma RunToAlias(r: Reminder, a: nat, b: nat) returns (states: seq<Reminder>, attempts: seq<Attempt>, i: nat)
    requires r.status == ACTIVE && NotifyPoint(r) && Aliases(r, a, b)
    ensures IsWorkerRun(states, attempts) && states[0] == r && i < |attempts|
    ensures attempts[i].seen == i && IsDue(states[i], attempts[i].now) && Admits(states[i], states[i])
    ensures attempts[i].now == states[i].remindAt == states[i].nextNotifyAt == Occurrence(r.remindAt, r.repeatRule, a)
    ensures var last := states[|states| - 1];
      Admits(last, states[i]) && last.remindAt > states[i].remindAt
  {
    hide Occurrence, IsStep, UpdateDue;
    NoRuleNeverMoves(r.remindAt, a);
    NoRuleNeverMoves(r.remindAt, b);
    states, attempts := RunToEvent(r, a);
    i := |attempts|;
    var seen := states[i];
    DueAtItsTime(seen);
    OccurrencesCompose(r.remindAt, r.repeatRule, a, b - a);
    OccurrencesCompose(seen.remindAt, seen.repeatRule, 1, b - a - 1);
    states, attempts := Extend(states, attempts, i, seen.remindAt);
    assert states[i] == seen && attempts[i] == Attempt(i, seen.remindAt);
    states, attempts := DriveOn(states, attempts, b - a - 1);
    assert states[i] == seen && attempts[i] == Attempt(i, seen.remindAt);
  }

  /**
   * When the lead is the distance between two occurrences, a worker that read the reminder at the first writes again
   * when it has come to the second: the first occurrence's notice is sent twice.
   */
  lemma AliasRepeatsANotice(r: Reminder, a: nat, b: nat)
    returns (states: seq<Reminder>, attempts: seq<Attempt>, i: nat, j: nat)
    requires r.status == ACTIVE && NotifyPoint(r) && Aliases(r, a, b)
    ensures IsWorkerRun(states, attempts) && states[0] == r && Repeats(states, attempts, i, j)
    ensures NoticeAt(states, attempts, i) == Due(Occurrence(r.remindAt, r.repeatRule, a))
    ensures !SawCurrent(states, attempts)
  {
    hide Occurrence, IsStep, UpdateDue;
    states, attempts, i := RunToAlias(r, a, b);
    var seen := states[i];
    j := |attempts|;
    states, attempts := Extend(states, attempts, i, seen.remindAt);
    assert IsStep(states, attempts, i) && IsStep(states, attempts, j);
    assert states[attempts[j].seen] != states[j];
  }
}
