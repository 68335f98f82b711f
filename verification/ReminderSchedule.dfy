/** When a repeated reminder falls due next. */
module ReminderSchedule {
  import opened Calendar

  datatype RepeatRule = NONE | DAILY | WEEKLY | MONTHLY

  function AddReminderInterval(remindAt: int, rule: RepeatRule): int {
    match rule
    case NONE => remindAt
    case DAILY => SetDate(remindAt, Date(Day(remindAt)) + 1)
    case WEEKLY => SetDate(remindAt, Date(Day(remindAt)) + 7)
    case MONTHLY => SetMonth(remindAt, Month(Day(remindAt)) + 1)
  }

  /** The `k`th occurrence after the one at `t`. */
  function Occurrence(t: int, rule: RepeatRule, k: nat): int {
    if k == 0 then t else AddReminderInterval(Occurrence(t, rule, k - 1), rule)
  }

  function ShortestInterval(rule: RepeatRule): int {
    match rule
    case NONE => 0
    case DAILY => MS_PER_DAY
    case WEEKLY => 7 * MS_PER_DAY
    case MONTHLY => 28 * MS_PER_DAY
  }

  function MonthLength(t: int): int {
    DaysInMonth(Year(Day(t)), Month(Day(t)))
  }

  // ---------- One step ----------

  /** Day and week steps have a fixed length; a month step is as long as the month it leaves. */
  lemma IntervalLength(t: int, rule: RepeatRule)
    ensures AddReminderInterval(t, rule) - t ==
      match rule {
        case NONE => 0
        case DAILY => MS_PER_DAY
        case WEEKLY => 7 * MS_PER_DAY
        case MONTHLY => MonthLength(t) * MS_PER_DAY
      }
  {
    hide DayFromYear;
    match rule
    case NONE =>
    case DAILY => DateMoves(t, 1);
    case WEEKLY => DateMoves(t, 7);
    case MONTHLY =>
      var day := Day(t);
      var y, m := Year(day), Month(day);
      assert m / 12 == 0 && m % 12 == m;
      NextMonthStarts(y, m, Date(day));
      MakeDayOfFields(day);
      assert MakeDate(day + MonthLength(t), TimeWithinDay(t)) == t + MonthLength(t) * MS_PER_DAY;
  }

  lemma StepIsLong(t: int, rule: RepeatRule)
    ensures AddReminderInterval(t, rule) >= t + ShortestInterval(rule)
  {
    IntervalLength(t, rule);
  }

  lemma IntervalIsPositive(rule: RepeatRule)
    requires rule != NONE
    ensures ShortestInterval(rule) > 0
  {}

  // ---------- The loop ----------

  ghost predicate LeastOccurrenceAfter(t: int, rule: RepeatRule, now: int, next: int, k: nat) {
    k >= 1 && next == Occurrence(t, rule, k) && next > now &&
    forall j :: 1 <= j < k ==> Occurrence(t, rule, j) <= now
  }

  /** The next occurrence after both `t` and `now`, as a function for use in specifications. */
  function NextOccurrence(t: int, rule: RepeatRule, now: int): int
    requires rule != NONE
    decreases now - t
  {
    StepIsLong(t, rule);
    var next := AddReminderInterval(t, rule);
    if next <= now then NextOccurrence(next, rule, now) else next
  }

  method GetNextRepeatedReminderAt(currentRemindAt: int, rule: RepeatRule, now: int) returns (next: int)
    requires rule != NONE
    ensures next == NextOccurrence(currentRemindAt, rule, now)
    ensures exists k: nat :: LeastOccurrenceAfter(currentRemindAt, rule, now, next, k)
  {
    hide AddReminderInterval, ShortestInterval;
    next := AddReminderInterval(currentRemindAt, rule);
    ghost var k: nat := 1;
    assert Occurrence(currentRemindAt, rule, 0) == currentRemindAt;
    while next <= now
      invariant k >= 1 && next == Occurrence(currentRemindAt, rule, k)
      invariant forall j :: 1 <= j < k ==> Occurrence(currentRemindAt, rule, j) <= now
      invariant NextOccurrence(currentRemindAt, rule, now) ==
        if next <= now then NextOccurrence(next, rule, now) else next
      decreases now - next
    {
      StepIsLong(next, rule);
      IntervalIsPositive(rule);
      next := AddReminderInterval(next, rule);
      k := k + 1;
    }
    assert LeastOccurrenceAfter(currentRemindAt, rule, now, next, k);
  }

  lemma {:induction false} OccurrencesAscend(t: int, rule: RepeatRule, j: nat, k: nat)
    requires j <= k
    ensures Occurrence(t, rule, j) + (k - j) * ShortestInterval(rule) <= Occurrence(t, rule, k)
    decreases k
  {
    hide AddReminderInterval;
    if j < k {
      OccurrencesAscend(t, rule, j, k - 1);
      StepIsLong(Occurrence(t, rule, k - 1), rule);
      assert (k - j) * ShortestInterval(rule) == (k - 1 - j) * ShortestInterval(rule) + ShortestInterval(rule);
    }
  }

  lemma {:induction false} OccurrenceShifts(t: int, rule: RepeatRule, k: nat)
    ensures Occurrence(AddReminderInterval(t, rule), rule, k) == Occurrence(t, rule, k + 1)
  {
    hide AddReminderInterval;
    if k > 0 { OccurrenceShifts(t, rule, k - 1); }
  }

  /** The next occurrence is the least positive one after `now`, and nothing else is. */
  lemma {:induction false} NextIsLeast(t: int, rule: RepeatRule, now: int) returns (k: nat)
    requires rule != NONE
    ensures LeastOccurrenceAfter(t, rule, now, NextOccurrence(t, rule, now), k)
    ensures forall n, j: nat :: LeastOccurrenceAfter(t, rule, now, n, j) ==> n == NextOccurrence(t, rule, now) && j == k
    decreases now - t
  {
    hide AddReminderInterval;
    StepIsLong(t, rule);
    var next := AddReminderInterval(t, rule);
    assert next == Occurrence(t, rule, 1) by { assert Occurrence(t, rule, 0) == t; }
    if next <= now {
      var k' := NextIsLeast(next, rule, now);
      k := k' + 1;
      OccurrenceShifts(t, rule, k');
      forall j | 1 <= j < k ensures Occurrence(t, rule, j) <= now {
        OccurrenceShifts(t, rule, j - 1);
        assert j > 1 ==> Occurrence(next, rule, j - 1) <= now;
      }
    } else {
      k := 1;
    }
    forall n, j: nat | LeastOccurrenceAfter(t, rule, now, n, j)
      ensures n == NextOccurrence(t, rule, now) && j == k
    {
      assert Occurrence(t, rule, k) > now && Occurrence(t, rule, j) > now;
    }
  }

  /** Without a rule every iterate is the start, so the loop would never leave a past reminder. */
  lemma {:induction false} NoRuleNeverMoves(t: int, k: nat)
    ensures Occurrence(t, NONE, k) == t
  {
    if k > 0 { NoRuleNeverMoves(t, k - 1); }
  }

  // ---------- Closed forms ----------

  lemma {:induction false} FixedOccurrence(t: int, rule: RepeatRule, k: nat)
    requires rule == DAILY || rule == WEEKLY
    ensures Occurrence(t, rule, k) == t + k * ShortestInterval(rule)
  {
    hide AddReminderInterval;
    if k > 0 {
      FixedOccurrence(t, rule, k - 1);
      IntervalLength(Occurrence(t, rule, k - 1), rule);
      assert k * ShortestInterval(rule) == (k - 1) * ShortestInterval(rule) + ShortestInterval(rule);
    }
  }

  /** Days and weeks need no loop: one division finds the step that passes `now`. */
  lemma {:induction false} NextClosedForm(t: int, rule: RepeatRule, now: int)
    requires rule == DAILY || rule == WEEKLY
    ensures NextOccurrence(t, rule, now) == t + StepsPast(now - t, rule) * ShortestInterval(rule)
    decreases now - t
  {
    hide AddReminderInterval, StepsPast;
    IntervalLength(t, rule);
    StepsPastStep(now - t, rule);
    var next := AddReminderInterval(t, rule);
    if next <= now { NextClosedForm(next, rule, now); }
  }

  /** How many whole intervals lead past a point `gap` ahead, at least one. */
  function StepsPast(gap: int, rule: RepeatRule): int
    requires rule != NONE
  {
    if gap < 0 then 1 else gap / ShortestInterval(rule) + 1
  }

  lemma StepsPastStep(gap: int, rule: RepeatRule)
    requires rule == DAILY || rule == WEEKLY
    ensures StepsPast(gap, rule) ==
      if gap < ShortestInterval(rule) then 1 else StepsPast(gap - ShortestInterval(rule), rule) + 1
  {}

  // ---------- Months ----------

  /** An instant by its month, counted from January of year 0, its date and its time of day. */
  datatype Stamp = Stamp(month: int, date: int, time: int)

  function LengthOfMonth(month: int): (r: int)
    ensures 28 <= r <= 31
  {
    DaysInMonth(month / 12, month % 12)
  }

  function StampOf(t: int): (s: Stamp)
    ensures 1 <= s.date <= LengthOfMonth(s.month)
  {
    MakeStamp(Year(Day(t)), Month(Day(t)), Date(Day(t)), TimeWithinDay(t))
  }

  function MakeStamp(y: int, m: int, date: int, time: int): (s: Stamp)
    requires 0 <= m < 12 && 1 <= date <= DaysInMonth(y, m)
    ensures 1 <= s.date <= LengthOfMonth(s.month)
  {
    MonthSplits(y, m);
    Stamp(12 * y + m, date, time)
  }

  lemma MonthSplits(y: int, m: int)
    requires 0 <= m < 12
    ensures (12 * y + m) / 12 == y && (12 * y + m) % 12 == m
  {}

  lemma StampOfMakeDate(month: int, date: int, time: int)
    requires 1 <= date <= LengthOfMonth(month) && 0 <= time < MS_PER_DAY
    ensures StampOf(MakeDate(MakeDay(0, month, date), time)) == Stamp(month, date, time)
  {
    hide Year, Month, Date, MakeDay, DaysInMonth;
    FieldsOfMakeDay(0, month, date);
    SplitDate(MakeDay(0, month, date), time);
  }

  lemma SplitDate(day: int, time: int)
    requires 0 <= time < MS_PER_DAY
    ensures Day(MakeDate(day, time)) == day && TimeWithinDay(MakeDate(day, time)) == time
  {}

  /** The same step in months and dates. */
  function NextMonth(s: Stamp): Stamp {
    var room := LengthOfMonth(s.month + 1);
    if s.date <= room then Stamp(s.month + 1, s.date, s.time) else Stamp(s.month + 2, s.date - room, s.time)
  }

  /**
   * A monthly step reaches the next month and keeps the date when that month has the date.
   * Otherwise it overshoots into the month after, by the days that were missing.
   */
  lemma MonthlyStep(t: int)
    ensures StampOf(AddReminderInterval(t, MONTHLY)) == NextMonth(StampOf(t))
  {
    hide Year, Month, Date, MakeDay, DaysInMonth, DayFromYear;
    var s := StampOf(t);
    MonthSplits(Year(Day(t)), Month(Day(t)));
    SameDay(Year(Day(t)), Month(Day(t)) + 1, s.date);
    OverflowingDate(s.month + 1, s.date);
    var next := NextMonth(s);
    assert s.date <= 31;
    StampOfMakeDate(next.month, next.date, next.time);
  }

  lemma SameDay(y: int, m: int, date: int)
    ensures MakeDay(y, m, date) == MakeDay(0, 12 * y + m, date)
  {
    assert (12 * y + m) / 12 == y + m / 12 && (12 * y + m) % 12 == m % 12;
  }

  /** Days beyond the end of a month count into the next one. */
  lemma OverflowingDate(month: int, date: int)
    ensures MakeDay(0, month, date) == MakeDay(0, month + 1, date - LengthOfMonth(month))
  {
    NextMonthStarts(0, month, date);
  }

  /** A date of 28 or less never drifts: the `k`th monthly occurrence is that date, `k` months on. */
  lemma {:induction false} SmallDatesNeverDrift(t: int, k: nat)
    requires StampOf(t).date <= 28
    ensures StampOf(Occurrence(t, MONTHLY, k)) == StampOf(t).(month := StampOf(t).month + k)
  {
    hide StampOf, AddReminderInterval, LengthOfMonth;
    if k > 0 {
      SmallDatesNeverDrift(t, k - 1);
      MonthlyStep(Occurrence(t, MONTHLY, k - 1));
    }
  }

  ghost predicate NeverDrifts(t: int) {
    forall k: nat :: StampOf(Occurrence(t, MONTHLY, k)).date == StampOf(t).date
  }

  /** Every date after the 28th drifts in the end, since two Februaries in a row are not both leap. */
  lemma NeverDriftsIff(t: int)
    ensures NeverDrifts(t) <==> StampOf(t).date <= 28
  {
    hide StampOf, AddReminderInterval, LengthOfMonth;
    if StampOf(t).date <= 28 {
      forall k: nat ensures StampOf(Occurrence(t, MONTHLY, k)).date == StampOf(t).date { SmallDatesNeverDrift(t, k); }
    }
    if NeverDrifts(t) {
      var k := ShortFebruaryAhead(StampOf(t).month);
      MarchesOn(t, k + 1);
      assert StampOf(Occurrence(t, MONTHLY, k + 1)).date == StampOf(t).date;
    }
  }

  lemma ShortFebruaryAhead(month: int) returns (k: nat)
    ensures LengthOfMonth(month + k + 1) == 28
  {
    var n: nat := (12 - month) % 12;
    assert (month + n) % 12 == 0;
    var y := (month + n) / 12;
    MonthSplits(y, 1);
    MonthSplits(y + 1, 1);
    k := if LeapYear(y) then n + 12 else n;
  }

  lemma {:induction false} MarchesOn(t: int, k: nat)
    requires NeverDrifts(t)
    ensures StampOf(Occurrence(t, MONTHLY, k)).month == StampOf(t).month + k
  {
    hide StampOf, AddReminderInterval, LengthOfMonth;
    if k > 0 {
      MarchesOn(t, k - 1);
      var prior := Occurrence(t, MONTHLY, k - 1);
      assert StampOf(prior).date == StampOf(t).date == StampOf(Occurrence(t, MONTHLY, k)).date;
      MonthlyStep(prior);
    }
  }

  /** A reminder drifts at most once: the date it lands on is 3 or less, and stays. */
  lemma DriftsAtMostOnce(t: int, j: nat, k: nat)
    requires j < k
    requires StampOf(Occurrence(t, MONTHLY, j + 1)).date != StampOf(Occurrence(t, MONTHLY, j)).date
    ensures StampOf(Occurrence(t, MONTHLY, k)).date == StampOf(Occurrence(t, MONTHLY, j + 1)).date <= 3
  {
    hide StampOf, AddReminderInterval, LengthOfMonth;
    MonthlyStep(Occurrence(t, MONTHLY, j));
    assert StampOf(Occurrence(t, MONTHLY, j)).date <= 31;
    SmallDatesNeverDrift(Occurrence(t, MONTHLY, j + 1), k - j - 1);
    OccurrencesCompose(t, MONTHLY, j + 1, k - j - 1);
  }

  lemma {:induction false} OccurrencesCompose(t: int, rule: RepeatRule, j: nat, k: nat)
    ensures Occurrence(Occurrence(t, rule, j), rule, k) == Occurrence(t, rule, j + k)
  {
    hide AddReminderInterval;
    if k > 0 { OccurrencesCompose(t, rule, j, k - 1); }
  }

  /** From the 31st of January, a monthly reminder skips February and moves to the start of March. */
  lemma EndOfJanuaryDrifts(t: int, y: int)
    requires StampOf(t).month == 12 * y && StampOf(t).date == 31
    ensures StampOf(AddReminderInterval(t, MONTHLY)) ==
      Stamp(12 * y + 2, if LeapYear(y) then 2 else 3, StampOf(t).time)
  {
    hide StampOf, AddReminderInterval;
    MonthlyStep(t);
    MonthSplits(y, 1);
  }
}
