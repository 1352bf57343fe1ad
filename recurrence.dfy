/**
 * The recurrence evaluator of the daily automation: for one recurring rule
 * and the current instant it decides whether a task is due to be generated
 * and, if so, for which date.  The decision compares `now` with the rule's
 * `last_generated` watermark by frequency-specific calendar arithmetic.
 */
module Recurrence {
  import opened Optional
  import opened Calendar

  datatype Frequency = Daily | Weekly | Monthly | Quarterly | Yearly

  /** A row of the `recurringRules` table. */
  datatype Rule = Rule(
    id: int,
    name: string,
    clientId: Option<int>,
    serviceId: Option<int>,
    assignedTo: Option<int>,
    frequency: Frequency,
    dayOfMonth: Option<int>,
    dayOfWeek: Option<int>,
    startDate: Option<CivilDate>,
    endDate: Option<CivilDate>,
    active: int,
    lastGenerated: Option<Instant>)

  /** The watermark of a rule that has never generated: 2000-01-01 at midnight. */
  const NeverGenerated: Instant := DateTime(Date(2000, 1, 1), 0)

  function Watermark(rule: Rule): Instant {
    rule.lastGenerated.GetOr(NeverGenerated)
  }

  /** The rule-selection query: active, and no end date or one not before today. */
  predicate IsConsidered(rule: Rule, today: CivilDate) {
    rule.active == 1 && (rule.endDate.None? || !DateLess(rule.endDate.value, today))
  }

  /** `rule.day_of_month` used as a JavaScript condition: NULL and 0 are false. */
  predicate HasDayOfMonth(rule: Rule) {
    rule.dayOfMonth.Some? && rule.dayOfMonth.value != 0
  }

  /** `rule.day_of_month || 30`. */
  function QuarterDay(rule: Rule): int {
    if HasDayOfMonth(rule) then rule.dayOfMonth.value else 30
  }

  /** Whole calendar months from `from` to `to`, ignoring the day. */
  function MonthsBetween(from: Instant, to: Instant): int {
    (to.date.year - from.date.year) * 12 + (to.date.month - from.date.month)
  }

  datatype Decision = Skip | Generate(due: CivilDate)

  /** `new Date(today.getFullYear(), today.getMonth() + 1, day_of_month)`. */
  function MonthlyDue(today: CivilDate, dayOfMonth: int): CivilDate {
    NewDate(today.year, today.month - 1 + 1, dayOfMonth)
  }

  /** `new Date(today.getFullYear(), today.getMonth() + 3, day_of_month || 30)`. */
  function QuarterlyDue(today: CivilDate, day: int): CivilDate {
    NewDate(today.year, today.month - 1 + 3, day)
  }

  /** `new Date(today.getFullYear() + 1, today.getMonth(), today.getDate())`. */
  function YearlyDue(today: CivilDate): CivilDate {
    NewDate(today.year + 1, today.month - 1, today.day)
  }

  /** `shouldGenerate` and `dueDate` of the per-frequency switch. */
  function Evaluate(rule: Rule, now: Instant): Decision {
    var today := now.date;
    var last := Watermark(rule);
    match rule.frequency
    case Daily =>
      if today != last.date then Generate(AddDays(today, 1)) else Skip
    case Weekly =>
      if ElapsedMs(last, now) / MsPerDay >= 7 then Generate(AddDays(today, 7)) else Skip
    case Monthly =>
      if HasDayOfMonth(rule) && today.day >= rule.dayOfMonth.value
         && (today.month != last.date.month || today.year != last.date.year)
      then Generate(MonthlyDue(today, rule.dayOfMonth.value))
      else Skip
    case Quarterly =>
      if MonthsBetween(last, now) >= 3 then Generate(QuarterlyDue(today, QuarterDay(rule))) else Skip
    case Yearly =>
      if today.year > last.date.year then Generate(YearlyDue(today)) else Skip
  }

  // ---------------------------------------------------------------------
  // The due dates, against day-number arithmetic
  // ---------------------------------------------------------------------

  lemma MonthIndexOfNext(y: int, m: int)
    requires 1 <= m <= 12
    ensures (y + m / 12, m % 12 + 1) == NextMonth(y, m)
  {
  }

  lemma MonthlyDueNumber(today: CivilDate, dayOfMonth: int)
    requires today.year >= 100
    ensures var (ny, nm) := NextMonth(today.year, today.month);
            DayNumber(MonthlyDue(today, dayOfMonth)) == DayNumber(Date(ny, nm, 1)) + dayOfMonth - 1
  {
    MonthIndexOfNext(today.year, today.month);
    MakeDayNumber(today.year, today.month, dayOfMonth);
  }

  lemma MonthlyDueCarry(today: CivilDate, dayOfMonth: int)
    requires today.year >= 100
    ensures var (ny, nm) := NextMonth(today.year, today.month);
            MonthlyDue(today, dayOfMonth) == Carry(ny, nm, dayOfMonth)
  {
    MonthIndexOfNext(today.year, today.month);
  }

  lemma QuarterlyDueNumber(today: CivilDate, day: int)
    requires today.year >= 100
    ensures DayNumber(QuarterlyDue(today, day))
            == DayNumber(FirstOfMonth(12 * today.year + today.month + 2)) + day - 1
  {
    var (y, jm) := (today.year, today.month + 2);
    assert QuarterlyDue(today, day) == MakeDay(y, jm, day);
    MakeDayNumber(y, jm, day);
    MakeDayMonth(y, jm);
  }

  lemma YearlyDueCarry(today: CivilDate)
    requires today.year >= 99
    ensures YearlyDue(today) == Carry(today.year + 1, today.month, today.day)
  {
    assert (today.month - 1) / 12 == 0 && (today.month - 1) % 12 + 1 == today.month;
  }

  lemma YearlyDueNumber(today: CivilDate)
    requires today.year >= 99
    ensures DayNumber(YearlyDue(today))
            == DayNumber(FirstOfMonth(12 * today.year + today.month + 11)) + today.day - 1
  {
    var (y, m) := (today.year + 1, today.month);
    YearlyDueCarry(today);
    CarryNumber(y, m, today.day);
    assert FirstOfMonth(12 * today.year + today.month + 11) == Date(y, m, 1);
  }

  // ---------------------------------------------------------------------
  // The rule for each frequency, against day-number arithmetic
  // ---------------------------------------------------------------------

  /** Daily: fires on any calendar day other than the watermark's; due the next day. */
  lemma DailyRule(rule: Rule, now: Instant)
    requires rule.frequency == Daily
    ensures Evaluate(rule, now).Generate? <==> now.date != Watermark(rule).date
    ensures Evaluate(rule, now).Generate? ==>
              DayNumber(Evaluate(rule, now).due) == DayNumber(now.date) + 1
  {
    AddDaysShifts(now.date, 1);
  }

  /** Weekly: fires once at least seven whole days have elapsed; due seven days later. */
  lemma WeeklyRule(rule: Rule, now: Instant)
    requires rule.frequency == Weekly
    ensures Evaluate(rule, now).Generate? <==> ElapsedMs(Watermark(rule), now) >= 7 * MsPerDay
    ensures Evaluate(rule, now).Generate? ==>
              DayNumber(Evaluate(rule, now).due) == DayNumber(now.date) + 7
  {
    AddDaysShifts(now.date, 7);
  }

  /**
   * Monthly: fires on or after `day_of_month` in a month other than the
   * watermark's; due `day_of_month - 1` days after the first of next month.
   */
  lemma MonthlyRule(rule: Rule, now: Instant)
    requires rule.frequency == Monthly && now.date.year >= 100
    ensures Evaluate(rule, now).Generate? <==>
              HasDayOfMonth(rule) && now.date.day >= rule.dayOfMonth.value
              && (now.date.month != Watermark(rule).date.month
                  || now.date.year != Watermark(rule).date.year)
    ensures Evaluate(rule, now).Generate? ==>
              var (ny, nm) := NextMonth(now.date.year, now.date.month);
              DayNumber(Evaluate(rule, now).due)
              == DayNumber(Date(ny, nm, 1)) + rule.dayOfMonth.value - 1
  {
    if Evaluate(rule, now).Generate? {
      MonthlyDueNumber(now.date, rule.dayOfMonth.value);
    }
  }

  /** A `day_of_month` that the next month has is kept as it is. */
  lemma MonthlyDueInRange(rule: Rule, now: Instant)
    requires rule.frequency == Monthly && now.date.year >= 100
    requires Evaluate(rule, now).Generate?
    requires var (ny, nm) := NextMonth(now.date.year, now.date.month);
             1 <= rule.dayOfMonth.value <= DaysInMonth(ny, nm)
    ensures var (ny, nm) := NextMonth(now.date.year, now.date.month);
            Evaluate(rule, now).due == Date(ny, nm, rule.dayOfMonth.value)
  {
    var (ny, nm) := NextMonth(now.date.year, now.date.month);
    MonthlyDueCarry(now.date, rule.dayOfMonth.value);
    CarryInRange(ny, nm, rule.dayOfMonth.value);
  }

  /**
   * A `day_of_month` larger than the next month carries over into the month
   * after it (31 in January is due on 2 or 3 March): the source's overflow policy.
   */
  lemma MonthlyDueOverflow(rule: Rule, now: Instant)
    requires rule.frequency == Monthly && now.date.year >= 100
    requires Evaluate(rule, now).Generate?
    requires var (ny, nm) := NextMonth(now.date.year, now.date.month);
             DaysInMonth(ny, nm) < rule.dayOfMonth.value <= 31
    ensures var (ny, nm) := NextMonth(now.date.year, now.date.month);
            var (ay, am) := NextMonth(ny, nm);
            Evaluate(rule, now).due == Date(ay, am, rule.dayOfMonth.value - DaysInMonth(ny, nm))
  {
    var (ny, nm) := NextMonth(now.date.year, now.date.month);
    MonthlyDueCarry(now.date, rule.dayOfMonth.value);
    CarryOverflow(ny, nm, rule.dayOfMonth.value);
  }

  /**
   * Quarterly: fires once the month difference reaches three; due on day
   * `day_of_month || 30` counted from the first of the month three ahead.
   */
  lemma QuarterlyRule(rule: Rule, now: Instant)
    requires rule.frequency == Quarterly && now.date.year >= 100
    ensures Evaluate(rule, now).Generate? <==> MonthsBetween(Watermark(rule), now) >= 3
    ensures Evaluate(rule, now).Generate? ==>
              DayNumber(Evaluate(rule, now).due)
              == DayNumber(FirstOfMonth(12 * now.date.year + now.date.month + 2)) + QuarterDay(rule) - 1
  {
    QuarterlyDueNumber(now.date, QuarterDay(rule));
  }

  /** Yearly: fires in any later year than the watermark's; due on the same day next year. */
  lemma YearlyRule(rule: Rule, now: Instant)
    requires rule.frequency == Yearly && now.date.year >= 99
    ensures Evaluate(rule, now).Generate? <==> now.date.year > Watermark(rule).date.year
    ensures (Evaluate(rule, now).Generate?
             && IsValidDate(Date(now.date.year + 1, now.date.month, now.date.day)))
            ==> Evaluate(rule, now).due == Date(now.date.year + 1, now.date.month, now.date.day)
    ensures (Evaluate(rule, now).Generate?
             && !IsValidDate(Date(now.date.year + 1, now.date.month, now.date.day)))
            ==> (now.date.month == 2 && now.date.day == 29
                 && Evaluate(rule, now).due == Date(now.date.year + 1, 3, 1))
  {
    var (y, m, d) := (now.date.year + 1, now.date.month, now.date.day);
    YearlyDueCarry(now.date);
    if IsValidDate(Date(y, m, d)) {
      CarryInRange(y, m, d);
    } else {
      CarryOverflow(y, m, d);
    }
  }

  // ---------------------------------------------------------------------
  // Cross-cutting properties
  // ---------------------------------------------------------------------

  /** A `day_of_month` that is unset or not negative. */
  predicate SaneDayOfMonth(rule: Rule) {
    rule.dayOfMonth.None? || rule.dayOfMonth.value >= 0
  }

  /**
   * Every generated task falls due strictly after today, so the overdue sweep
   * that follows in the same cycle never catches it.
   */
  lemma DueAfterToday(rule: Rule, now: Instant)
    requires now.date.year >= 100 && SaneDayOfMonth(rule)
    requires Evaluate(rule, now).Generate?
    ensures DateLess(now.date, Evaluate(rule, now).due)
  {
    var today := now.date;
    match rule.frequency {
      case Daily => AddDaysAfter(today, 1);
      case Weekly => AddDaysAfter(today, 7);
      case Monthly => MonthlyDueAfter(today, rule.dayOfMonth.value);
      case Quarterly => QuarterlyDueAfter(today, QuarterDay(rule));
      case Yearly => YearlyDueAfter(today);
    }
  }

  lemma AddDaysAfter(today: CivilDate, n: int)
    requires n >= 1
    ensures DateLess(today, AddDays(today, n))
  {
    assert AddDays(today, n) == Carry(today.year, today.month, today.day + n);
    CarryForward(today.year, today.month, today.day + n);
  }

  lemma MonthlyDueAfter(today: CivilDate, dayOfMonth: int)
    requires today.year >= 100 && dayOfMonth >= 1
    ensures DateLess(today, MonthlyDue(today, dayOfMonth))
  {
    var (y, m) := (today.year + today.month / 12, today.month % 12 + 1);
    assert MonthlyDue(today, dayOfMonth) == Carry(y, m, dayOfMonth);
    CarryForward(y, m, dayOfMonth);
  }

  lemma QuarterlyDueAfter(today: CivilDate, day: int)
    requires today.year >= 100 && day >= 1
    ensures DateLess(today, QuarterlyDue(today, day))
  {
    var jm := today.month + 2;
    var (y, m) := (today.year + jm / 12, jm % 12 + 1);
    assert QuarterlyDue(today, day) == Carry(y, m, day);
    CarryForward(y, m, day);
  }

  lemma YearlyDueAfter(today: CivilDate)
    requires today.year >= 99
    ensures DateLess(today, YearlyDue(today))
  {
    YearlyDueCarry(today);
    CarryForward(today.year + 1, today.month, today.day);
  }

  /** `now` and `later` lie in the same recurrence period of frequency `f`. */
  predicate WithinPeriod(f: Frequency, from: Instant, to: Instant) {
    match f
    case Daily => to.date == from.date
    case Weekly => ElapsedMs(from, to) < 7 * MsPerDay
    case Monthly => to.date.year == from.date.year && to.date.month == from.date.month
    case Quarterly => MonthsBetween(from, to) < 3
    case Yearly => to.date.year <= from.date.year
  }

  /**
   * Once a rule has fired at `fired` (its watermark set to that instant), it
   * stays quiet for the rest of that period: at most one task per period.
   */
  lemma QuietWithinPeriod(rule: Rule, fired: Instant, later: Instant)
    requires WithinPeriod(rule.frequency, fired, later)
    ensures Evaluate(rule.(lastGenerated := Some(fired)), later) == Skip
  {
  }

  /** Two runs on the same calendar day are always within one period. */
  lemma SameDayWithinPeriod(f: Frequency, fired: Instant, later: Instant)
    requires later.date == fired.date
    ensures WithinPeriod(f, fired, later)
  {
    assert ElapsedMs(fired, later) == later.msOfDay - fired.msOfDay;
  }

  /** The evaluation never consults `start_date` or `day_of_week`. */
  lemma IgnoresStartAndWeekday(rule: Rule, now: Instant, start: Option<CivilDate>, weekday: Option<int>)
    ensures Evaluate(rule.(startDate := start, dayOfWeek := weekday), now) == Evaluate(rule, now)
    ensures IsConsidered(rule.(startDate := start, dayOfWeek := weekday), now.date) == IsConsidered(rule, now.date)
  {
  }

  // ---------------------------------------------------------------------
  // Worked examples
  // ---------------------------------------------------------------------

  function SampleRule(f: Frequency, dayOfMonth: Option<int>, last: Option<Instant>): Rule {
    Rule(1, "GST return", Some(7), Some(3), Some(2), f, dayOfMonth, None, None, None, 1, last)
  }

  /** A monthly rule for the 20th last run in December fires on 22 January, due 20 February. */
  lemma MonthlyExample()
    ensures Evaluate(SampleRule(Monthly, Some(20), Some(DateTime(Date(2023, 12, 20), 0))),
                     DateTime(Date(2024, 1, 22), 21600000))
            == Generate(Date(2024, 2, 20))
  {
    CarryInRange(2024, 2, 20);
  }

  /**
   * A watermark earlier in the same month blocks a monthly rule, even when it
   * predates `day_of_month`: one firing per calendar month, not per period.
   */
  lemma MonthlySameMonthExample()
    ensures Evaluate(SampleRule(Monthly, Some(20), Some(DateTime(Date(2024, 1, 5), 0))),
                     DateTime(Date(2024, 1, 22), 21600000))
            == Skip
  {
  }

  /** Day 31 fired on 31 January 2023 carries past February: due 3 March 2023. */
  lemma MonthlyOverflowExample()
    ensures Evaluate(SampleRule(Monthly, Some(31), None), DateTime(Date(2023, 1, 31), 0))
            == Generate(Date(2023, 3, 3))
  {
  }

  /** Three months past November carries into the next year: 30 February 2025 is 2 March 2025. */
  lemma QuarterlyYearEndExample()
    ensures Evaluate(SampleRule(Quarterly, None, None), DateTime(Date(2024, 11, 15), 0))
            == Generate(Date(2025, 3, 2))
  {
  }
}
