/**
 * The daily automation cycle over the store of tasks: recurring rules generate
 * tasks, past-due open tasks are marked overdue, and tasks due tomorrow get a
 * `task_due` reminder.  The three steps are specified as functions over the
 * tables; the class `Store` performs them in place.
 */
module Automation {
  import opened Optional
  import opened Calendar
  import opened Recurrence

  datatype TaskStatus = Pending | InProgress | Completed | Overdue

  datatype Priority = Low | Medium | High | Urgent

  /** A row of the `tasks` table (timestamps other than `completion_date` left out). */
  datatype Task = Task(
    id: int,
    title: string,
    description: Option<string>,
    clientId: Option<int>,
    serviceId: Option<int>,
    assignedTo: Option<int>,
    status: TaskStatus,
    priority: Priority,
    dueDate: Option<CivilDate>,
    completionDate: Option<Instant>,
    notes: Option<string>)

  datatype ReminderKind = TaskDue | FollowupDue | Compliance | Custom

  datatype ReminderStatus = ReminderPending | ReminderSent | ReminderDismissed

  /** A row of the `reminders` table. */
  datatype Reminder = Reminder(
    id: int,
    taskId: Option<int>,
    clientId: Option<int>,
    userId: Option<int>,
    kind: ReminderKind,
    message: string,
    reminderDate: Option<Instant>,
    status: ReminderStatus)

  /** SQLite's `CURRENT_TIMESTAMP` and `DATETIME('now')`: the current instant to the whole second. */
  function Timestamp(now: Instant): (r: Instant)
    ensures r.date == now.date
    ensures r.msOfDay <= now.msOfDay < r.msOfDay + 1000 && r.msOfDay % 1000 == 0
  {
    DateTime(now.date, now.msOfDay - now.msOfDay % 1000)
  }

  // ---------------------------------------------------------------------
  // Identifiers
  // ---------------------------------------------------------------------

  /** Pairwise distinct and all below the next value of the autoincrement counter. */
  predicate FreshIds(ids: seq<int>, next: int) {
    (forall i, j :: 0 <= i < j < |ids| ==> ids[i] != ids[j])
    && (forall i :: 0 <= i < |ids| ==> ids[i] < next)
  }

  /** The identifiers `next, next + 1, ..., next + count - 1` handed out by autoincrement. */
  function Consecutive(next: int, count: nat): (r: seq<int>)
    ensures |r| == count
  {
    seq(count, k requires 0 <= k < count => next + k)
  }

  /** Appending freshly numbered rows keeps identifiers unique and the counter ahead of them. */
  lemma AppendConsecutive(ids: seq<int>, next: int, count: nat)
    requires FreshIds(ids, next)
    ensures FreshIds(ids + Consecutive(next, count), next + count)
  {
    var all := ids + Consecutive(next, count);
    forall i, j | 0 <= i < j < |all|
      ensures all[i] != all[j]
    {
      if j >= |ids| {
        assert all[j] == next + (j - |ids|);
        if i < |ids| {
          assert all[i] == ids[i] < next;
        } else {
          assert all[i] == next + (i - |ids|);
        }
      }
    }
  }

  function TaskIds(tasks: seq<Task>): (r: seq<int>)
    ensures |r| == |tasks|
  {
    seq(|tasks|, i requires 0 <= i < |tasks| => tasks[i].id)
  }

  function ReminderIds(reminders: seq<Reminder>): (r: seq<int>)
    ensures |r| == |reminders|
  {
    seq(|reminders|, i requires 0 <= i < |reminders| => reminders[i].id)
  }

  // ---------------------------------------------------------------------
  // Step 1: tasks from recurring rules
  // ---------------------------------------------------------------------

  /** The rule is selected by the query and its frequency check decides to generate. */
  predicate Fires(rule: Rule, now: Instant) {
    IsConsidered(rule, now.date) && Evaluate(rule, now).Generate?
  }

  const NotePrefix: string := "Auto-generated from recurring rule: "

  /** The row inserted for a firing rule; status and priority take the column defaults. */
  function GeneratedTask(rule: Rule, id: int, due: CivilDate): Task {
    Task(id, rule.name, None, rule.clientId, rule.serviceId, rule.assignedTo,
         Pending, Medium, Some(due), None, Some(NotePrefix + rule.name))
  }

  /** The rules that fire at `now`, in table order. */
  function FiringRules(rules: seq<Rule>, now: Instant): (r: seq<Rule>)
    ensures |r| <= |rules|
    ensures forall k :: 0 <= k < |r| ==> Fires(r[k], now)
  {
    if |rules| == 0 then []
    else
      var prev := FiringRules(rules[..|rules| - 1], now);
      if Fires(rules[|rules| - 1], now) then prev + [rules[|rules| - 1]] else prev
  }

  /** The tasks inserted by one pass over the rules, numbered from `nextId`. */
  function NewTasks(rules: seq<Rule>, now: Instant, nextId: int): seq<Task> {
    if |rules| == 0 then []
    else
      var prev := NewTasks(rules[..|rules| - 1], now, nextId);
      var rule := rules[|rules| - 1];
      if Fires(rule, now) then prev + [GeneratedTask(rule, nextId + |prev|, Evaluate(rule, now).due)]
      else prev
  }

  /** `UPDATE recurringRules SET last_generated = CURRENT_TIMESTAMP` for a rule that fired. */
  function Advance(rule: Rule, now: Instant): Rule {
    if Fires(rule, now) then rule.(lastGenerated := Some(Timestamp(now))) else rule
  }

  function AdvanceRules(rules: seq<Rule>, now: Instant): (r: seq<Rule>)
    ensures |r| == |rules|
  {
    seq(|rules|, i requires 0 <= i < |rules| => Advance(rules[i], now))
  }

  /**
   * The watermark never moves backwards while the clock is not behind it: a rule
   * that had a watermark keeps one, no earlier than before.
   */
  lemma WatermarkMonotone(rules: seq<Rule>, now: Instant)
    ensures forall k :: 0 <= k < |rules| && rules[k].lastGenerated.Some?
                        && InstantLeq(rules[k].lastGenerated.value, Timestamp(now)) ==>
              AdvanceRules(rules, now)[k].lastGenerated.Some?
              && InstantLeq(rules[k].lastGenerated.value, AdvanceRules(rules, now)[k].lastGenerated.value)
  {
  }

  /**
   * With the clock set back a day, a daily rule fires again (the dates differ)
   * and its watermark moves to the earlier instant.
   */
  lemma WatermarkRegressesWithClock()
    ensures var w := DateTime(Date(2024, 5, 2), 0);
            var now := DateTime(Date(2024, 5, 1), 0);
            var rule := SampleRule(Daily, None, Some(w));
            Fires(rule, now)
            && Advance(rule, now).lastGenerated == Some(Timestamp(now))
            && InstantLess(Timestamp(now), w)
  {
  }

  /** A rule is among the firing rules exactly when it is in the table and fires. */
  lemma {:induction false} FiringRulesMembers(rules: seq<Rule>, now: Instant)
    ensures forall r :: r in FiringRules(rules, now) <==> r in rules && Fires(r, now)
    decreases |rules|
  {
    if |rules| > 0 {
      var init := rules[..|rules| - 1];
      FiringRulesMembers(init, now);
      assert rules == init + [rules[|rules| - 1]];
    }
  }

  /** One task per firing rule, in rule order, with consecutive ids and the rule's due date. */
  lemma {:induction false} NewTasksFromFiring(rules: seq<Rule>, now: Instant, nextId: int)
    ensures var made := NewTasks(rules, now, nextId);
            var firing := FiringRules(rules, now);
            |made| == |firing|
            && forall k :: 0 <= k < |firing| ==>
                 made[k] == GeneratedTask(firing[k], nextId + k, Evaluate(firing[k], now).due)
    decreases |rules|
  {
    if |rules| > 0 {
      NewTasksFromFiring(rules[..|rules| - 1], now, nextId);
    }
  }

  lemma NewTaskIds(rules: seq<Rule>, now: Instant, nextId: int)
    ensures TaskIds(NewTasks(rules, now, nextId)) == Consecutive(nextId, |NewTasks(rules, now, nextId)|)
  {
    NewTasksFromFiring(rules, now, nextId);
  }

  /** One more rule extends the pass by at most its own task. */
  lemma NewTasksStep(rules: seq<Rule>, i: int, now: Instant, nextId: int)
    requires 0 <= i < |rules|
    ensures var prev := NewTasks(rules[..i], now, nextId);
            NewTasks(rules[..i + 1], now, nextId)
            == if Fires(rules[i], now) then prev + [GeneratedTask(rules[i], nextId + |prev|, Evaluate(rules[i], now).due)]
               else prev
  {
    assert rules[..i + 1][..i] == rules[..i];
  }

  /** The rules table part-way through the pass: the first `i` rules handled. */
  function AdvancedUpTo(rules: seq<Rule>, i: int, now: Instant): (r: seq<Rule>)
    requires 0 <= i <= |rules|
    ensures |r| == |rules|
  {
    AdvanceRules(rules[..i], now) + rules[i..]
  }

  /** Handling rule `i` updates that rule's row alone, and only when it fires. */
  lemma AdvancedStep(rules: seq<Rule>, i: int, now: Instant)
    requires 0 <= i < |rules|
    ensures Fires(rules[i], now) ==>
              AdvancedUpTo(rules, i + 1, now)
              == AdvancedUpTo(rules, i, now)[i := rules[i].(lastGenerated := Some(Timestamp(now)))]
    ensures !Fires(rules[i], now) ==> AdvancedUpTo(rules, i + 1, now) == AdvancedUpTo(rules, i, now)
  {
    var x := Advance(rules[i], now);
    assert rules[..i + 1][..i] == rules[..i];
    assert AdvanceRules(rules[..i + 1], now) == AdvanceRules(rules[..i], now) + [x];
    assert AdvancedUpTo(rules, i + 1, now) == AdvancedUpTo(rules, i, now)[i := x];
  }

  lemma AdvancedAll(rules: seq<Rule>, now: Instant)
    ensures AdvancedUpTo(rules, 0, now) == rules
    ensures AdvancedUpTo(rules, |rules|, now) == AdvanceRules(rules, now)
  {
    assert rules[..|rules|] == rules;
  }

  /**
   * A rule that fired stays quiet for the rest of the calendar day, so the
   * startup run and the 06:00 run on the same day never both generate from it.
   */
  lemma NoRuleFiresTwiceADay(rules: seq<Rule>, now: Instant, later: Instant)
    requires later.date == now.date
    ensures forall k :: 0 <= k < |rules| && Fires(rules[k], now) ==>
              !Fires(AdvanceRules(rules, now)[k], later)
  {
    forall k | 0 <= k < |rules| && Fires(rules[k], now)
      ensures !Fires(AdvanceRules(rules, now)[k], later)
    {
      SameDayWithinPeriod(rules[k].frequency, Timestamp(now), later);
      QuietWithinPeriod(rules[k], Timestamp(now), later);
    }
  }

  lemma {:induction false} NoneFireNoTasks(rules: seq<Rule>, now: Instant, nextId: int)
    requires forall k :: 0 <= k < |rules| ==> !Fires(rules[k], now)
    ensures NewTasks(rules, now, nextId) == []
    decreases |rules|
  {
    if |rules| > 0 {
      NoneFireNoTasks(rules[..|rules| - 1], now, nextId);
    }
  }

  /** A second pass at the same instant generates nothing and leaves the rules as they are. */
  lemma RerunGeneratesNothing(rules: seq<Rule>, now: Instant, nextId: int)
    ensures NewTasks(AdvanceRules(rules, now), now, nextId) == []
    ensures AdvanceRules(AdvanceRules(rules, now), now) == AdvanceRules(rules, now)
  {
    var advanced := AdvanceRules(rules, now);
    NoRuleFiresTwiceADay(rules, now, now);
    assert forall k :: 0 <= k < |advanced| ==> !Fires(advanced[k], now);
    NoneFireNoTasks(advanced, now, nextId);
  }

  // ---------------------------------------------------------------------
  // Step 2: the overdue sweep
  // ---------------------------------------------------------------------

  /** `due_date < DATE('now') AND status IN ('pending', 'in_progress')`. */
  predicate IsLate(task: Task, today: CivilDate) {
    task.dueDate.Some? && DateLess(task.dueDate.value, today)
    && (task.status == Pending || task.status == InProgress)
  }

  function SweepTask(task: Task, today: CivilDate): Task {
    if IsLate(task, today) then task.(status := Overdue) else task
  }

  /** The tasks after `UPDATE tasks SET status = 'overdue' WHERE ...`. */
  function Swept(tasks: seq<Task>, today: CivilDate): (r: seq<Task>)
    ensures |r| == |tasks|
    ensures forall i :: 0 <= i < |tasks| ==>
              r[i] == tasks[i].(status := r[i].status)
              && (r[i].status == Overdue <==> tasks[i].status == Overdue || IsLate(tasks[i], today))
              && (r[i].status != Overdue ==> r[i].status == tasks[i].status)
  {
    seq(|tasks|, i requires 0 <= i < |tasks| => SweepTask(tasks[i], today))
  }

  /** The number of rows the sweep changes, `result.changes`. */
  function CountLate(tasks: seq<Task>, today: CivilDate): nat {
    if |tasks| == 0 then 0
    else CountLate(tasks[..|tasks| - 1], today) + (if IsLate(tasks[|tasks| - 1], today) then 1 else 0)
  }

  /**
   * Sweeping twice the same day is sweeping once, and a task already overdue
   * is never touched again by a later sweep.
   */
  lemma SweepIdempotent(tasks: seq<Task>, today: CivilDate, later: CivilDate)
    ensures Swept(Swept(tasks, today), today) == Swept(tasks, today)
    ensures var once := Swept(tasks, today);
            forall i :: 0 <= i < |once| && once[i].status == Overdue ==> Swept(once, later)[i] == once[i]
  {
    var once := Swept(tasks, today);
    assert forall i :: 0 <= i < |once| ==> !IsLate(once[i], today);
    assert Swept(once, today) == once;
  }

  /** The sweep counts no row exactly when no task is late. */
  lemma {:induction false} CountLateZeroIff(tasks: seq<Task>, today: CivilDate)
    ensures CountLate(tasks, today) == 0 <==> forall i :: 0 <= i < |tasks| ==> !IsLate(tasks[i], today)
    decreases |tasks|
  {
    if |tasks| > 0 {
      var init := tasks[..|tasks| - 1];
      CountLateZeroIff(init, today);
      assert forall i :: 0 <= i < |init| ==> init[i] == tasks[i];
    }
  }

  /** The sweep reports no change exactly when it changes nothing. */
  lemma CountLateZero(tasks: seq<Task>, today: CivilDate)
    ensures CountLate(tasks, today) == 0 <==> Swept(tasks, today) == tasks
  {
    CountLateZeroIff(tasks, today);
    var r := Swept(tasks, today);
    if CountLate(tasks, today) == 0 {
      assert forall i :: 0 <= i < |tasks| ==> r[i] == tasks[i];
    }
    if r == tasks {
      forall i | 0 <= i < |tasks|
        ensures !IsLate(tasks[i], today)
      {
        assert r[i] == tasks[i];
      }
    }
  }

  // ---------------------------------------------------------------------
  // Step 3: reminders for tasks due tomorrow
  // ---------------------------------------------------------------------

  /** A `task_due` reminder's task and calendar day; `None` for any other reminder. */
  function DueKey(r: Reminder): Option<(int, CivilDate)> {
    if r.kind == TaskDue && r.taskId.Some? && r.reminderDate.Some? then
      Some((r.taskId.value, r.reminderDate.value.date))
    else None
  }

  /** The `NOT EXISTS` subquery: a `task_due` reminder for that task, dated that day. */
  predicate HasDueReminderOn(reminders: seq<Reminder>, taskId: int, day: CivilDate) {
    exists k :: 0 <= k < |reminders| && DueKey(reminders[k]) == Some((taskId, day))
  }

  /** The selection of the reminder query against the existing reminders. */
  predicate NeedsReminder(task: Task, existing: seq<Reminder>, now: Instant) {
    task.dueDate == Some(AddDays(now.date, 1))
    && task.status != Completed
    && !HasDueReminderOn(existing, task.id, now.date)
  }

  function DueReminder(task: Task, id: int, now: Instant): Reminder {
    Reminder(id, Some(task.id), task.clientId, task.assignedTo, TaskDue,
             "Task \"" + task.title + "\" is due tomorrow", Some(Timestamp(now)), ReminderPending)
  }

  function NeedingReminder(tasks: seq<Task>, existing: seq<Reminder>, now: Instant): (r: seq<Task>)
    ensures |r| <= |tasks|
  {
    if |tasks| == 0 then []
    else
      var prev := NeedingReminder(tasks[..|tasks| - 1], existing, now);
      if NeedsReminder(tasks[|tasks| - 1], existing, now) then prev + [tasks[|tasks| - 1]] else prev
  }

  /** The rows `INSERT INTO reminders ... SELECT ...` adds, numbered from `nextId`. */
  function ReminderBatch(tasks: seq<Task>, existing: seq<Reminder>, now: Instant, nextId: int): seq<Reminder> {
    if |tasks| == 0 then []
    else
      var prev := ReminderBatch(tasks[..|tasks| - 1], existing, now, nextId);
      var task := tasks[|tasks| - 1];
      if NeedsReminder(task, existing, now) then prev + [DueReminder(task, nextId + |prev|, now)] else prev
  }

  lemma {:induction false} NeedingMembers(tasks: seq<Task>, existing: seq<Reminder>, now: Instant)
    ensures forall t :: t in NeedingReminder(tasks, existing, now) <==> t in tasks && NeedsReminder(t, existing, now)
    decreases |tasks|
  {
    if |tasks| > 0 {
      var init := tasks[..|tasks| - 1];
      NeedingMembers(init, existing, now);
      assert tasks == init + [tasks[|tasks| - 1]];
    }
  }

  /** One reminder per selected task, in task order, with consecutive ids. */
  lemma {:induction false} BatchFromNeeding(tasks: seq<Task>, existing: seq<Reminder>, now: Instant, nextId: int)
    ensures var batch := ReminderBatch(tasks, existing, now, nextId);
            var needing := NeedingReminder(tasks, existing, now);
            |batch| == |needing|
            && forall k :: 0 <= k < |needing| ==> batch[k] == DueReminder(needing[k], nextId + k, now)
    decreases |tasks|
  {
    if |tasks| > 0 {
      BatchFromNeeding(tasks[..|tasks| - 1], existing, now, nextId);
    }
  }

  lemma BatchIds(tasks: seq<Task>, existing: seq<Reminder>, now: Instant, nextId: int)
    ensures var batch := ReminderBatch(tasks, existing, now, nextId);
            ReminderIds(batch) == Consecutive(nextId, |batch|)
  {
    BatchFromNeeding(tasks, existing, now, nextId);
  }

  /** Every selected task gets a reminder dated today. */
  lemma BatchCovers(tasks: seq<Task>, existing: seq<Reminder>, now: Instant, nextId: int)
    ensures forall i :: 0 <= i < |tasks| && NeedsReminder(tasks[i], existing, now) ==>
              HasDueReminderOn(ReminderBatch(tasks, existing, now, nextId), tasks[i].id, now.date)
  {
    var batch := ReminderBatch(tasks, existing, now, nextId);
    var needing := NeedingReminder(tasks, existing, now);
    BatchFromNeeding(tasks, existing, now, nextId);
    NeedingMembers(tasks, existing, now);
    forall i | 0 <= i < |tasks| && NeedsReminder(tasks[i], existing, now)
      ensures HasDueReminderOn(batch, tasks[i].id, now.date)
    {
      assert tasks[i] in needing;
      var k :| 0 <= k < |needing| && needing[k] == tasks[i];
      assert DueKey(batch[k]) == Some((tasks[i].id, now.date));
    }
  }

  /** `r` is the reminder with id `id` that the batch inserts for some selected task. */
  predicate FromSelected(tasks: seq<Task>, existing: seq<Reminder>, now: Instant, r: Reminder, id: int) {
    exists i :: 0 <= i < |tasks| && NeedsReminder(tasks[i], existing, now) && r == DueReminder(tasks[i], id, now)
  }

  /** Every reminder in the batch is for a selected task. */
  lemma BatchSound(tasks: seq<Task>, existing: seq<Reminder>, now: Instant, nextId: int)
    ensures var batch := ReminderBatch(tasks, existing, now, nextId);
            forall k :: 0 <= k < |batch| ==> FromSelected(tasks, existing, now, batch[k], nextId + k)
  {
    var batch := ReminderBatch(tasks, existing, now, nextId);
    forall k | 0 <= k < |batch|
      ensures FromSelected(tasks, existing, now, batch[k], nextId + k)
    {
      BatchEntrySound(tasks, existing, now, nextId, k);
    }
  }

  /** The `k`-th inserted reminder is for a selected task. */
  lemma BatchEntrySound(tasks: seq<Task>, existing: seq<Reminder>, now: Instant, nextId: int, k: int)
    requires 0 <= k < |ReminderBatch(tasks, existing, now, nextId)|
    ensures FromSelected(tasks, existing, now, ReminderBatch(tasks, existing, now, nextId)[k], nextId + k)
  {
    var needing := NeedingReminder(tasks, existing, now);
    BatchFromNeeding(tasks, existing, now, nextId);
    NeedingMembers(tasks, existing, now);
    var t := needing[k];
    assert t in needing;
    var i :| 0 <= i < |tasks| && tasks[i] == t;
    assert NeedsReminder(tasks[i], existing, now);
  }

  lemma {:induction false} NoneNeedNoBatch(tasks: seq<Task>, existing: seq<Reminder>, now: Instant, nextId: int)
    requires forall i :: 0 <= i < |tasks| ==> !NeedsReminder(tasks[i], existing, now)
    ensures ReminderBatch(tasks, existing, now, nextId) == []
    decreases |tasks|
  {
    if |tasks| > 0 {
      NoneNeedNoBatch(tasks[..|tasks| - 1], existing, now, nextId);
    }
  }

  /** Running the reminder query again at any later instant of the same day inserts nothing. */
  lemma RemindersQuietOnRerun(tasks: seq<Task>, existing: seq<Reminder>, now: Instant, later: Instant,
                              nextId: int, laterId: int)
    requires later.date == now.date
    ensures var batch := ReminderBatch(tasks, existing, now, nextId);
            ReminderBatch(tasks, existing + batch, later, laterId) == []
  {
    var batch := ReminderBatch(tasks, existing, now, nextId);
    var all := existing + batch;
    BatchCovers(tasks, existing, now, nextId);
    forall i | 0 <= i < |tasks|
      ensures !NeedsReminder(tasks[i], all, later)
    {
      var id := tasks[i].id;
      if HasDueReminderOn(existing, id, now.date) {
        var k :| 0 <= k < |existing| && DueKey(existing[k]) == Some((id, now.date));
        assert all[k] == existing[k];
      } else if NeedsReminder(tasks[i], existing, now) {
        var k :| 0 <= k < |batch| && DueKey(batch[k]) == Some((id, now.date));
        assert all[|existing| + k] == batch[k];
      }
    }
    NoneNeedNoBatch(tasks, all, later, laterId);
  }

  /** No task has two `task_due` reminders dated the same day. */
  predicate OneDueReminderPerDay(reminders: seq<Reminder>) {
    forall i, j :: 0 <= i < j < |reminders| && DueKey(reminders[i]).Some? ==>
      DueKey(reminders[i]) != DueKey(reminders[j])
  }

  /** Given unique task ids, the batch keeps at most one `task_due` reminder per task and day. */
  lemma {:induction false} BatchKeepsOnePerDay(tasks: seq<Task>, existing: seq<Reminder>, now: Instant, nextId: int)
    requires forall i, j :: 0 <= i < j < |tasks| ==> tasks[i].id != tasks[j].id
    requires OneDueReminderPerDay(existing)
    ensures OneDueReminderPerDay(existing + ReminderBatch(tasks, existing, now, nextId))
    decreases |tasks|
  {
    if |tasks| > 0 {
      var init := tasks[..|tasks| - 1];
      var task := tasks[|tasks| - 1];
      var prev := ReminderBatch(init, existing, now, nextId);
      BatchKeepsOnePerDay(init, existing, now, nextId);
      if NeedsReminder(task, existing, now) {
        var before := existing + prev;
        var all := before + [DueReminder(task, nextId + |prev|, now)];
        assert ReminderBatch(tasks, existing, now, nextId) == prev + [DueReminder(task, nextId + |prev|, now)];
        assert existing + (prev + [DueReminder(task, nextId + |prev|, now)]) == all;
        BatchFromNeeding(init, existing, now, nextId);
        NeedingMembers(init, existing, now);
        forall i | 0 <= i < |before|
          ensures DueKey(before[i]) != DueKey(all[|before|])
        {
          if i >= |existing| {
            var k := i - |existing|;
            assert before[i] == prev[k];
            var needing := NeedingReminder(init, existing, now);
            assert prev[k] == DueReminder(needing[k], nextId + k, now);
            assert needing[k] in init;
            var w :| 0 <= w < |init| && init[w] == needing[k];
            assert init[w] == tasks[w];
          } else {
            assert before[i] == existing[i];
          }
        }
      }
    }
  }

  // ---------------------------------------------------------------------
  // The cycle
  // ---------------------------------------------------------------------

  /** The tables the automation reads and writes, with their autoincrement counters. */
  datatype Tables = Tables(
    rules: seq<Rule>,
    tasks: seq<Task>,
    reminders: seq<Reminder>,
    nextTaskId: int,
    nextReminderId: int)

  /** Unique row ids below their counters, and one `task_due` reminder per task and day. */
  predicate TablesValid(t: Tables) {
    FreshIds(TaskIds(t.tasks), t.nextTaskId)
    && FreshIds(ReminderIds(t.reminders), t.nextReminderId)
    && OneDueReminderPerDay(t.reminders)
  }

  function CreateStep(t: Tables, now: Instant): Tables {
    var made := NewTasks(t.rules, now, t.nextTaskId);
    t.(rules := AdvanceRules(t.rules, now), tasks := t.tasks + made, nextTaskId := t.nextTaskId + |made|)
  }

  function SweepStep(t: Tables, today: CivilDate): Tables {
    t.(tasks := Swept(t.tasks, today))
  }

  function RemindStep(t: Tables, now: Instant): Tables {
    var batch := ReminderBatch(t.tasks, t.reminders, now, t.nextReminderId);
    t.(reminders := t.reminders + batch, nextReminderId := t.nextReminderId + |batch|)
  }

  /** One run at startup or at 06:00: generate, then sweep, then remind. */
  function Cycle(t: Tables, now: Instant): Tables {
    RemindStep(SweepStep(CreateStep(t, now), now.date), now)
  }

  /** The tables after the pass has handled the first `i` rules of `t`. */
  function Midway(t: Tables, i: int, now: Instant): Tables
    requires 0 <= i <= |t.rules|
  {
    var made := NewTasks(t.rules[..i], now, t.nextTaskId);
    t.(rules := AdvancedUpTo(t.rules, i, now), tasks := t.tasks + made, nextTaskId := t.nextTaskId + |made|)
  }

  lemma MidwayStart(t: Tables, now: Instant)
    ensures Midway(t, 0, now) == t
  {
    AdvancedAll(t.rules, now);
    assert t.rules[..0] == [];
  }

  lemma MidwayEnd(t: Tables, now: Instant)
    ensures Midway(t, |t.rules|, now) == CreateStep(t, now)
  {
    AdvancedAll(t.rules, now);
    assert t.rules[..|t.rules|] == t.rules;
  }

  lemma CreateKeepsValid(t: Tables, now: Instant)
    requires TablesValid(t)
    ensures TablesValid(CreateStep(t, now))
  {
    var made := NewTasks(t.rules, now, t.nextTaskId);
    NewTaskIds(t.rules, now, t.nextTaskId);
    AppendConsecutive(TaskIds(t.tasks), t.nextTaskId, |made|);
    assert TaskIds(t.tasks + made) == TaskIds(t.tasks) + TaskIds(made);
  }

  lemma SweepKeepsValid(t: Tables, today: CivilDate)
    requires TablesValid(t)
    ensures TablesValid(SweepStep(t, today))
  {
    assert TaskIds(Swept(t.tasks, today)) == TaskIds(t.tasks);
  }

  lemma RemindKeepsValid(t: Tables, now: Instant)
    requires TablesValid(t)
    ensures TablesValid(RemindStep(t, now))
  {
    var batch := ReminderBatch(t.tasks, t.reminders, now, t.nextReminderId);
    BatchIds(t.tasks, t.reminders, now, t.nextReminderId);
    AppendConsecutive(ReminderIds(t.reminders), t.nextReminderId, |batch|);
    assert ReminderIds(t.reminders + batch) == ReminderIds(t.reminders) + ReminderIds(batch);
    forall i, j | 0 <= i < j < |t.tasks| ensures t.tasks[i].id != t.tasks[j].id {
      assert TaskIds(t.tasks)[i] != TaskIds(t.tasks)[j];
    }
    BatchKeepsOnePerDay(t.tasks, t.reminders, now, t.nextReminderId);
  }

  /** The cycle keeps ids unique and reminders deduplicated. */
  lemma CycleKeepsValid(t: Tables, now: Instant)
    requires TablesValid(t)
    ensures TablesValid(Cycle(t, now))
  {
    CreateKeepsValid(t, now);
    SweepKeepsValid(CreateStep(t, now), now.date);
    RemindKeepsValid(SweepStep(CreateStep(t, now), now.date), now);
  }

  /** Running the cycle twice at the same instant is running it once. */
  lemma CycleIdempotent(t: Tables, now: Instant)
    ensures Cycle(Cycle(t, now), now) == Cycle(t, now)
  {
    var once := Cycle(t, now);
    RerunGeneratesNothing(t.rules, now, once.nextTaskId);
    assert once.rules == AdvanceRules(t.rules, now);
    var created := CreateStep(once, now);
    assert created.tasks == once.tasks;
    assert created == once;
    var swept := Swept(CreateStep(t, now).tasks, now.date);
    SweepIdempotent(CreateStep(t, now).tasks, now.date, now.date);
    assert SweepStep(created, now.date) == once;
    RemindersQuietOnRerun(swept, t.reminders, now, now, t.nextReminderId, once.nextReminderId);
  }

  /**
   * A task generated in a cycle is not caught by that cycle's sweep: it falls
   * due after today, given four-digit years and no negative `day_of_month`.
   */
  lemma FreshTasksNotSwept(rules: seq<Rule>, now: Instant, nextId: int)
    requires now.date.year >= 100
    requires forall k :: 0 <= k < |rules| ==> SaneDayOfMonth(rules[k])
    ensures Swept(NewTasks(rules, now, nextId), now.date) == NewTasks(rules, now, nextId)
  {
    var made := NewTasks(rules, now, nextId);
    var firing := FiringRules(rules, now);
    NewTasksFromFiring(rules, now, nextId);
    FiringRulesMembers(rules, now);
    forall k | 0 <= k < |made|
      ensures !IsLate(made[k], now.date)
    {
      assert firing[k] in rules;
      DueAfterToday(firing[k], now);
    }
  }

  // ---------------------------------------------------------------------
  // Editing a task (`PUT /api/tasks/:id`)
  // ---------------------------------------------------------------------

  /** The fields the request body supplies. */
  datatype TaskEdit = TaskEdit(
    title: string,
    description: Option<string>,
    clientId: Option<int>,
    serviceId: Option<int>,
    assignedTo: Option<int>,
    status: TaskStatus,
    priority: Priority,
    dueDate: Option<CivilDate>,
    notes: Option<string>)

  /**
   * Every column is overwritten; `completion_date` becomes the instant of the
   * request when the new status is completed and is cleared otherwise.
   */
  function Edited(task: Task, edit: TaskEdit, now: Instant): (r: Task)
    ensures r.id == task.id && r.status == edit.status && r.title == edit.title && r.dueDate == edit.dueDate
    ensures r.description == edit.description && r.clientId == edit.clientId && r.serviceId == edit.serviceId
    ensures r.assignedTo == edit.assignedTo && r.priority == edit.priority && r.notes == edit.notes
    ensures r.completionDate.Some? <==> edit.status == Completed
    ensures r.completionDate.Some? ==> r.completionDate.value == now
  {
    Task(task.id, edit.title, edit.description, edit.clientId, edit.serviceId, edit.assignedTo,
         edit.status, edit.priority, edit.dueDate,
         if edit.status == Completed then Some(now) else None, edit.notes)
  }

  /** `UPDATE tasks SET ... WHERE id = ?`: the matching row is edited, the others keep their values. */
  function EditTasks(tasks: seq<Task>, id: int, edit: TaskEdit, now: Instant): (r: seq<Task>)
    ensures |r| == |tasks| && TaskIds(r) == TaskIds(tasks)
    ensures forall i :: 0 <= i < |tasks| ==> if tasks[i].id == id then r[i] == Edited(tasks[i], edit, now) else r[i] == tasks[i]
  {
    seq(|tasks|, i requires 0 <= i < |tasks| => if tasks[i].id == id then Edited(tasks[i], edit, now) else tasks[i])
  }

  // ---------------------------------------------------------------------
  // Worked examples
  // ---------------------------------------------------------------------

  function SampleTask(id: int, due: CivilDate, status: TaskStatus): Task {
    Task(id, "File ITR", None, Some(4), None, Some(2), status, Medium, Some(due), None, None)
  }

  /** Due 10 January and pending: overdue on the 15th, and left alone on the 16th. */
  lemma SweepExample()
    ensures Swept([SampleTask(1, Date(2024, 1, 10), Pending)], Date(2024, 1, 15))
            == [SampleTask(1, Date(2024, 1, 10), Overdue)]
    ensures Swept([SampleTask(1, Date(2024, 1, 10), Overdue)], Date(2024, 1, 16))
            == [SampleTask(1, Date(2024, 1, 10), Overdue)]
  {
  }

  /** Due 1 March 2024: one reminder on leap day 29 February, none on a second run that day. */
  lemma ReminderExample(now: Instant)
    requires now.date == Date(2024, 2, 29)
    ensures var tasks := [SampleTask(1, Date(2024, 3, 1), Pending)];
            var batch := ReminderBatch(tasks, [], now, 1);
            batch == [DueReminder(tasks[0], 1, now)]
            && batch[0].reminderDate.value.date == Date(2024, 2, 29)
            && ReminderBatch(tasks, batch, now, 2) == []
  {
    var tasks := [SampleTask(1, Date(2024, 3, 1), Pending)];
    assert AddDays(now.date, 1) == Date(2024, 3, 1);
    assert NeedsReminder(tasks[0], [], now);
    assert [] + ReminderBatch(tasks, [], now, 1) == ReminderBatch(tasks, [], now, 1);
    RemindersQuietOnRerun(tasks, [], now, now, 1, 2);
  }

  /** A rule whose end date has passed is never evaluated. */
  lemma EndedRuleExample(now: Instant)
    requires now.date == Date(2024, 2, 1)
    ensures var rule := SampleRule(Daily, None, None).(endDate := Some(Date(2024, 1, 1)));
            !IsConsidered(rule, now.date) && NewTasks([rule], now, 1) == []
  {
  }

  // ---------------------------------------------------------------------
  // The store
  // ---------------------------------------------------------------------

  /** The database tables the automation works on, updated in place. */
  class Store {
    var rules: seq<Rule>
    var tasks: seq<Task>
    var reminders: seq<Reminder>
    var nextTaskId: int
    var nextReminderId: int

    function Snapshot(): Tables
      reads this
    {
      Tables(rules, tasks, reminders, nextTaskId, nextReminderId)
    }

    ghost predicate Valid()
      reads this
    {
      TablesValid(Snapshot())
    }

    constructor (initial: Tables)
      requires TablesValid(initial)
      ensures Snapshot() == initial && Valid()
    {
      rules := initial.rules;
      tasks := initial.tasks;
      reminders := initial.reminders;
      nextTaskId := initial.nextTaskId;
      nextReminderId := initial.nextReminderId;
    }

    /** `createTasksFromRecurringRules`: one pass over the rules, inserting and updating as it goes. */
    method CreateTasksFromRecurringRules(now: Instant) returns (created: nat)
      requires Valid()
      modifies this
      ensures Valid()
      ensures Snapshot() == CreateStep(old(Snapshot()), now)
      ensures created == nextTaskId - old(nextTaskId)
    {
      ghost var before := Snapshot();
      var selected := rules;
      var i := 0;
      created := 0;
      MidwayStart(before, now);
      while i < |selected|
        invariant 0 <= i <= |selected| && selected == before.rules
        invariant Snapshot() == Midway(before, i, now)
        invariant created == nextTaskId - before.nextTaskId
      {
        var fired := HandleRule(selected, i, now, before);
        if fired {
          created := created + 1;
        }
        i := i + 1;
      }
      MidwayEnd(before, now);
      CreateKeepsValid(before, now);
    }

    /** The body of the pass for rule `i`: insert its task and stamp it when it fires. */
    method HandleRule(selected: seq<Rule>, i: int, now: Instant, ghost before: Tables) returns (fired: bool)
      requires selected == before.rules && 0 <= i < |selected|
      requires Snapshot() == Midway(before, i, now)
      modifies this
      ensures Snapshot() == Midway(before, i + 1, now)
      ensures nextTaskId == old(nextTaskId) + if fired then 1 else 0
    {
      fired := false;
      var rule := selected[i];
      NewTasksStep(selected, i, now, before.nextTaskId);
      AdvancedStep(selected, i, now);
      if IsConsidered(rule, now.date) {
        var decision := Evaluate(rule, now);
        if decision.Generate? {
          tasks := tasks + [GeneratedTask(rule, nextTaskId, decision.due)];
          // `WHERE id = ?` updates exactly this row because `id` is the primary key.
          rules := rules[i := rule.(lastGenerated := Some(Timestamp(now)))];
          nextTaskId := nextTaskId + 1;
          fired := true;
        }
      }
    }

    /** `markOverdueTasks`: one `UPDATE`, reporting how many rows changed. */
    method MarkOverdueTasks(today: CivilDate) returns (changes: nat)
      requires Valid()
      modifies this
      ensures Valid()
      ensures Snapshot() == SweepStep(old(Snapshot()), today)
      ensures changes == CountLate(old(tasks), today)
    {
      SweepKeepsValid(Snapshot(), today);
      changes := CountLate(tasks, today);
      tasks := Swept(tasks, today);
    }

    /** `triggerReminders`: one `INSERT ... SELECT`, reporting how many rows it added. */
    method TriggerReminders(now: Instant) returns (inserted: nat)
      requires Valid()
      modifies this
      ensures Valid()
      ensures Snapshot() == RemindStep(old(Snapshot()), now)
      ensures inserted == nextReminderId - old(nextReminderId)
    {
      RemindKeepsValid(Snapshot(), now);
      var batch := ReminderBatch(tasks, reminders, now, nextReminderId);
      reminders := reminders + batch;
      nextReminderId := nextReminderId + |batch|;
      inserted := |batch|;
    }

    /** The startup run and the daily 06:00 run: the three steps in order. */
    method RunCycle(now: Instant)
      requires Valid()
      modifies this
      ensures Valid()
      ensures Snapshot() == Cycle(old(Snapshot()), now)
    {
      var _ := CreateTasksFromRecurringRules(now);
      var _ := MarkOverdueTasks(now.date);
      var _ := TriggerReminders(now);
    }

    /** `PUT /api/tasks/:id`. An id that matches no row changes nothing. */
    method UpdateTask(id: int, edit: TaskEdit, now: Instant)
      requires Valid()
      modifies this
      ensures Valid()
      ensures Snapshot() == old(Snapshot()).(tasks := EditTasks(old(tasks), id, edit, now))
    {
      tasks := EditTasks(tasks, id, edit, now);
    }
  }
}
