/**
 * The task table and its recurrence engine (pocut/utils/taskmanager.py): the
 * `Task` record, its encoding into a table row and back, the next-due-date
 * rules, and the sweep that appends one follow-up row per pending recurring
 * row.  The SQLite table is a sequence of rows with an AUTOINCREMENT counter;
 * dates are day numbers (see module Dates) and `datetime.now()` is the
 * parameter `now`.
 */
module TaskManager {
  import opened Outcomes
  import opened PyText
  import opened Dates

  /**
   * What `Task.due_date` holds: nothing, a `datetime` (as its day number), or
   * the raw text the task form passes on.
   */
  datatype DueValue = NoDue | DayDue(day: int) | TextDue(text: string)

  /** The `Task` dataclass, without its clock-stamped `created_at` and `updated_at`. */
  datatype Task = Task(
    id: Option<int>,
    title: string,
    text: string,
    completed: bool,
    priority: int,
    categoryId: Option<int>,
    attempts: int,
    timeSpent: int,
    dueDate: DueValue,
    isDaily: bool,
    isWeekly: bool,
    isMonthly: bool,
    isYearly: bool,
    daysOfWeek: seq<string>)

  /** `Task()`: every field at its dataclass default. */
  const DefaultTask := Task(None, "Untitled Task", "", false, 1, None, 0, 0, NoDue,
                            false, false, false, false, [])

  /** One row of the `tasks` table; the text columns hold what was written to them. */
  datatype Row = Row(
    id: int,
    title: string,
    text: string,
    completed: bool,
    priority: int,
    categoryId: Option<int>,
    attempts: int,
    timeSpent: int,
    dueDate: Option<string>,
    isDaily: bool,
    isWeekly: bool,
    isMonthly: bool,
    isYearly: bool,
    daysOfWeek: Option<string>)

  /** A `due_date` value that is a `datetime` or absent, as every `datetime` lies in years 1..9999. */
  predicate IsDateValue(due: DueValue)
  {
    match due
    case NoDue => true
    case DayDue(d) => IsOrdinal(d)
    case TextDue(_) => false
  }

  /** The table's CHECK constraint: `priority BETWEEN 1 AND 5`. */
  predicate MeetsCheck(r: Row)
  {
    1 <= r.priority <= 5
  }

  predicate AllMeetCheck(rows: seq<Row>)
  {
    forall k :: 0 <= k < |rows| ==> MeetsCheck(rows[k])
  }

  // -------------------------------------------------------- serialisation

  /** `",".join(days) if days else None`. */
  function EncodeDays(days: seq<string>): Option<string>
  {
    if |days| == 0 then None else Some(Join(days, ','))
  }

  /** `text.split(",") if text else []`. */
  function DecodeDays(column: Option<string>): seq<string>
  {
    match column
    case None => []
    case Some(t) => if t == "" then [] else Split(t, ',')
  }

  /** `due.strftime("%Y-%m-%d") if due else None`. */
  function EncodeDue(due: DueValue): Option<string>
    requires IsDateValue(due)
  {
    match due
    case NoDue => None
    case DayDue(d) => Some(FormatIso(d))
  }

  /** `datetime.strptime(text, "%Y-%m-%d") if text else None`, or `None` where it raises `ValueError`. */
  function DecodeDue(column: Option<string>): (due: Option<DueValue>)
    ensures due.Some? ==> IsDateValue(due.value)
  {
    match column
    case None => Some(NoDue)
    case Some(t) =>
      if t == "" then Some(NoDue)
      else match ParseIso(t)
        case None => None
        case Some(d) => Some(DayDue(d))
  }

  /** The row `add_task` inserts for `task` under the fresh row id `id`. */
  function EncodeRow(task: Task, id: int): Row
    requires IsDateValue(task.dueDate)
  {
    Row(id, task.title, task.text, task.completed, task.priority, task.categoryId,
        task.attempts, task.timeSpent, EncodeDue(task.dueDate),
        task.isDaily, task.isWeekly, task.isMonthly, task.isYearly,
        EncodeDays(task.daysOfWeek))
  }

  /** `_row_to_task(row)`, or `None` where its `strptime` raises `ValueError`. */
  function RowToTask(r: Row): (t: Option<Task>)
    ensures t.Some? ==> IsDateValue(t.value.dueDate)
  {
    match DecodeDue(r.dueDate)
    case None => None
    case Some(due) =>
      Some(Task(Some(r.id), r.title, r.text, r.completed, r.priority, r.categoryId,
                r.attempts, r.timeSpent, due,
                r.isDaily, r.isWeekly, r.isMonthly, r.isYearly,
                DecodeDays(r.daysOfWeek)))
  }

  /** A row fails to convert exactly when its due date is non-empty text that is not a date. */
  lemma RowToTaskFails(r: Row)
    ensures RowToTask(r).None? <==>
              r.dueDate.Some? && r.dueDate.value != "" && ParseIso(r.dueDate.value).None?
  {
  }

  /** Day names the comma encoding can carry: non-empty and comma-free. */
  predicate EncodableDays(days: seq<string>)
  {
    forall k :: 0 <= k < |days| ==> days[k] != "" && ',' !in days[k]
  }

  /** A day list survives being stored and read back; the empty list travels as NULL. */
  lemma DaysRoundTrip(days: seq<string>)
    requires EncodableDays(days)
    ensures DecodeDays(EncodeDays(days)) == days
    ensures EncodeDays(days) == None <==> days == []
  {
    if |days| > 0 {
      SplitJoin(days, ',');
      JoinEmpty(days, ',');
    }
  }

  /**
   * Reading a stored day list and writing it again gives the same text, except
   * that "" becomes NULL; either way it reads back as the same list.
   */
  lemma DaysReencode(column: Option<string>)
    ensures EncodeDays(DecodeDays(column)) == if column == Some("") then None else column
    ensures DecodeDays(EncodeDays(DecodeDays(column))) == DecodeDays(column)
  {
    if column.Some? && column.value != "" {
      JoinSplit(column.value, ',');
    }
  }

  /** A due date survives being stored and read back. */
  lemma DueRoundTrip(due: DueValue)
    requires IsDateValue(due)
    ensures DecodeDue(EncodeDue(due)) == Some(due)
  {
    if due.DayDue? {
      ParseFormatIso(due.day);
      assert |FormatIso(due.day)| == 10;
    }
  }

  /**
   * Storing a task and reading its row back gives the task with the row id
   * filled in, when its due date is a `datetime` or absent and its day names
   * are encodable.
   */
  lemma RowRoundTrip(task: Task, id: int)
    requires IsDateValue(task.dueDate) && EncodableDays(task.daysOfWeek)
    ensures RowToTask(EncodeRow(task, id)) == Some(task.(id := Some(id)))
  {
    DaysRoundTrip(task.daysOfWeek);
    DueRoundTrip(task.dueDate);
    var r := EncodeRow(task, id);
    assert DecodeDue(r.dueDate) == Some(task.dueDate);
    assert DecodeDays(r.daysOfWeek) == task.daysOfWeek;
  }

  // ---------------------------------------------------------- next due date

  /** The outcome of computing a next due date; `DateOverflow` is Python's `OverflowError`. */
  datatype NextDue = NoFollowUp | Due(day: int) | DateOverflow

  /** `day + timedelta(days=k)`, which overflows past 9999-12-31. */
  function AddDays(day: int, k: nat): (r: NextDue)
    requires IsOrdinal(day)
    ensures r.Due? ==> IsOrdinal(r.day)
  {
    if day + k <= MaxOrdinal then Due(day + k) else DateOverflow
  }

  /** The day the weekly scan starts from: the due date when it is after today, else today. */
  function WeeklyAnchor(due: Option<int>, now: int): int
  {
    if due.Some? && due.value > now then due.value else now
  }

  /** The scan over `anchor + i .. anchor + 6` for the first listed weekday. */
  function WeeklyScan(anchor: int, days: seq<string>, i: nat): NextDue
    requires i <= 7
    decreases 7 - i
  {
    if i == 7 then NoFollowUp
    else if anchor + i > MaxOrdinal then DateOverflow
    else if WeekdayName(anchor + i) in days then Due(anchor + i)
    else WeeklyScan(anchor, days, i + 1)
  }

  /** `_get_next_weekly_date(due_date, days_of_week)`, today being `now`. */
  function NextWeeklyDate(due: Option<int>, days: seq<string>, now: int): NextDue
  {
    if |days| == 0 then NoFollowUp else WeeklyScan(WeeklyAnchor(due, now), days, 0)
  }

  /** The day a fixed-offset rule counts from: the due date, or today without one. */
  function Base(due: Option<int>, now: int): int
  {
    if due.Some? then due.value else now
  }

  /** `_calculate_next_due_date(due_date, task)`, today being `now`. */
  function NextDueDate(due: Option<int>, task: Task, now: int): (r: NextDue)
    requires IsOrdinal(now) && (due.Some? ==> IsOrdinal(due.value))
  {
    if task.isDaily then AddDays(Base(due, now), 1)
    else if task.isWeekly then NextWeeklyDate(due, task.daysOfWeek, now)
    else if task.isMonthly then AddDays(Base(due, now), 30)
    else if task.isYearly then AddDays(Base(due, now), 365)
    else NoFollowUp
  }

  /** A listed day in range ends the scan. */
  lemma WeeklyScanHits(anchor: int, days: seq<string>, i: nat)
    requires i < 7 && anchor + i <= MaxOrdinal && WeekdayName(anchor + i) in days
    ensures WeeklyScan(anchor, days, i) == Due(anchor + i)
  {
  }

  /** An unlisted day in range passes the scan on to the next day. */
  lemma WeeklyScanSkips(anchor: int, days: seq<string>, i: nat)
    requires i < 7 && anchor + i <= MaxOrdinal && WeekdayName(anchor + i) !in days
    ensures WeeklyScan(anchor, days, i) == WeeklyScan(anchor, days, i + 1)
  {
  }

  /** `r` is the first listed weekday in `[anchor + i, anchor + 6]`, and a valid date. */
  ghost predicate FirstListedDay(anchor: int, days: seq<string>, i: nat, r: int)
  {
    && anchor + i <= r < anchor + 7 && r <= MaxOrdinal
    && WeekdayName(r) in days
    && forall j :: anchor + i <= j < r ==> WeekdayName(j) !in days
  }

  /** A date the scan returns is the first listed weekday from `anchor + i` on. */
  lemma {:induction false} WeeklyScanDue(anchor: int, days: seq<string>, i: nat, r: int)
    requires i <= 7 && WeeklyScan(anchor, days, i) == Due(r)
    ensures FirstListedDay(anchor, days, i, r)
    decreases 7 - i
  {
    assert i < 7 && anchor + i <= MaxOrdinal;
    if WeekdayName(anchor + i) in days {
      assert r == anchor + i;
    } else {
      WeeklyScanDue(anchor, days, i + 1, r);
    }
  }

  /** The first listed weekday from `anchor + i` on is what the scan returns. */
  lemma {:induction false} WeeklyScanFinds(anchor: int, days: seq<string>, i: nat, r: int)
    requires i <= 7 && FirstListedDay(anchor, days, i, r)
    ensures WeeklyScan(anchor, days, i) == Due(r)
    decreases 7 - i
  {
    if r != anchor + i {
      assert WeekdayName(anchor + i) !in days;
      WeeklyScanFinds(anchor, days, i + 1, r);
    }
  }

  /** The scan finds nothing exactly when no day left in the week is listed and the calendar does not end first. */
  lemma {:induction false} WeeklyScanNone(anchor: int, days: seq<string>, i: nat)
    requires i <= 7
    ensures WeeklyScan(anchor, days, i) == NoFollowUp <==>
              (i == 7 || anchor + 6 <= MaxOrdinal) && forall j :: anchor + i <= j < anchor + 7 ==> WeekdayName(j) !in days
    decreases 7 - i
  {
    if i < 7 && anchor + i <= MaxOrdinal && WeekdayName(anchor + i) !in days {
      WeeklyScanNone(anchor, days, i + 1);
    }
  }

  /**
   * The weekly rule: the result is the first day in the seven days from the
   * anchor whose weekday name is listed, the anchor itself included; with no
   * listed name in range it is `None` (or an overflow near the end of the
   * calendar).
   */
  lemma WeeklyFirstMatch(due: Option<int>, days: seq<string>, now: int, r: int)
    requires |days| > 0
    ensures var anchor := WeeklyAnchor(due, now);
      && (NextWeeklyDate(due, days, now) == Due(r) <==> FirstListedDay(anchor, days, 0, r))
      && (NextWeeklyDate(due, days, now) == NoFollowUp <==>
            anchor + 6 <= MaxOrdinal && forall j :: anchor <= j < anchor + 7 ==> WeekdayName(j) !in days)
  {
    var anchor := WeeklyAnchor(due, now);
    if WeeklyScan(anchor, days, 0) == Due(r) {
      WeeklyScanDue(anchor, days, 0, r);
    }
    if FirstListedDay(anchor, days, 0, r) {
      WeeklyScanFinds(anchor, days, 0, r);
    }
    WeeklyScanNone(anchor, days, 0);
  }

  /** A listed genuine weekday name always yields a date, unless the calendar ends first. */
  lemma WeeklyFindsListedName(due: Option<int>, days: seq<string>, now: int, w: int)
    requires 0 <= w < 7 && WeekdayNames[w] in days
    requires WeeklyAnchor(due, now) + 6 <= MaxOrdinal
    ensures NextWeeklyDate(due, days, now).Due?
  {
    var anchor := WeeklyAnchor(due, now);
    WeekCoversEveryDay(anchor, w);
    var i := (w - Weekday(anchor)) % 7;
    assert WeekdayName(anchor + i) in days;
    WeeklyFirstMatch(due, days, now, anchor);
  }

  /** How many of the four recurrence flags a task has set. */
  function FlagCount(t: Task): nat
  {
    (if t.isDaily then 1 else 0) + (if t.isWeekly then 1 else 0)
    + (if t.isMonthly then 1 else 0) + (if t.isYearly then 1 else 0)
  }

  /** `task` with every recurrence flag after its first set one cleared. */
  function FirstFlagOnly(task: Task): (u: Task)
    ensures FlagCount(u) == (if FlagCount(task) == 0 then 0 else 1)
    ensures u.daysOfWeek == task.daysOfWeek
  {
    if task.isDaily then task.(isWeekly := false, isMonthly := false, isYearly := false)
    else if task.isWeekly then task.(isMonthly := false, isYearly := false)
    else if task.isMonthly then task.(isYearly := false)
    else task
  }

  /**
   * Lines 148-156 try the flags in the order daily, weekly, monthly, yearly
   * and the first set one decides, so a row carrying several flags recurs
   * exactly as if it carried only its first.
   */
  lemma FirstFlagDecides(due: Option<int>, task: Task, now: int)
    requires IsOrdinal(now) && (due.Some? ==> IsOrdinal(due.value))
    ensures NextDueDate(due, task, now) == NextDueDate(due, FirstFlagOnly(task), now)
  {
  }

  /** Every date the rules produce is a valid day no earlier than the day they count from. */
  lemma NextDueDateInRange(due: Option<int>, task: Task, now: int)
    requires IsOrdinal(now) && (due.Some? ==> IsOrdinal(due.value))
    ensures var r := NextDueDate(due, task, now);
      r.Due? ==> IsOrdinal(r.day) && r.day >= Base(due, now)
  {
    var r := NextDueDate(due, task, now);
    if r.Due? && !task.isDaily && task.isWeekly {
      WeeklyFirstMatch(due, task.daysOfWeek, now, r.day);
    }
  }

  /** Worked examples of the rules. */
  lemma NextDueDateExamples(task: Task, now: int)
    requires IsOrdinal(now)
    ensures NextDueDate(Some(Ordinal(Date(2024, 1, 31))), DefaultTask.(isDaily := true), now)
              == Due(Ordinal(Date(2024, 2, 1)))
    ensures NextDueDate(Some(Ordinal(Date(2024, 1, 1))), DefaultTask.(isMonthly := true), now)
              == Due(Ordinal(Date(2024, 1, 31)))
    ensures NextDueDate(None, DefaultTask.(isWeekly := true, daysOfWeek := ["Monday", "Wednesday"]),
                        Ordinal(Date(2024, 5, 10)))
              == Due(Ordinal(Date(2024, 5, 13)))
    ensures NextDueDate(Some(now), DefaultTask, now) == NoFollowUp
  {
    var fri := Ordinal(Date(2024, 5, 10));
    assert fri == 739016;
    assert WeekdayName(fri) == "Friday";
    assert WeekdayName(fri + 1) == "Saturday";
    assert WeekdayName(fri + 2) == "Sunday";
    assert WeekdayName(fri + 3) == "Monday";
  }

  // ------------------------------------------------------------- the sweep

  /** The sweep's filter: `completed = 0` and at least one recurrence flag. */
  predicate IsPendingRecurring(r: Row)
  {
    !r.completed && (r.isDaily || r.isWeekly || r.isMonthly || r.isYearly)
  }

  /** The rows the sweep's SELECT fetches, in table order. */
  function Pending(rows: seq<Row>): (p: seq<Row>)
    ensures |p| <= |rows|
    ensures forall k :: 0 <= k < |p| ==> IsPendingRecurring(p[k])
    ensures AllMeetCheck(rows) ==> AllMeetCheck(p)
  {
    if rows == [] then []
    else (if IsPendingRecurring(rows[0]) then [rows[0]] else []) + Pending(rows[1..])
  }

  /** The sweep fetches exactly the pending recurring rows of the table. */
  lemma {:induction false} PendingMembers(rows: seq<Row>)
    ensures forall r :: r in Pending(rows) <==> r in rows && IsPendingRecurring(r)
  {
    if rows != [] {
      PendingMembers(rows[1..]);
      assert rows == [rows[0]] + rows[1..];
    }
  }

  lemma {:induction false} PendingAppend(a: seq<Row>, b: seq<Row>)
    ensures Pending(a + b) == Pending(a) + Pending(b)
  {
    if a == [] {
      assert a + b == b;
    } else {
      assert (a + b)[0] == a[0] && (a + b)[1..] == a[1..] + b;
      PendingAppend(a[1..], b);
    }
  }

  lemma {:induction false} PendingKeepsAll(b: seq<Row>)
    requires forall k :: 0 <= k < |b| ==> IsPendingRecurring(b[k])
    ensures Pending(b) == b
  {
    if b != [] {
      PendingKeepsAll(b[1..]);
      assert [b[0]] + b[1..] == b;
    }
  }

  /** `Task(...)` at lines 123-134: the copied fields, the new due date, defaults elsewhere. */
  function FollowUp(task: Task, day: int): Task
  {
    DefaultTask.(title := task.title, text := task.text, priority := task.priority,
                 dueDate := DayDue(day), isDaily := task.isDaily, isWeekly := task.isWeekly,
                 isMonthly := task.isMonthly, isYearly := task.isYearly,
                 daysOfWeek := task.daysOfWeek, categoryId := task.categoryId)
  }

  /** The day of a decoded due date, as `_calculate_next_due_date` receives it. */
  function DueDay(due: DueValue): (r: Option<int>)
    requires IsDateValue(due)
    ensures r.Some? ==> IsOrdinal(r.value)
  {
    if due.DayDue? then Some(due.day) else None
  }

  /** Why the sweep stops: `strptime`'s `ValueError` or `timedelta`'s `OverflowError`. */
  datatype SweepError = UnreadableDueDate | NextDateOverflow

  /** What one pass of the sweep's loop does for a fetched row. */
  datatype Step = Skip | Insert(day: Day) | Raise(error: SweepError)

  /** The pass for row `src`: convert it, compute its next due date, insert or stop. */
  function RowStep(src: Row, now: int): (s: Step)
    requires IsOrdinal(now)
  {
    match RowToTask(src)
    case None => Raise(UnreadableDueDate)
    case Some(task) =>
      NextDueDateInRange(DueDay(task.dueDate), task, now);
      match NextDueDate(DueDay(task.dueDate), task, now)
      case NoFollowUp => Skip
      case DateOverflow => Raise(NextDateOverflow)
      case Due(d) => Insert(d)
  }

  /**
   * The row the sweep inserts for the follow-up of `src` due on `day`, under
   * row id `id`: the source row's fields with the counters reset, the new due
   * date, and an empty day list stored as NULL.
   */
  function FollowUpRow(src: Row, day: int, id: int): Row
    requires IsOrdinal(day)
  {
    src.(id := id, completed := false, attempts := 0, timeSpent := 0,
         dueDate := Some(FormatIso(day)),
         daysOfWeek := if src.daysOfWeek == Some("") then None else src.daysOfWeek)
  }

  /** What a sweep over some fetched rows has inserted, and the error that stopped it, if any. */
  datatype SweepState = SweepState(added: seq<Row>, error: Option<SweepError>)

  /** The pass for each fetched row, in order. */
  function RowSteps(fetched: seq<Row>, now: int): (steps: seq<Step>)
    requires IsOrdinal(now)
    ensures |steps| == |fetched|
  {
    if fetched == [] then [] else [RowStep(fetched[0], now)] + RowSteps(fetched[1..], now)
  }

  /** The `k`-th pass is the pass for the `k`-th fetched row. */
  lemma {:induction false} RowStepsAt(fetched: seq<Row>, now: int, k: int)
    requires IsOrdinal(now) && 0 <= k < |fetched|
    ensures RowSteps(fetched, now)[k] == RowStep(fetched[k], now)
    decreases k
  {
    if k > 0 {
      RowStepsAt(fetched[1..], now, k - 1);
    }
  }

  /** One pass of the loop for the fetched row `src`, once nothing has stopped the sweep. */
  function SweepStep(before: SweepState, src: Row, step: Step, firstId: int): SweepState
  {
    if before.error.Some? then before
    else
      match step
      case Skip => before
      case Raise(e) => SweepState(before.added, Some(e))
      case Insert(d) => SweepState(before.added + [FollowUpRow(src, d, firstId + |before.added|)], None)
  }

  /**
   * The sweep over `fetched`, whose passes are `steps`: the follow-ups take
   * consecutive row ids from `firstId` on, and an error ends it, keeping what
   * was inserted before.
   */
  function Sweep(fetched: seq<Row>, steps: seq<Step>, firstId: int): SweepState
    requires |steps| == |fetched|
    decreases |fetched|
  {
    if fetched == [] then SweepState([], None)
    else
      var n := |fetched| - 1;
      SweepStep(Sweep(fetched[..n], steps[..n], firstId), fetched[n], steps[n], firstId)
  }

  /** How many passes find a next due date. */
  function InsertCount(steps: seq<Step>): nat
  {
    if steps == [] then 0
    else InsertCount(steps[..|steps| - 1]) + (if steps[|steps| - 1].Insert? then 1 else 0)
  }

  /**
   * A sweep ends without error exactly when no pass raises, and then it has
   * inserted exactly one row for each pass that found a next due date.
   */
  lemma {:induction false} SweepCounts(fetched: seq<Row>, steps: seq<Step>, firstId: int)
    requires |steps| == |fetched|
    ensures Sweep(fetched, steps, firstId).error == None <==> forall k :: 0 <= k < |steps| ==> !steps[k].Raise?
    ensures Sweep(fetched, steps, firstId).error == None ==> |Sweep(fetched, steps, firstId).added| == InsertCount(steps)
    decreases |fetched|
  {
    if fetched != [] {
      var n := |fetched| - 1;
      var prefix := steps[..n];
      SweepCounts(fetched[..n], prefix, firstId);
      assert forall k :: 0 <= k < n ==> prefix[k] == steps[k];
      if Sweep(fetched[..n], prefix, firstId).error == None && !steps[n].Raise? {
        forall k | 0 <= k < |steps|
          ensures !steps[k].Raise?
        {
          if k < n {
            assert prefix[k] == steps[k];
          }
        }
      }
    }
  }

  /** `n` is a follow-up of `src`: fields copied, fresh defaults, a due date set. */
  predicate IsFollowUpOf(n: Row, src: Row)
  {
    && n.title == src.title && n.text == src.text && n.priority == src.priority
    && n.categoryId == src.categoryId
    && n.isDaily == src.isDaily && n.isWeekly == src.isWeekly
    && n.isMonthly == src.isMonthly && n.isYearly == src.isYearly
    && n.daysOfWeek == (if src.daysOfWeek == Some("") then None else src.daysOfWeek)
    && !n.completed && n.attempts == 0 && n.timeSpent == 0
    && n.dueDate.Some?
  }

  /** The follow-up row copies its source and keeps the CHECK constraint and the sweep's filter. */
  lemma FollowUpRowCopies(src: Row, day: int, id: int)
    requires IsOrdinal(day)
    ensures var n := FollowUpRow(src, day, id);
      && IsFollowUpOf(n, src) && n.id == id
      && (MeetsCheck(src) ==> MeetsCheck(n))
      && (IsPendingRecurring(src) ==> IsPendingRecurring(n))
  {
  }

  /**
   * The follow-up row is the stored form of the `Task` built at lines 123-134
   * from the converted source row, and reading it back gives that task with
   * its new row id.
   */
  lemma FollowUpRowEncodes(src: Row, task: Task, day: int, id: int)
    requires RowToTask(src) == Some(task) && IsOrdinal(day)
    ensures FollowUpRow(src, day, id) == EncodeRow(FollowUp(task, day), id)
    ensures RowToTask(FollowUpRow(src, day, id)) == Some(FollowUp(task, day).(id := Some(id)))
  {
    DaysReencode(src.daysOfWeek);
    DueRoundTrip(DayDue(day));
  }

  /** A pass inserts nothing or exactly the follow-up of its row. */
  lemma SweepStepAdds(before: SweepState, src: Row, step: Step, firstId: int)
    ensures var after := SweepStep(before, src, step, firstId);
      || after.added == before.added
      || (step.Insert? && after.added == before.added + [FollowUpRow(src, step.day, firstId + |before.added|)])
  {
    var after := SweepStep(before, src, step, firstId);
    if before.error.Some? || !step.Insert? {
      assert after.added == before.added;
    }
  }

  /** The sweep over one more fetched row is one more pass. */
  lemma SweepPrefixStep(fetched: seq<Row>, steps: seq<Step>, i: int, firstId: int)
    requires |steps| == |fetched| && 0 <= i < |fetched|
    ensures Sweep(fetched[..i + 1], steps[..i + 1], firstId)
         == SweepStep(Sweep(fetched[..i], steps[..i], firstId), fetched[i], steps[i], firstId)
  {
    assert fetched[..i + 1][..i] == fetched[..i];
    assert steps[..i + 1][..i] == steps[..i];
  }

  /** The inserted rows have consecutive ids from `firstId` on, at most one per fetched row. */
  lemma {:induction false} SweepIds(fetched: seq<Row>, steps: seq<Step>, firstId: int)
    requires |steps| == |fetched|
    ensures var s := Sweep(fetched, steps, firstId);
      && |s.added| <= |fetched|
      && forall k :: 0 <= k < |s.added| ==> s.added[k].id == firstId + k
    decreases |fetched|
  {
    if fetched != [] {
      var n := |fetched| - 1;
      SweepIds(fetched[..n], steps[..n], firstId);
      SweepStepAdds(Sweep(fetched[..n], steps[..n], firstId), fetched[n], steps[n], firstId);
    }
  }

  /** Each inserted row meets the CHECK constraint, is pending and recurring, and follows up a fetched row. */
  ghost predicate FollowUpsOf(added: seq<Row>, fetched: seq<Row>)
  {
    forall k :: 0 <= k < |added| ==>
      && MeetsCheck(added[k]) && IsPendingRecurring(added[k])
      && exists j :: 0 <= j < |fetched| && IsFollowUpOf(added[k], fetched[j])
  }

  /** Everything a sweep over pending recurring rows inserts is a follow-up of one of them. */
  lemma {:induction false} SweepFollowUps(fetched: seq<Row>, steps: seq<Step>, firstId: int)
    requires |steps| == |fetched|
    requires AllMeetCheck(fetched)
    requires forall k :: 0 <= k < |fetched| ==> IsPendingRecurring(fetched[k])
    ensures FollowUpsOf(Sweep(fetched, steps, firstId).added, fetched)
    decreases |fetched|
  {
    if fetched != [] {
      var n := |fetched| - 1;
      var prefix := fetched[..n];
      SweepFollowUps(prefix, steps[..n], firstId);
      var before := Sweep(prefix, steps[..n], firstId);
      var s := Sweep(fetched, steps, firstId);
      SweepStepAdds(before, fetched[n], steps[n], firstId);
      if s.added != before.added {
        FollowUpRowCopies(fetched[n], steps[n].day, firstId + |before.added|);
      }
      forall k | 0 <= k < |s.added|
        ensures && MeetsCheck(s.added[k]) && IsPendingRecurring(s.added[k])
                && exists j :: 0 <= j < |fetched| && IsFollowUpOf(s.added[k], fetched[j])
      {
        if k < |before.added| {
          assert s.added[k] == before.added[k];
          var j :| 0 <= j < |prefix| && IsFollowUpOf(before.added[k], prefix[j]);
          assert fetched[j] == prefix[j];
        } else {
          assert IsFollowUpOf(s.added[k], fetched[n]);
        }
      }
    }
  }

  /** Once an error has stopped the sweep, the remaining rows change nothing. */
  lemma {:induction false} SweepStopsOnError(fetched: seq<Row>, steps: seq<Step>, firstId: int, i: nat)
    requires |steps| == |fetched| && i <= |fetched|
    requires Sweep(fetched[..i], steps[..i], firstId).error.Some?
    ensures Sweep(fetched, steps, firstId) == Sweep(fetched[..i], steps[..i], firstId)
    decreases |fetched| - i
  {
    if i < |fetched| {
      SweepPrefixStep(fetched, steps, i, firstId);
      SweepStopsOnError(fetched, steps, firstId, i + 1);
    } else {
      assert fetched[..i] == fetched && steps[..i] == steps;
    }
  }

  /** The rows a pass inserts under id `id`: its row's follow-up, or none. */
  function Inserted(src: Row, step: Step, id: int): (added: seq<Row>)
    ensures |added| <= 1
  {
    if step.Insert? then [FollowUpRow(src, step.day, id)] else []
  }

  /**
   * Extending a sweep that has not stopped by the next fetched row: an error
   * stops it, and otherwise the pass appends what it inserts under `id`, the
   * next id after `added`.
   */
  lemma SweepAdvance(fetched: seq<Row>, steps: seq<Step>, i: int, firstId: int, added: seq<Row>, id: int)
    requires |steps| == |fetched| && 0 <= i < |fetched|
    requires Sweep(fetched[..i], steps[..i], firstId) == SweepState(added, None)
    requires id == firstId + |added|
    ensures steps[i].Raise? ==> Sweep(fetched, steps, firstId) == SweepState(added, Some(steps[i].error))
    ensures !steps[i].Raise? ==>
      Sweep(fetched[..i + 1], steps[..i + 1], firstId) == SweepState(added + Inserted(fetched[i], steps[i], id), None)
  {
    SweepPrefixStep(fetched, steps, i, firstId);
    var after := SweepStep(SweepState(added, None), fetched[i], steps[i], firstId);
    if steps[i].Raise? {
      assert after == SweepState(added, Some(steps[i].error));
      SweepStopsOnError(fetched, steps, firstId, i + 1);
    } else {
      assert after == SweepState(added + Inserted(fetched[i], steps[i], id), None);
    }
  }

  lemma AppendAssociates<T>(a: seq<T>, b: seq<T>, c: seq<T>)
    ensures (a + b) + c == a + (b + c)
  {
  }

  /**
   * The sweep is not idempotent: everything it inserted is pending and
   * recurring, so the next sweep fetches the old pending rows and all the new
   * follow-ups as well.
   */
  lemma SweepAgainRevisits(rows: seq<Row>, steps: seq<Step>, firstId: int)
    requires AllMeetCheck(rows)
    requires |steps| == |Pending(rows)|
    ensures var s := Sweep(Pending(rows), steps, firstId);
      Pending(rows + s.added) == Pending(rows) + s.added
  {
    var s := Sweep(Pending(rows), steps, firstId);
    SweepFollowUps(Pending(rows), steps, firstId);
    PendingAppend(rows, s.added);
    PendingKeepsAll(s.added);
  }

  /** A daily row due on `d` (with room before the calendar ends) gets a follow-up due on `d + 1`. */
  lemma DailyRowStep(r: Row, task: Task, now: int, d: int)
    requires IsOrdinal(now) && RowToTask(r) == Some(task)
    requires task.isDaily && task.dueDate == DayDue(d) && d + 1 <= MaxOrdinal
    ensures RowStep(r, now) == Insert(d + 1)
  {
  }

  /** The passes for two fetched rows. */
  lemma RowStepsPair(a: Row, b: Row, now: int)
    requires IsOrdinal(now)
    ensures RowSteps([a, b], now) == [RowStep(a, now), RowStep(b, now)]
  {
    assert [a, b][1..] == [b];
  }

  /** A sweep over two fetched rows is two passes from the empty state. */
  lemma SweepPair(a: Row, b: Row, sa: Step, sb: Step, firstId: int)
    ensures Sweep([a, b], [sa, sb], firstId)
         == SweepStep(SweepStep(SweepState([], None), a, sa, firstId), b, sb, firstId)
  {
    assert [a, b][..1] == [a] && [sa, sb][..1] == [sa];
    assert [a][..0] == [] && [sa][..0] == [];
    assert Sweep([a], [sa], firstId) == SweepStep(SweepState([], None), a, sa, firstId);
  }

  /** The first sweep over a lone daily row due on `d` adds its follow-up due on `d + 1`. */
  lemma DailyFirstSweep(r: Row, task: Task, now: int, firstId: int, d: int)
    requires IsOrdinal(now) && RowToTask(r) == Some(task)
    requires task.isDaily && task.dueDate == DayDue(d) && d + 1 <= MaxOrdinal
    ensures Sweep([r], RowSteps([r], now), firstId) == SweepState([FollowUpRow(r, d + 1, firstId)], None)
  {
    DailyRowStep(r, task, now, d);
    assert RowSteps([r], now) == [Insert(d + 1)];
    assert [r][..0] == [] && [Insert(d + 1)][..0] == [];
  }

  /** The follow-up of a daily row due on `d` is itself followed up on `d + 2`. */
  lemma DailyFollowUpStep(r: Row, task: Task, now: int, firstId: int, d: int)
    requires IsOrdinal(now) && RowToTask(r) == Some(task)
    requires task.isDaily && task.dueDate == DayDue(d) && d + 2 <= MaxOrdinal
    ensures RowStep(FollowUpRow(r, d + 1, firstId), now) == Insert(d + 2)
  {
    FollowUpRowEncodes(r, task, d + 1, firstId);
    DailyRowStep(FollowUpRow(r, d + 1, firstId), FollowUp(task, d + 1).(id := Some(firstId)), now, d + 1);
  }

  /** Two fetched rows that both insert give a sweep that adds two rows and stops on nothing. */
  lemma SweepTwoInserts(a: Row, b: Row, now: int, firstId: int)
    requires IsOrdinal(now) && RowStep(a, now).Insert? && RowStep(b, now).Insert?
    ensures var s := Sweep([a, b], RowSteps([a, b], now), firstId);
      |s.added| == 2 && s.error == None
  {
    RowStepsPair(a, b, now);
    SweepPair(a, b, RowStep(a, now), RowStep(b, now), firstId);
  }

  /** A pending recurring row and its follow-up are both fetched by the next sweep. */
  lemma FollowUpFetchedToo(r: Row, day: int, id: int)
    requires IsPendingRecurring(r) && IsOrdinal(day)
    ensures Pending([r] + [FollowUpRow(r, day, id)]) == [r, FollowUpRow(r, day, id)]
  {
    var f := FollowUpRow(r, day, id);
    FollowUpRowCopies(r, day, id);
    PendingKeepsAll([r, f]);
    assert [r] + [f] == [r, f];
  }

  /**
   * A table with one pending daily row due on `d`: the first sweep adds its
   * follow-up due on `d + 1`, and a second sweep fetches both rows and adds two
   * more, so a row is revisited on every sweep.
   */
  lemma DailySweepTwice(r: Row, task: Task, now: int, firstId: int, d: int)
    requires IsOrdinal(now) && RowToTask(r) == Some(task)
    requires r.isDaily && !r.completed
    requires task.dueDate == DayDue(d) && d + 2 <= MaxOrdinal
    ensures var f := FollowUpRow(r, d + 1, firstId);
      && Sweep([r], RowSteps([r], now), firstId) == SweepState([f], None)
      && Pending([r] + [f]) == [r, f]
      && var second := Sweep([r, f], RowSteps([r, f], now), firstId + 1);
         |second.added| == 2 && second.error == None
  {
    var f := FollowUpRow(r, d + 1, firstId);
    DailyFirstSweep(r, task, now, firstId, d);
    DailyRowStep(r, task, now, d);
    DailyFollowUpStep(r, task, now, firstId, d);
    SweepTwoInserts(r, f, now, firstId + 1);
    FollowUpFetchedToo(r, d + 1, firstId);
  }

  // ------------------------------------------------------------- the table

  /** Why `add_task` raises: `strftime` on a text due date, or the priority CHECK constraint. */
  datatype AddError = DueDateIsText | PriorityOutOfRange

  /** A due date `add_task` cannot format: a non-empty text (an empty one is falsy). */
  predicate IsTextDate(due: DueValue)
  {
    due.TextDue? && due.text != ""
  }

  /** The task as `add_task` writes it: a falsy (empty) text due date becomes `None`. */
  function Written(task: Task): (w: Task)
    requires !IsTextDate(task.dueDate)
    requires task.dueDate.DayDue? ==> IsOrdinal(task.dueDate.day)
    ensures IsDateValue(w.dueDate)
    ensures w.dueDate == (if task.dueDate.TextDue? then NoDue else task.dueDate)
    ensures !task.dueDate.TextDue? ==> w == task
    ensures w.(dueDate := task.dueDate) == task
  {
    if task.dueDate.TextDue? then task.(dueDate := NoDue) else task
  }

  /** The `tasks` table as `TaskManager` sees it: its rows and the AUTOINCREMENT counter. */
  class TaskManager {
    var rows: seq<Row>
    var nextId: int

    ghost predicate Valid()
      reads this
    {
      && nextId >= 1
      && AllMeetCheck(rows)
      && (forall k :: 0 <= k < |rows| ==> rows[k].id < nextId)
      && (forall k :: 0 < k < |rows| ==> rows[k - 1].id < rows[k].id)
    }

    /** A new, empty table. */
    constructor ()
      ensures Valid() && rows == [] && nextId == 1
    {
      rows := [];
      nextId := 1;
    }

    /**
     * `add_task(task)`: a non-empty text due date raises before anything is
     * written (an empty one is falsy and is written as `None`); a priority
     * outside 1..5 fails the CHECK constraint and writes nothing; otherwise
     * one row is appended under a fresh id, which the returned task carries.
     */
    method AddTask(task: Task) returns (r: Result<Task, AddError>)
      requires Valid()
      requires task.dueDate.DayDue? ==> IsOrdinal(task.dueDate.day)
      modifies this
      ensures Valid()
      ensures r.Ok? <==> !IsTextDate(task.dueDate) && 1 <= task.priority <= 5
      ensures IsTextDate(task.dueDate) ==> r == Err(DueDateIsText)
      ensures r.Err? ==> rows == old(rows) && nextId == old(nextId)
      ensures r.Ok? ==> && r.value == task.(id := Some(old(nextId)))
                        && rows == old(rows) + [EncodeRow(Written(task), old(nextId))]
                        && nextId == old(nextId) + 1
    {
      if IsTextDate(task.dueDate) {
        return Err(DueDateIsText);
      }
      if !(1 <= task.priority <= 5) {
        return Err(PriorityOutOfRange);
      }
      var row := EncodeRow(Written(task), nextId);
      rows := rows + [row];
      r := Ok(task.(id := Some(nextId)));
      nextId := nextId + 1;
    }

    /** `_get_next_weekly_date(due_date, days_of_week)`: the seven-day scan. */
    method GetNextWeeklyDate(due: Option<int>, days: seq<string>, now: int) returns (r: NextDue)
      ensures r == NextWeeklyDate(due, days, now)
    {
      if |days| == 0 {
        return NoFollowUp;
      }
      var today := now;
      if due.Some? && due.value > today {
        today := due.value;
      }
      ghost var scan := WeeklyScan(today, days, 0);
      assert scan == NextWeeklyDate(due, days, now);
      for i := 0 to 7
        invariant WeeklyScan(today, days, i) == scan
      {
        if today + i > MaxOrdinal {
          return DateOverflow;
        }
        var next := today + i;
        if WeekdayName(next) in days {
          WeeklyScanHits(today, days, i);
          return Due(next);
        }
        WeeklyScanSkips(today, days, i);
      }
      return NoFollowUp;
    }

    /**
     * The private method `_calculate_next_due_date(due_date, task)`, branch by
     * branch as the source writes it; its weekly branch runs the day loop of
     * `GetNextWeeklyDate`. The rules themselves are `NextDueDate`.
     */
    method CalculateNextDueDate(due: Option<int>, task: Task, now: int) returns (r: NextDue)
      requires IsOrdinal(now) && (due.Some? ==> IsOrdinal(due.value))
      ensures r == NextDueDate(due, task, now)
    {
      var base := if due.Some? then due.value else now;
      if task.isDaily {
        return AddDays(base, 1);
      }
      if task.isWeekly {
        r := GetNextWeeklyDate(due, task.daysOfWeek, now);
        return;
      }
      if task.isMonthly {
        return AddDays(base, 30);
      }
      if task.isYearly {
        return AddDays(base, 365);
      }
      return NoFollowUp;
    }

    /**
     * Lines 123-135: the follow-up `Task` of the converted row `src`, due on
     * `day`, goes through `add_task` and is stored under the next id.
     */
    method InsertFollowUp(src: Row, task: Task, day: int)
      requires Valid() && MeetsCheck(src) && RowToTask(src) == Some(task) && IsOrdinal(day)
      modifies this
      ensures Valid()
      ensures rows == old(rows) + [FollowUpRow(src, day, old(nextId))] && nextId == old(nextId) + 1
    {
      FollowUpRowEncodes(src, task, day, nextId);
      var inserted := AddTask(FollowUp(task, day));
    }

    /**
     * One pass of the loop in `process_repeated_tasks`, for the `i`-th fetched
     * row: converts it, computes its next due date and, when there is one,
     * inserts the follow-up under the next id.
     */
    method ProcessRow(fetched: seq<Row>, i: int, now: int) returns (step: Step)
      requires Valid() && IsOrdinal(now) && 0 <= i < |fetched| && MeetsCheck(fetched[i])
      modifies this
      ensures Valid()
      ensures step == RowSteps(fetched, now)[i]
      ensures rows == old(rows) + Inserted(fetched[i], step, old(nextId))
      ensures nextId == old(nextId) + |Inserted(fetched[i], step, old(nextId))|
    {
      var src := fetched[i];
      RowStepsAt(fetched, now, i);
      var converted := RowToTask(src);
      if converted.None? {
        return Raise(UnreadableDueDate);
      }
      var task := converted.value;
      var next := CalculateNextDueDate(DueDay(task.dueDate), task, now);
      match next {
        case NoFollowUp =>
          step := Skip;
        case DateOverflow =>
          step := Raise(NextDateOverflow);
        case Due(d) =>
          NextDueDateInRange(DueDay(task.dueDate), task, now);
          InsertFollowUp(src, task, d);
          step := Insert(d);
      }
    }

    /**
     * `process_repeated_tasks()`: fetches the pending recurring rows once,
     * then appends a follow-up for each that has a next due date.  Rows
     * already in the table are left as they are; an error stops the sweep and
     * keeps the rows inserted before it.
     */
    method ProcessRepeatedTasks(now: int) returns (error: Option<SweepError>)
      requires Valid() && IsOrdinal(now)
      modifies this
      ensures Valid()
      ensures var fetched := Pending(old(rows));
        var s := Sweep(fetched, RowSteps(fetched, now), old(nextId));
        && rows == old(rows) + s.added
        && nextId == old(nextId) + |s.added|
        && error == s.error
    {
      var fetched := Pending(rows);
      error := ProcessFetched(fetched, now);
    }

    /**
     * Lines 118-135, the loop of `process_repeated_tasks` over the fetched
     * rows: each pass appends its row's follow-up under the next id, and the
     * first error ends the loop, keeping what was appended before it.
     */
    method ProcessFetched(fetched: seq<Row>, now: int) returns (error: Option<SweepError>)
      requires Valid() && IsOrdinal(now) && AllMeetCheck(fetched)
      modifies this
      ensures Valid()
      ensures var s := Sweep(fetched, RowSteps(fetched, now), old(nextId));
        && rows == old(rows) + s.added
        && nextId == old(nextId) + |s.added|
        && error == s.error
    {
      ghost var steps := RowSteps(fetched, now);
      ghost var before := rows;
      ghost var firstId := nextId;
      ghost var added: seq<Row> := [];
      error := None;
      var i := 0;
      assert rows == before + added;
      while i < |fetched|
        invariant 0 <= i <= |fetched|
        invariant Valid() && AllMeetCheck(fetched)
        invariant Sweep(fetched[..i], steps[..i], firstId) == SweepState(added, None)
        invariant rows == before + added
        invariant nextId == firstId + |added|
      {
        ghost var id := nextId;
        var step := ProcessRow(fetched, i, now);
        SweepAdvance(fetched, steps, i, firstId, added, id);
        if step.Raise? {
          return Some(step.error);
        }
        ghost var inserted := Inserted(fetched[i], step, id);
        AppendAssociates(before, added, inserted);
        added := added + inserted;
        i := i + 1;
      }
      assert fetched[..i] == fetched && steps[..i] == steps;
    }
  }
}
