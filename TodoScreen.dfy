/**
 * The task form of `pocut/widgets/todo_screen.py`: `create_task` strips its
 * four text inputs, checks title, description, priority and due date in that
 * order, maps the selected interval onto one recurrence flag, and hands the
 * task to the task table. The status label's text is the observable outcome.
 */
module TodoScreen {
  import opened Outcomes
  import opened PyText
  import opened Dates
  import opened TaskManager

  /** The reasons `create_task` stops before reaching the table. */
  datatype FormError = TitleRequired | DescriptionRequired | PriorityInvalid | DueDateInvalid

  /** The status line each rejection shows. */
  function Message(e: FormError): string
  {
    match e
    case TitleRequired => "Task title is required."
    case DescriptionRequired => "Task description is required."
    case PriorityInvalid => "Priority must be an integer between 1 and 5."
    case DueDateInvalid => "Due date must be in YYYY-MM-DD format."
  }

  const CreatedMessage := "Task created successfully!"

  /** The status line after `add_task` raises on a text due date (`f"Error creating task: {e}"`). */
  const StrftimeErrorMessage := "Error creating task: 'str' object has no attribute 'strftime'"

  /** Every character of `s` is whitespace (so `s.strip()` is empty and falsy). */
  predicate Blank(s: string)
  {
    forall i :: 0 <= i < |s| ==> IsSpace(s[i])
  }

  /**
   * Lines 104-110: `interval_options.get(index, {})` spread into the task.
   * `None` is the selector with nothing chosen.
   */
  function WithInterval(t: Task, interval: Option<int>): Task
  {
    t.(isDaily := interval == Some(1), isWeekly := interval == Some(2),
       isMonthly := interval == Some(3), isYearly := interval == Some(4))
  }

  /**
   * Lines 80-119 on the stripped inputs, given what `int(priority)` returns
   * (`None` where it raises) and whether `strptime` accepts the due date:
   * the checks in their order, and on success the `Task` the form builds (a
   * non-empty due date is passed on as its text).
   */
  function Check(title: string, description: string, priority: Option<int>, dueDate: string,
                 dateParses: bool, interval: Option<int>): (r: Result<Task, FormError>)
  {
    if title == [] then Err(TitleRequired)
    else if description == [] then Err(DescriptionRequired)
    else if priority.None? || priority.value < 1 || priority.value > 5 then Err(PriorityInvalid)
    else if dueDate != [] && !dateParses then Err(DueDateInvalid)
    else
      var task := DefaultTask.(title := title, text := description, priority := priority.value,
                               dueDate := if dueDate == [] then NoDue else TextDue(dueDate));
      Ok(WithInterval(task, interval))
  }

  /** Lines 73-119: `create_task` strips its inputs, then checks them. */
  function Validate(title: string, description: string, priority: string, dueDate: string,
                    interval: Option<int>): Result<Task, FormError>
  {
    var due := Strip(dueDate);
    Check(Strip(title), Strip(description), ParseInt(Strip(priority)), due, ParseIso(due).Some?, interval)
  }

  /** The checks of `Check` in order: the first failure decides. */
  lemma CheckOrder(title: string, description: string, priority: Option<int>, dueDate: string,
                   dateParses: bool, interval: Option<int>)
    ensures var r := Check(title, description, priority, dueDate, dateParses, interval);
            var priorityOk := priority.Some? && 1 <= priority.value <= 5;
            var dateOk := dueDate == [] || dateParses;
            && (r == Err(TitleRequired) <==> title == [])
            && (r == Err(DescriptionRequired) <==> title != [] && description == [])
            && (r == Err(PriorityInvalid) <==> title != [] && description != [] && !priorityOk)
            && (r == Err(DueDateInvalid) <==> title != [] && description != [] && priorityOk && !dateOk)
            && (r.Ok? <==> title != [] && description != [] && priorityOk && dateOk)
  {
  }

  /**
   * An accepted check gives a fresh, incomplete task with the given title,
   * description and priority, the due date as text when there is one, and
   * no day list.
   */
  lemma CheckedTask(title: string, description: string, priority: Option<int>, dueDate: string,
                    dateParses: bool, interval: Option<int>, task: Task)
    requires Check(title, description, priority, dueDate, dateParses, interval) == Ok(task)
    ensures task.title == title != [] && task.text == description != []
    ensures priority == Some(task.priority) && 1 <= task.priority <= 5
    ensures dueDate == [] ==> task.dueDate == NoDue
    ensures dueDate != [] ==> task.dueDate == TextDue(dueDate) && IsTextDate(task.dueDate) && dateParses
    ensures task.id == None && !task.completed && task.attempts == 0 && task.timeSpent == 0
    ensures task.categoryId == None && task.daysOfWeek == []
  {
  }

  /**
   * The form's checks in order, the first failure deciding: an empty
   * stripped title, else an empty stripped description, else a priority
   * `int()` rejects or that lies outside 1..5, else a non-empty due date
   * `strptime` rejects.
   */
  lemma ValidateOrder(title: string, description: string, priority: string, dueDate: string,
                      interval: Option<int>)
    ensures var r := Validate(title, description, priority, dueDate, interval);
            var p := ParseInt(Strip(priority));
            var priorityOk := p.Some? && 1 <= p.value <= 5;
            var dateOk := Strip(dueDate) == [] || ParseIso(Strip(dueDate)).Some?;
            && (r == Err(TitleRequired) <==> Strip(title) == [])
            && (r == Err(DescriptionRequired) <==> Strip(title) != [] && Strip(description) == [])
            && (r == Err(PriorityInvalid) <==> Strip(title) != [] && Strip(description) != [] && !priorityOk)
            && (r == Err(DueDateInvalid) <==> Strip(title) != [] && Strip(description) != [] && priorityOk && !dateOk)
            && (r.Ok? <==> Strip(title) != [] && Strip(description) != [] && priorityOk && dateOk)
  {
    var due := Strip(dueDate);
    CheckOrder(Strip(title), Strip(description), ParseInt(Strip(priority)), due, ParseIso(due).Some?, interval);
  }

  /** A title, or else a description, of whitespace only is rejected with its message. */
  lemma BlankRejected(title: string, description: string, priority: string, dueDate: string,
                      interval: Option<int>)
    ensures Blank(title) ==> Validate(title, description, priority, dueDate, interval) == Err(TitleRequired)
    ensures !Blank(title) && Blank(description) ==>
              Validate(title, description, priority, dueDate, interval) == Err(DescriptionRequired)
  {
    StripEmptyIffBlank(title);
    StripEmptyIffBlank(description);
  }

  /** A title of no-break and ideographic spaces is blank as `str.strip()` sees it. */
  lemma UnicodeBlankTitle(description: string, priority: string, dueDate: string, interval: Option<int>)
    ensures Validate("\U{00A0}\U{3000}", description, priority, dueDate, interval) == Err(TitleRequired)
  {
    var title := "\U{00A0}\U{3000}";
    assert IsSpace(title[0]) && IsSpace(title[1]);
    BlankRejected(title, description, priority, dueDate, interval);
  }

  /**
   * Stripping is idempotent, and stripping the priority before `int()`
   * changes nothing whenever `int()` accepts the raw text. The converse
   * fails: see `PyText.IntKeepsSeparators`.
   */
  lemma StripTwice(s: string)
    ensures Strip(Strip(s)) == Strip(s)
    ensures ParseInt(s).Some? ==> ParseInt(Strip(s)) == ParseInt(s)
  {
    StripIdempotent(s);
    ParseIntAfterStrip(s);
  }

  /**
   * Interval 1, 2, 3, 4 sets exactly one of daily, weekly, monthly, yearly;
   * any other choice, "No Interval" (0) included, sets none.
   */
  lemma IntervalFlags(t: Task, interval: Option<int>)
    ensures var u := WithInterval(t, interval);
            && FlagCount(u) == (if interval.Some? && 1 <= interval.value <= 4 then 1 else 0)
            && (u.isDaily <==> interval == Some(1)) && (u.isWeekly <==> interval == Some(2))
            && (u.isMonthly <==> interval == Some(3)) && (u.isYearly <==> interval == Some(4))
  {
  }

  /**
   * A weekly task from the form has no day list, so the weekly rule finds no
   * follow-up for it, whatever its due date and whatever the day.
   */
  lemma WeeklyFormTaskNoFollowUp(title: string, description: string, priority: Option<int>, dueDate: string,
                                 dateParses: bool, task: Task, due: Option<int>, now: int)
    requires Check(title, description, priority, dueDate, dateParses, Some(2)) == Ok(task)
    requires IsOrdinal(now) && (due.Some? ==> IsOrdinal(due.value))
    ensures task.isWeekly && task.daysOfWeek == []
    ensures NextDueDate(due, task, now) == NoFollowUp
  {
    CheckedTask(title, description, priority, dueDate, dateParses, Some(2), task);
    IntervalFlags(task, Some(2));
    WeeklyWithoutDays(due, task, now);
  }

  /** A weekly task (and not a daily one) with no day list has no next due date. */
  lemma WeeklyWithoutDays(due: Option<int>, task: Task, now: int)
    requires IsOrdinal(now) && (due.Some? ==> IsOrdinal(due.value))
    requires !task.isDaily && task.isWeekly && task.daysOfWeek == []
    ensures NextDueDate(due, task, now) == NoFollowUp
  {
  }

  /**
   * An accepted form with a non-blank due date carries that date as text,
   * which `add_task` cannot format: such a task is never stored. A form
   * without one carries no due date and is stored as it is.
   */
  lemma DatedFormTaskNotStorable(title: string, description: string, priority: string, dueDate: string,
                                 interval: Option<int>, task: Task)
    requires Validate(title, description, priority, dueDate, interval) == Ok(task)
    ensures Strip(dueDate) != [] <==> IsTextDate(task.dueDate)
    ensures Strip(dueDate) == [] <==> task.dueDate == NoDue
    ensures !IsTextDate(task.dueDate) ==> Written(task) == task
  {
    var d := Strip(dueDate);
    CheckedTask(Strip(title), Strip(description), ParseInt(Strip(priority)), d, ParseIso(d).Some?, interval, task);
  }

  /** A task the form accepts has a priority in 1..5 and either no due date or a text one. */
  lemma AcceptedTask(title: string, description: string, priority: string, dueDate: string,
                     interval: Option<int>, task: Task)
    requires Validate(title, description, priority, dueDate, interval) == Ok(task)
    ensures 1 <= task.priority <= 5
    ensures task.dueDate == NoDue || IsTextDate(task.dueDate)
  {
    var d := Strip(dueDate);
    CheckedTask(Strip(title), Strip(description), ParseInt(Strip(priority)), d, ParseIso(d).Some?, interval, task);
  }

  /** `TaskCreatorWidget`: the task table it writes to and its status label. */
  class TaskCreatorWidget {
    const taskManager: TaskManager
    var status: string

    constructor (taskManager: TaskManager)
      ensures this.taskManager == taskManager && status == ""
    {
      this.taskManager := taskManager;
      status := "";
    }

    /**
     * `create_task`: a rejected form shows its message and leaves the table
     * alone; an accepted one goes to `add_task`, which stores an undated task
     * under the next id and raises on a dated one (its due date is still
     * text), so every dated task ends in the error message with the table
     * unchanged.
     */
    method CreateTask(title: string, description: string, priority: string, dueDate: string,
                      interval: Option<int>)
      requires taskManager.Valid()
      modifies this, taskManager
      ensures taskManager.Valid()
      ensures Reported(Validate(title, description, priority, dueDate, interval),
                       old(taskManager.rows), old(taskManager.nextId))
    {
      var v := Validate(title, description, priority, dueDate, interval);
      if v.Ok? {
        AcceptedTask(title, description, priority, dueDate, interval, v.value);
      }
      Report(v);
    }

    /**
     * What `create_task` leaves behind for the form's outcome `v`, given the
     * table before it: the status line, and the table grown by one row
     * exactly for an accepted task without a due date.
     */
    ghost predicate Reported(v: Result<Task, FormError>, rows: seq<Row>, nextId: int)
      reads this, taskManager
    {
      && (v.Err? ==> status == Message(v.error))
      && (v.Ok? && v.value.dueDate == NoDue ==> status == CreatedMessage)
      && (v.Ok? && v.value.dueDate != NoDue ==> v.value.dueDate.TextDue? && status == StrftimeErrorMessage)
      && (v.Ok? && v.value.dueDate == NoDue ==>
            && taskManager.rows == rows + [EncodeRow(v.value, nextId)]
            && taskManager.nextId == nextId + 1)
      && (v.Err? || v.value.dueDate != NoDue ==>
            taskManager.rows == rows && taskManager.nextId == nextId)
    }

    /**
     * The end of `create_task` for the form's outcome `v`: a rejection
     * becomes the status line (lines 80-101); an accepted task goes to
     * `add_task`, which stores a task without a due date under the next id
     * and raises on a due date still held as text, the error becoming the
     * status line (lines 121-126).
     */
    method Report(v: Result<Task, FormError>)
      requires taskManager.Valid()
      requires v.Ok? ==> 1 <= v.value.priority <= 5 && (v.value.dueDate == NoDue || IsTextDate(v.value.dueDate))
      modifies this, taskManager
      ensures taskManager.Valid()
      ensures Reported(v, old(taskManager.rows), old(taskManager.nextId))
    {
      if v.Err? {
        status := Message(v.error);
        return;
      }
      var added := taskManager.AddTask(v.value);
      if added.Ok? {
        status := CreatedMessage;
      } else {
        status := StrftimeErrorMessage;
      }
    }
  }
}
