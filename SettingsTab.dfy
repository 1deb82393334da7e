/**
 * The settings tab of `pocut/widgets/settings_tab.py`: it shows the two
 * durations of the shared `AppState` in whole minutes and saves the minutes
 * typed into its two inputs back as seconds, both or neither.
 */
module SettingsTab {
  import opened Outcomes
  import opened PyText
  import opened State

  const SaveButtonId := "save_settings_button"

  /** What pressing the save button ends in. */
  datatype SaveOutcome =
    | Saved            // both durations stored
    | InvalidInput     // `int()` raised `ValueError` on an input
    | MissingDurations // the `work_duration` setter raised `KeyError`, which is not caught

  /** The notification each outcome shows; an uncaught `KeyError` shows none. */
  function Notice(o: SaveOutcome): Option<string>
  {
    match o
    case Saved => Some("Settings saved successfully!")
    case InvalidInput => Some("Invalid input. Please enter valid numbers.")
    case MissingDurations => None
  }

  /** Lines 31-32: `str(seconds // 60)`, the whole minutes shown for a duration. */
  function DisplayedMinutes(seconds: int): string
  {
    ShowInt(seconds / 60)
  }

  /** Lines 41-42: `int(text) * 60`; `None` where `int()` raises `ValueError`. */
  function SavedSeconds(text: string): Option<int>
  {
    match ParseInt(text)
    case None => None
    case Some(minutes) => Some(minutes * 60)
  }

  /**
   * Lines 39-49 on the configuration: both inputs are converted before
   * anything is stored, so a bad input changes nothing; a missing
   * `durations` table stops the first setter before it changes anything;
   * otherwise both durations are stored.
   */
  function Save(c: Config, workText: string, breakText: string): (Config, SaveOutcome)
  {
    var work := SavedSeconds(workText);
    var brk := SavedSeconds(breakText);
    if work.None? || brk.None? then (c, InvalidInput)
    else if DurationsTable !in c then (c, MissingDurations)
    else
      var c1 := Store(c, DurationsTable, WorkKey, IntValue(work.value));
      (Store(c1, DurationsTable, BreakKey, IntValue(brk.value)), Saved)
  }

  /**
   * A duration shown and saved back unchanged comes back rounded down to
   * whole minutes: `s - s % 60`, which is `s` only for multiples of 60.
   */
  lemma DisplaySaveRoundTrip(seconds: int)
    ensures SavedSeconds(DisplayedMinutes(seconds)) == Some(seconds - seconds % 60)
    ensures SavedSeconds(DisplayedMinutes(seconds)) == Some(seconds) <==> seconds % 60 == 0
  {
    NoRangeCheck(seconds / 60);
    WholeMinutes(seconds, SavedSeconds(DisplayedMinutes(seconds)));
  }

  /** Seconds rounded down to whole minutes lose exactly the remainder. */
  lemma WholeMinutes(seconds: int, saved: Option<int>)
    requires saved == Some((seconds / 60) * 60)
    ensures saved == Some(seconds - seconds % 60)
    ensures saved == Some(seconds) <==> seconds % 60 == 0
  {
  }

  /**
   * The inputs reach `int()` unstripped, so a trailing U+001F, which
   * `int()` does not skip, makes the input invalid, while a trailing
   * no-break space is skipped.
   */
  lemma SeparatorRejected()
    ensures SavedSeconds("25\U{1F}") == None
    ensures SavedSeconds("25\U{A0}") == Some(1500)
  {
    ParseIntBadLast("25\U{1F}");
    var u := "25\U{A0}";
    StripLeftAt(u, 0, IntBlanks);
    StripRightAt(u, 2, IntBlanks);
    assert Trim(u, IntBlanks) == "25" == u[..2];
    ParseUnsignedDigits("25");
    assert DigitsValue("25") == 25;
  }

  /**
   * Any integer the inputs hold is saved as that many minutes, zero and
   * negative numbers included: there is no range check.
   */
  lemma NoRangeCheck(minutes: int)
    ensures SavedSeconds(ShowInt(minutes)) == Some(minutes * 60)
  {
    ParseIntShowInt(minutes);
  }

  /**
   * Saving is all or nothing: unless it succeeds the configuration is
   * unchanged; when it succeeds both durations read back as the converted
   * inputs and every other entry reads as before.
   */
  lemma SaveAllOrNothing(c: Config, workText: string, breakText: string, table: string, key: string)
    ensures var (d, outcome) := Save(c, workText, breakText);
            && (outcome != Saved ==> d == c)
            && (outcome == InvalidInput <==> SavedSeconds(workText).None? || SavedSeconds(breakText).None?)
            && (outcome == Saved <==> SavedSeconds(workText).Some? && SavedSeconds(breakText).Some?
                                      && DurationsTable in c)
            && (outcome == Saved ==>
                  && Lookup(d, DurationsTable, WorkKey) == Some(IntValue(SavedSeconds(workText).value))
                  && Lookup(d, DurationsTable, BreakKey) == Some(IntValue(SavedSeconds(breakText).value))
                  && (table != DurationsTable || (key != WorkKey && key != BreakKey) ==>
                        Lookup(d, table, key) == Lookup(c, table, key)))
  {
    var work := SavedSeconds(workText);
    var brk := SavedSeconds(breakText);
    if work.Some? && brk.Some? && DurationsTable in c {
      var c1 := Store(c, DurationsTable, WorkKey, IntValue(work.value));
      var v := IntValue(brk.value);
      StoreLookup(c1, DurationsTable, BreakKey, v, DurationsTable, WorkKey);
      StoreLookup(c, DurationsTable, WorkKey, IntValue(work.value), DurationsTable, WorkKey);
      StoreLookup(c1, DurationsTable, BreakKey, v, DurationsTable, BreakKey);
      StoreLookup(c1, DurationsTable, BreakKey, v, table, key);
      StoreLookup(c, DurationsTable, WorkKey, IntValue(work.value), table, key);
    }
  }

  /** The minutes text shown for a configured duration; `None` where `// 60` cannot apply. */
  function Shown(v: Option<Value>): Option<string>
  {
    match v
    case Some(IntValue(seconds)) => Some(DisplayedMinutes(seconds))
    case _ => None
  }

  /** `SettingsTab`: the shared state and the texts of its two inputs. */
  class SettingsTab {
    const state: AppState
    var workInput: string
    var breakInput: string

    /** `__init__` and `compose`: both inputs start empty. */
    constructor (state: AppState)
      ensures this.state == state && workInput == "" && breakInput == ""
    {
      this.state := state;
      workInput := "";
      breakInput := "";
    }

    /**
     * `on_mount`: fills the work input, then the break input, with the
     * duration in whole minutes. A missing key raises `KeyError` and a text
     * value `TypeError`, leaving that input and any later one as they were;
     * `ok` is false then.
     */
    method OnMount() returns (ok: bool)
      modifies this
      ensures ok <==> Shown(state.WorkDuration()).Some? && Shown(state.BreakDuration()).Some?
      ensures workInput == (if Shown(state.WorkDuration()).Some? then Shown(state.WorkDuration()).value
                            else old(workInput))
      ensures breakInput == (if ok then Shown(state.BreakDuration()).value else old(breakInput))
    {
      var work := Shown(state.WorkDuration());
      if work.None? {
        return false;
      }
      workInput := work.value;
      var brk := Shown(state.BreakDuration());
      if brk.None? {
        return false;
      }
      breakInput := brk.value;
      ok := true;
    }

    /**
     * `on_button_pressed`: the save button converts both inputs and stores
     * both durations through the state's setters (which save the file), or
     * changes nothing; any other button is ignored.
     */
    method OnButtonPressed(buttonId: string) returns (outcome: Option<SaveOutcome>)
      modifies state
      ensures buttonId != SaveButtonId ==> outcome == None && state.config == old(state.config)
      ensures buttonId == SaveButtonId ==>
                && outcome == Some(Save(old(state.config), workInput, breakInput).1)
                && state.config == Save(old(state.config), workInput, breakInput).0
      ensures outcome == Some(Saved) ==> state.file == Some(state.config)
      ensures outcome != Some(Saved) ==> state.file == old(state.file)
      ensures state.isWorkPhase == old(state.isWorkPhase) && state.debugMode == old(state.debugMode)
    {
      if buttonId != SaveButtonId {
        return None;
      }
      var work := SavedSeconds(workInput);
      var brk := SavedSeconds(breakInput);
      if work.None? || brk.None? {
        return Some(InvalidInput);
      }
      var ok := state.SetWorkDuration(work.value);
      if !ok {
        return Some(MissingDurations);
      }
      ok := state.SetBreakDuration(brk.value);
      outcome := Some(Saved);
    }
  }
}
