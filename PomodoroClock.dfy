/**
 * The countdown timer and phase controller of
 * `pocut/widgets/pomodoro_clock.py`.
 *
 * `TimeDisplay` is a state machine over its four reactive fields plus the
 * running/paused state of its one-second interval; `PomodoroClock` drives it
 * from the buttons and from the time-up callback, and reloads it with the
 * duration of the current phase from the shared `AppState`. Each firing of
 * the interval is an explicit call (`Tick`); playing the finish sound and
 * every label, notification and progress-bar update are outside the model.
 */
module PomodoroClock {
  import opened Outcomes
  import opened PyText
  import opened State

  /** A `TimeDisplay`'s fields, and whether its one-second interval is running. */
  datatype Timer = Timer(duration: int, remaining: int, active: bool, paused: bool, ticking: bool)

  /** A `TimeDisplay` after `__init__` and `on_mount`: zero time, and the interval created paused. */
  const Mounted := Timer(0, 0, false, false, false)

  /**
   * `start(duration)`: a given duration becomes both the duration and the
   * remaining time; without one the countdown resumes where it stood.
   * Either way the timer runs.
   */
  function Started(t: Timer, duration: Option<int>): (u: Timer)
    ensures u.active && !u.paused && u.ticking
    ensures duration.Some? ==> u.duration == u.remaining == duration.value
    ensures duration.None? ==> u.duration == t.duration && u.remaining == t.remaining
  {
    var loaded := if duration.Some? then t.(duration := duration.value, remaining := duration.value) else t;
    loaded.(active := true, paused := false, ticking := true)
  }

  /** `stop()`: pauses the interval and marks the timer paused; the time is kept. */
  function Stopped(t: Timer): (u: Timer)
    ensures !u.active && u.paused && !u.ticking
    ensures u.duration == t.duration && u.remaining == t.remaining
  {
    t.(active := false, paused := true, ticking := false)
  }

  /** `reset()`: stopped, not paused, and the remaining time back at the duration. */
  function Rewound(t: Timer): (u: Timer)
    ensures !u.active && !u.paused && !u.ticking
    ensures u.duration == t.duration && u.remaining == t.duration
  {
    Stopped(t).(remaining := t.duration, paused := false)
  }

  /**
   * `update_time`: counts one second down while time remains; otherwise
   * stops the timer and fires the time-up callback (the second component).
   */
  function Ticked(t: Timer): (Timer, bool)
  {
    if t.remaining > 0 then (t.(remaining := t.remaining - 1), false) else (Stopped(t), true)
  }

  /**
   * Lines 195-197 of `update_timer_for_current_phase`: a reset, then the
   * phase's duration as both duration and remaining time. Nothing of the
   * previous timer survives, and the timer does not run.
   */
  function Loaded(t: Timer, d: int): (u: Timer)
    ensures u == Timer(d, d, false, false, false)
  {
    Rewound(t).(duration := d, remaining := d)
  }

  /**
   * `update_timer_for_current_phase` on the timer, given the phase's
   * configured duration: a missing key raises before the reset, so nothing
   * changes; a text value is not loaded (see README).
   */
  function PhaseLoad(t: Timer, v: Option<Value>): Timer
  {
    match v
    case None => t
    case Some(IntValue(d)) => Loaded(t, d)
    case Some(TextValue(_)) => Rewound(t)
  }

  /** One firing of the interval: `update_time` while it runs, nothing while it is paused. */
  function Fire(t: Timer): (Timer, bool)
  {
    if t.ticking then Ticked(t) else (t, false)
  }

  /** `n` firings of the interval: the final timer and how often the time-up callback fired. */
  function Run(t: Timer, n: nat): (Timer, nat)
    decreases n
  {
    if n == 0 then (t, 0)
    else
      var (u, fired) := Fire(t);
      var (v, k) := Run(u, n - 1);
      (v, k + if fired then 1 else 0)
  }

  /** `f"{n:02}"`: at least two digits, zero-padded; a negative number is its sign and digits. */
  function Format02(n: int): string
  {
    if n >= 0 then ZeroPad(n, 2) else "-" + ShowNat(-n)
  }

  /** `watch_remaining_time`: minutes and seconds from `divmod(remaining, 60)`, as `mm:ss`. */
  function ClockText(remaining: int): string
  {
    Format02(remaining / 60) + ":" + Format02(remaining % 60)
  }

  /** A tick with time left takes exactly one second off, changes nothing else and does not fire. */
  lemma TickCountsDown(t: Timer)
    requires t.remaining > 0
    ensures Ticked(t) == (t.(remaining := t.remaining - 1), false)
    ensures Fire(t) == (if t.ticking then (t.(remaining := t.remaining - 1), false) else (t, false))
  {
  }

  /** A tick with no time left stops the timer, keeping its time, and fires the callback. */
  lemma TimeUpStops(t: Timer)
    requires t.remaining <= 0
    ensures Ticked(t).1
    ensures Ticked(t).0 == t.(active := false, paused := true, ticking := false)
  {
  }

  /** Firings compose: `a + b` firings are `a` firings followed by `b`, and the callbacks add up. */
  lemma {:induction false} RunSplit(t: Timer, a: nat, b: nat)
    ensures Run(t, a + b) == (Run(Run(t, a).0, b).0, Run(t, a).1 + Run(Run(t, a).0, b).1)
    decreases a
  {
    if a > 0 {
      RunSplit(Fire(t).0, a - 1, b);
    }
  }

  /** A running timer with `k` or more seconds left counts down `k` seconds in `k` firings, silently. */
  lemma {:induction false} CountsDown(t: Timer, k: nat)
    requires t.ticking && k <= t.remaining
    ensures Run(t, k) == (t.(remaining := t.remaining - k), 0)
    decreases k
  {
    if k > 0 {
      var u := t.(remaining := t.remaining - 1);
      assert Fire(t) == (u, false);
      CountsDown(u, k - 1);
      assert u.(remaining := u.remaining - (k - 1)) == t.(remaining := t.remaining - k);
    }
  }

  /** While the interval is paused, firings change nothing and fire nothing. */
  lemma {:induction false} IdleRun(t: Timer, n: nat)
    requires !t.ticking
    ensures Run(t, n) == (t, 0)
    decreases n
  {
    if n > 0 {
      IdleRun(t, n - 1);
    }
  }

  /**
   * From `start(d)` the callback fires exactly once: not in the first `d`
   * firings (for `d > 0`), on firing `d + 1` (the one after the countdown
   * reached zero; firing 1 when `d <= 0`), and never again, since the
   * interval is then paused.
   */
  lemma CountdownFromStart(t: Timer, d: int, n: nat)
    requires n > (if d > 0 then d else 0)
    ensures var s := Started(t, Some(d));
            var m := if d > 0 then d else 0;
            && Run(s, m).1 == 0
            && Run(s, m + 1) == (Stopped(s.(remaining := d - m)), 1)
            && Run(s, n) == Run(s, m + 1)
  {
    var s := Started(t, Some(d));
    var m := if d > 0 then d else 0;
    var z := s.(remaining := d - m);
    if d > 0 {
      CountsDown(s, m);
    }
    RunSplit(s, m, 1);
    assert Run(z, 1) == (Stopped(z), 1);
    RunSplit(s, m + 1, n - (m + 1));
    IdleRun(Stopped(z), n - (m + 1));
  }

  /** Stopping and then resuming with `start()` keeps the duration and the remaining time. */
  lemma StopResume(t: Timer)
    ensures Started(Stopped(t), None) == t.(active := true, paused := false, ticking := true)
  {
  }

  /**
   * Reloading for a phase whose duration is configured leaves the timer idle
   * (not running, not paused); with an integer duration it is that duration.
   */
  lemma PhaseLoadIdle(t: Timer, v: Option<Value>)
    requires v.Some?
    ensures var u := PhaseLoad(t, v); !u.active && !u.paused && !u.ticking
    ensures v.value.IntValue? ==> PhaseLoad(t, v) == Timer(v.value.n, v.value.n, false, false, false)
  {
  }

  /** `Format02` of a non-negative number is its digits, at least two of them. */
  lemma Format02Digits(n: nat)
    ensures AllDigits(Format02(n)) && DigitsValue(Format02(n)) == n && |Format02(n)| >= 2
    ensures n < 100 ==> |Format02(n)| == 2
  {
    if n < 100 {
      assert Pow10(2) == 100 by {
        assert Pow10(1) == 10;
      }
      ShowNatLength(n, 2);
    }
  }

  /**
   * The clock text of a non-negative time reads back: it splits at `:` into
   * the minutes (two digits below 100 minutes) and two digits of seconds, and
   * 60 times the one plus the other is the time again.
   */
  lemma ClockTextReadsBack(r: nat)
    ensures var parts := Split(ClockText(r), ':');
            && |parts| == 2 && AllDigits(parts[0]) && AllDigits(parts[1]) && |parts[1]| == 2
            && 60 * DigitsValue(parts[0]) + DigitsValue(parts[1]) == r
            && (r < 6000 ==> |parts[0]| == 2)
  {
    var mm := Format02(r / 60);
    var ss := Format02(r % 60);
    Format02Digits(r / 60);
    Format02Digits(r % 60);
    assert ':' !in mm && ':' !in ss by {
      assert forall i :: 0 <= i < |mm| ==> IsDigit(mm[i]);
      assert forall i :: 0 <= i < |ss| ==> IsDigit(ss[i]);
    }
    SplitAfterPiece(mm, ss, ':');
    SplitPiece(ss, ':');
    assert ClockText(r) == mm + [':'] + ss;
  }

  /** Sample clock texts, including a negative time (`divmod(-1, 60) == (-1, 59)`). */
  lemma ClockTextExamples()
    ensures ClockText(1500) == "25:00"
    ensures ClockText(300) == "05:00"
    ensures ClockText(59) == "00:59"
    ensures ClockText(6000) == "100:00"
    ensures ClockText(-1) == "-1:59"
  {
    Format02Examples();
    Format02Wide();
    assert 1500 / 60 == 25 && 1500 % 60 == 0;
    assert 300 / 60 == 5 && 300 % 60 == 0;
    assert 59 / 60 == 0 && 59 % 60 == 59;
    assert 6000 / 60 == 100 && 6000 % 60 == 0;
    assert -1 / 60 == -1 && -1 % 60 == 59;
  }

  /** `f"{n:02}"` pads one digit with a zero. */
  lemma Format02OneDigit(n: nat)
    requires n < 10
    ensures Format02(n) == ['0', DigitChar(n)]
  {
    assert ShowNat(n) == [DigitChar(n)];
    assert Zeros(1) == "0";
  }

  /** `f"{n:02}"` writes two digits as they are. */
  lemma Format02TwoDigits(n: nat)
    requires 10 <= n < 100
    ensures Format02(n) == [DigitChar(n / 10), DigitChar(n % 10)]
  {
    assert ShowNat(n / 10) == [DigitChar(n / 10)];
    assert ShowNat(n) == [DigitChar(n / 10), DigitChar(n % 10)];
  }

  /** The two-character samples. */
  lemma Format02Examples()
    ensures Format02(0) == "00" && Format02(5) == "05" && Format02(25) == "25" && Format02(59) == "59"
  {
    Format02OneDigit(0);
    Format02OneDigit(5);
    Format02TwoDigits(25);
    Format02TwoDigits(59);
  }

  /** `f"{n:02}"` leaves three digits as they are and writes a negative number's sign. */
  lemma Format02Wide()
    ensures Format02(100) == "100" && Format02(-1) == "-1"
  {
    assert Format02(100) == "100" by {
      assert ShowNat(10) == "10";
      assert ShowNat(100) == "100";
    }
    assert Format02(-1) == "-1" by {
      assert ShowNat(1) == "1";
    }
  }

  /** `TimeDisplay`: the countdown widget's fields. */
  class TimeDisplay {
    var duration: int
    var remainingTime: int
    var timerActive: bool
    var paused: bool
    /** Whether the interval set up by `on_mount` is running. */
    var ticking: bool

    function State(): Timer
      reads this
    {
      Timer(duration, remainingTime, timerActive, paused, ticking)
    }

    /** The text the widget shows, kept current by `watch_remaining_time`. */
    function Text(): string
      reads this
    {
      ClockText(remainingTime)
    }

    /** `__init__` followed by `on_mount`. */
    constructor ()
      ensures State() == Mounted
    {
      duration := 0;
      remainingTime := 0;
      timerActive := false;
      paused := false;
      ticking := false;
    }

    /** `start(duration)`; `None` is the call without an argument. */
    method Start(d: Option<int>)
      modifies this
      ensures State() == Started(old(State()), d)
    {
      if d.Some? {
        duration := d.value;
        remainingTime := d.value;
      }
      timerActive := true;
      paused := false;
      ticking := true;
    }

    /** `stop()`. */
    method Stop()
      modifies this
      ensures State() == Stopped(old(State()))
    {
      ticking := false;
      timerActive := false;
      paused := true;
    }

    /** `reset()`. */
    method Reset()
      modifies this
      ensures State() == Rewound(old(State()))
    {
      Stop();
      remainingTime := duration;
      paused := false;
    }

    /** `update_time`; `timeUp` says whether the time-up callback is due. */
    method UpdateTime() returns (timeUp: bool)
      modifies this
      ensures (State(), timeUp) == Ticked(old(State()))
    {
      if remainingTime > 0 {
        remainingTime := remainingTime - 1;
        timeUp := false;
      } else {
        Stop();
        timeUp := true;
      }
    }
  }

  /** `PomodoroClock`: the shared application state and the timer it drives. */
  class PomodoroClock {
    const state: AppState
    const display: TimeDisplay

    /** `__init__` together with `compose`, which creates the timer. */
    constructor (state: AppState)
      ensures this.state == state && fresh(display) && display.State() == Mounted
    {
      this.state := state;
      display := new TimeDisplay();
    }

    /**
     * `update_timer_for_current_phase`: reads the current phase's duration
     * (a missing key raises before anything changes), resets the timer and
     * loads that duration without starting it. `ok` is false where the
     * source raises or the duration is not an integer.
     */
    method UpdateTimerForCurrentPhase() returns (ok: bool)
      modifies display
      ensures display.State() == PhaseLoad(old(display.State()), state.PhaseDuration())
      ensures ok <==> state.PhaseDuration().Some? && state.PhaseDuration().value.IntValue?
    {
      var v := state.PhaseDuration();
      if v.None? {
        return false;
      }
      display.Reset();
      if !v.value.IntValue? {
        return false;
      }
      display.duration := v.value.n;
      display.remainingTime := v.value.n;
      ok := true;
    }

    /** `on_mount`: loads the current phase without starting; the audio set-up is not modelled. */
    method Mount() returns (ok: bool)
      modifies display
      ensures display.State() == PhaseLoad(old(display.State()), state.PhaseDuration())
      ensures ok <==> state.PhaseDuration().Some? && state.PhaseDuration().value.IntValue?
    {
      ok := UpdateTimerForCurrentPhase();
    }

    /**
     * `on_time_up`: hands the finish sound to the player (returned here),
     * flips the phase once and loads the new phase's duration without
     * starting; `phase` is the name of the new phase.
     */
    method OnTimeUp() returns (sound: Value, phase: string, ok: bool)
      modifies state, display
      ensures sound == old(state.FinishSound())
      ensures state.isWorkPhase == !old(state.isWorkPhase) && phase == PhaseName(state.isWorkPhase)
      ensures state.config == old(state.config) && state.file == old(state.file)
      ensures state.debugMode == old(state.debugMode)
      ensures display.State() == PhaseLoad(old(display.State()), state.PhaseDuration())
      ensures ok <==> state.PhaseDuration().Some? && state.PhaseDuration().value.IntValue?
    {
      sound := state.FinishSound();
      phase := state.TogglePhase();
      ok := UpdateTimerForCurrentPhase();
    }

    /**
     * One firing of the display's interval. While it is paused nothing
     * happens; otherwise `update_time` runs and, when it reports time up, so
     * does `on_time_up`.
     */
    method Tick() returns (fired: bool)
      modifies state, display
      ensures !old(display.ticking) ==> !fired && display.State() == old(display.State())
      ensures old(display.ticking) ==> fired == Ticked(old(display.State())).1
      ensures !fired ==> state.isWorkPhase == old(state.isWorkPhase)
      ensures old(display.ticking) && !fired ==> display.State() == Ticked(old(display.State())).0
      ensures fired ==> && state.isWorkPhase == !old(state.isWorkPhase)
                        && display.State() == PhaseLoad(Ticked(old(display.State())).0, state.PhaseDuration())
      ensures state.config == old(state.config) && state.file == old(state.file)
    {
      if !display.ticking {
        return false;
      }
      fired := display.UpdateTime();
      if fired {
        var sound, phase, ok := OnTimeUp();
      }
    }

    /**
     * `on_button_pressed`: "start_stop" stops a running timer and otherwise
     * starts it without a duration (resuming a paused or a fresh timer alike);
     * "reset" resets and reloads the current phase; "toggle_phase" flips the
     * phase and loads the new one. Any other button changes nothing. `ok` is
     * false where the reload raises or finds a non-integer duration.
     */
    method OnButtonPressed(buttonId: string) returns (ok: bool)
      modifies state, display
      ensures buttonId == "start_stop" ==>
                && ok
                && display.State() == (if old(display.timerActive) then Stopped(old(display.State()))
                                       else Started(old(display.State()), None))
      ensures buttonId == "reset" ==>
                && display.State() == PhaseLoad(Rewound(old(display.State())), state.PhaseDuration())
                && (ok <==> state.PhaseDuration().Some? && state.PhaseDuration().value.IntValue?)
      ensures buttonId == "toggle_phase" ==>
                && state.isWorkPhase == !old(state.isWorkPhase)
                && display.State() == PhaseLoad(old(display.State()), state.PhaseDuration())
                && (ok <==> state.PhaseDuration().Some? && state.PhaseDuration().value.IntValue?)
      ensures buttonId != "toggle_phase" ==> state.isWorkPhase == old(state.isWorkPhase)
      ensures buttonId !in {"start_stop", "reset", "toggle_phase"} ==> ok && display.State() == old(display.State())
      ensures state.config == old(state.config) && state.file == old(state.file)
    {
      ok := true;
      if buttonId == "start_stop" {
        if display.timerActive {
          display.Stop();
        } else if display.paused {
          display.Start(None);
        } else {
          display.Start(None);
        }
      } else if buttonId == "reset" {
        display.Reset();
        ok := UpdateTimerForCurrentPhase();
      } else if buttonId == "toggle_phase" {
        var phase := state.TogglePhase();
        ok := UpdateTimerForCurrentPhase();
      }
    }
  }
}
