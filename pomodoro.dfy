/**
 * The Pomodoro timer: a countdown in one of three modes, started and stopped
 * by the user, that at zero counts a finished focus session and moves on to
 * the next mode by itself.
 *
 * `TimerState` and the `After...` functions give each operation's effect on
 * the whole timer as a value; the class `Timer` holds the same state in
 * fields and its methods update them in place, each proved to have the effect
 * its function describes. The lemmas state what the timer promises about
 * those effects.
 */
module Pomodoro {

  datatype Mode = Focus | ShortBreak | LongBreak

  /** Length of a session in each mode, in seconds (`DURATIONS`). */
  function Duration(m: Mode): (d: nat)
    ensures 0 < d && d % 60 == 0
  {
    match m
    case Focus => 25 * 60
    case ShortBreak => 5 * 60
    case LongBreak => 15 * 60
  }

  /** Minutes a finished focus session adds to the statistics. */
  const FocusMinutes: nat := Duration(Focus) / 60

  /**
   * The timer's variables: the mode, the seconds left, whether the interval
   * is installed (`timerId != null`), whether the end-of-session sound is on,
   * and the two statistics.
   */
  datatype TimerState = TimerState(
    mode: Mode,
    remaining: int,
    running: bool,
    soundEnabled: bool,
    completed: nat,
    minutes: nat)

  /** The state when the page loads. */
  const Initial: TimerState := TimerState(Focus, Duration(Focus), false, true, 0, 0)

  /**
   * What the timer keeps true between events: the minutes are those of the
   * finished focus sessions, and there is always time left, never more than
   * a full session of the current mode.
   */
  predicate Inv(s: TimerState) {
    s.minutes == FocusMinutes * s.completed && 0 < s.remaining <= Duration(s.mode)
  }

  /**
   * The mode that follows a finished session, given the statistics after it:
   * a break after focus (a long one after every fourth), focus after a break.
   */
  function NextMode(finished: Mode, completed: nat): (m: Mode)
    ensures (m == Focus) <==> (finished != Focus)
    ensures m == LongBreak <==> finished == Focus && completed % 4 == 0
  {
    if finished == Focus then
      if completed % 4 == 0 then LongBreak else ShortBreak
    else
      Focus
  }

  /** `setPomoMode(m)`: keeps the invariant and leaves the sound flag and statistics alone. */
  function AfterSetMode(s: TimerState, m: Mode): (r: TimerState)
    ensures Inv(s) ==> Inv(r)
    ensures r.soundEnabled == s.soundEnabled && r.completed == s.completed && r.minutes == s.minutes
  {
    s.(mode := m, remaining := Duration(m), running := false)
  }

  /** `resetPomo()`: keeps the invariant, the mode, the sound flag and the statistics. */
  function AfterReset(s: TimerState): (r: TimerState)
    ensures Inv(s) ==> Inv(r)
    ensures r.mode == s.mode && r.soundEnabled == s.soundEnabled
    ensures r.completed == s.completed && r.minutes == s.minutes
  {
    s.(remaining := Duration(s.mode), running := false)
  }

  /** `togglePomo()`: the running flag is the only thing that changes, and it does change. */
  function AfterToggle(s: TimerState): (r: TimerState)
    ensures r.running != s.running && r.(running := s.running) == s
  {
    s.(running := !s.running)
  }

  /**
   * `switchMode()`: turns the end-of-session sound on or off; the sound flag
   * is the only thing that changes.
   */
  function AfterSwitch(s: TimerState): (r: TimerState)
    ensures r.soundEnabled != s.soundEnabled && r.(soundEnabled := s.soundEnabled) == s
  {
    s.(soundEnabled := !s.soundEnabled)
  }

  /**
   * `tick()`: one second of the countdown. It keeps the invariant and the
   * sound flag, and counts one session exactly when it ends a focus session.
   */
  function AfterTick(s: TimerState): (r: TimerState)
    ensures Inv(s) ==> Inv(r)
    ensures r.soundEnabled == s.soundEnabled
    ensures r.completed == s.completed + (if s.mode == Focus && s.remaining <= 1 then 1 else 0)
  {
    var t := s.(remaining := s.remaining - 1);
    if t.remaining <= 0 then
      var stopped := t.(running := false);
      var counted :=
        if stopped.mode == Focus
        then stopped.(completed := stopped.completed + 1, minutes := stopped.minutes + FocusMinutes)
        else stopped;
      AfterSetMode(counted, NextMode(counted.mode, counted.completed))
    else
      t
  }

  /** Whether `tick()` plays the end-of-session sound. */
  predicate BeepsOnTick(s: TimerState) {
    s.remaining - 1 <= 0 && s.soundEnabled
  }

  /**
   * `n` firings of the one-second interval, which fires only while it is
   * installed. They keep the invariant and the sound flag, and never lower
   * the session count.
   */
  function Run(s: TimerState, n: nat): (r: TimerState)
    ensures Inv(s) ==> Inv(r)
    ensures r.soundEnabled == s.soundEnabled && r.completed >= s.completed
    decreases n
  {
    if n == 0 || !s.running then s else Run(AfterTick(s), n - 1)
  }

  lemma InitialInv()
    ensures Inv(Initial) && Initial.remaining == 1500
  {
  }

  /** Every operation keeps the invariant. */
  lemma InvPreserved(s: TimerState, m: Mode)
    requires Inv(s)
    ensures Inv(AfterTick(s))
    ensures Inv(AfterSetMode(s, m))
    ensures Inv(AfterReset(s))
    ensures Inv(AfterToggle(s))
    ensures Inv(AfterSwitch(s))
  {
  }

  /** A tick that leaves time on the clock only takes one second off it. */
  lemma TickCountsDown(s: TimerState)
    requires s.remaining > 1
    ensures AfterTick(s) == s.(remaining := s.remaining - 1)
    ensures !BeepsOnTick(s)
  {
  }

  /**
   * The tick that ends a focus session counts it (one more session, 25 more
   * minutes), stops the timer, and loads a long break when the new count is a
   * multiple of 4 and a short break otherwise, in full.
   */
  lemma TickEndsFocus(s: TimerState)
    requires s.mode == Focus && s.remaining <= 1
    ensures var t := AfterTick(s);
      t.completed == s.completed + 1 && t.minutes == s.minutes + 25
      && !t.running && t.soundEnabled == s.soundEnabled
      && (t.mode == LongBreak <==> t.completed % 4 == 0)
      && (t.mode == ShortBreak <==> t.completed % 4 != 0)
      && t.remaining == Duration(t.mode)
    ensures BeepsOnTick(s) == s.soundEnabled
  {
  }

  /**
   * The tick that ends a break leaves the statistics alone, stops the timer
   * and loads a full focus session.
   */
  lemma TickEndsBreak(s: TimerState)
    requires s.mode != Focus && s.remaining <= 1
    ensures AfterTick(s) == s.(mode := Focus, remaining := 1500, running := false)
  {
  }

  /** Toggling the timer twice, or the sound twice, changes nothing. */
  lemma TogglesInvolutive(s: TimerState)
    ensures AfterToggle(AfterToggle(s)) == s
    ensures AfterSwitch(AfterSwitch(s)) == s
    ensures AfterToggle(s) != s && AfterSwitch(s) != s
  {
  }

  /**
   * Choosing the current mode again is a reset; a second reset or a second
   * choice of mode undoes nothing the first did.
   */
  lemma ResetIsSetModeToCurrent(s: TimerState, a: Mode, b: Mode)
    ensures AfterSetMode(s, s.mode) == AfterReset(s)
    ensures AfterReset(AfterReset(s)) == AfterReset(s)
    ensures AfterSetMode(AfterSetMode(s, a), b) == AfterSetMode(s, b)
  {
  }

  /** While a running session has more than `n` seconds left, `n` seconds only count down. */
  lemma {:induction false} RunCountsDown(s: TimerState, n: nat)
    requires s.running && n < s.remaining
    ensures Run(s, n) == s.(remaining := s.remaining - n)
    decreases n
  {
    if n > 0 {
      RunCountsDown(AfterTick(s), n - 1);
    }
  }

  /**
   * A running session with `r` seconds left ends after exactly `r` seconds:
   * the state is that of its final tick, and since that tick stopped the
   * timer, no later second changes anything.
   */
  lemma {:induction false} RunEndsSession(s: TimerState, n: nat)
    requires Inv(s) && s.running && n >= s.remaining
    ensures Run(s, n) == AfterTick(s.(remaining := 1))
    ensures !Run(s, n).running
    decreases n
  {
    if s.remaining == 1 {
      assert Run(s, n) == Run(AfterTick(s), n - 1);
      assert s == s.(remaining := 1);
    } else {
      var t := AfterTick(s);
      assert t == s.(remaining := s.remaining - 1);
      RunEndsSession(t, n - 1);
      assert t.(remaining := 1) == s.(remaining := 1);
    }
  }

  /** A full focus session, started and left alone, is counted exactly once. */
  lemma FocusSessionCounted(s: TimerState)
    requires Inv(s) && s.mode == Focus && s.running
    ensures Run(s, s.remaining).completed == s.completed + 1
    ensures Run(s, s.remaining).mode != Focus
  {
    RunEndsSession(s, s.remaining);
    TickEndsFocus(s.(remaining := 1));
  }

  class Timer {
    var mode: Mode
    var remaining: int
    /** Stands for `timerId != null`: the one-second interval is installed. */
    var running: bool
    var soundEnabled: bool
    var completed: nat
    var minutes: nat

    function State(): (s: TimerState)
      reads this
    {
      TimerState(mode, remaining, running, soundEnabled, completed, minutes)
    }

    ghost predicate Valid()
      reads this
    {
      Inv(State())
    }

    constructor ()
      ensures State() == Initial && Valid()
    {
      mode := Focus;
      remaining := Duration(Focus);
      running := false;
      soundEnabled := true;
      completed := 0;
      minutes := 0;
    }

    /**
     * `setPomoMode(m)`. `tick` calls it halfway through its own update, so
     * it does not ask for the invariant; it keeps it when it had it.
     */
    method SetPomoMode(m: Mode)
      modifies this
      ensures State() == AfterSetMode(old(State()), m)
      ensures old(Valid()) ==> Valid()
    {
      running := false;
      mode := m;
      remaining := Duration(mode);
    }

    /** `tick()`; `beep` says whether it played the end-of-session sound. */
    method Tick() returns (beep: bool)
      requires Valid()
      modifies this
      ensures Valid()
      ensures State() == AfterTick(old(State()))
      ensures beep == BeepsOnTick(old(State()))
    {
      ghost var s := State();
      remaining := remaining - 1;
      beep := false;
      if remaining <= 0 {
        running := false;
        if soundEnabled {
          beep := true;
        }
        if mode == Focus {
          completed := completed + 1;
          minutes := minutes + Duration(Focus) / 60;
        }
        if mode == Focus {
          if completed % 4 == 0 {
            SetPomoMode(LongBreak);
          } else {
            SetPomoMode(ShortBreak);
          }
        } else {
          SetPomoMode(Focus);
        }
      }
      InvPreserved(s, mode);
    }

    /** `togglePomo()`: installs the interval when there is none, removes it otherwise. */
    method TogglePomo()
      requires Valid()
      modifies this
      ensures Valid()
      ensures State() == AfterToggle(old(State()))
    {
      if running {
        running := false;
      } else {
        running := true;
      }
    }

    /** `resetPomo()`. */
    method ResetPomo()
      requires Valid()
      modifies this
      ensures Valid()
      ensures State() == AfterReset(old(State()))
    {
      running := false;
      remaining := Duration(mode);
    }

    /** `switchMode()`. */
    method SwitchMode()
      requires Valid()
      modifies this
      ensures Valid()
      ensures State() == AfterSwitch(old(State()))
    {
      soundEnabled := !soundEnabled;
    }
  }
}
