/**
 * The focus timer (`currentSession`): a Focus/Break countdown that is
 * either running or paused. Each transition is first a function on a
 * session value that also says which focus-log entry, if any, it emits;
 * the `FocusTimer` class then assigns its fields step by step as the
 * source does and is proved to agree with those functions. The browser's
 * one-second interval is modelled by calling `Tick` once per second.
 */
module Timer {
  import opened Common
  import opened FocusLog
  import opened TimerDisplay
  import Dashboard

  datatype Session = Session(
    kind: SessionType,
    focusMinutes: nat,
    breakMinutes: nat,
    remainingSeconds: int,
    running: bool)

  /** A transition's new session and the minutes it logs, if any. */
  datatype Step = Step(next: Session, logged: Option<nat>)

  /** Length in seconds of a session of the given kind. */
  function Length(s: Session, kind: SessionType): nat
  {
    if kind == Focus then s.focusMinutes * 60 else s.breakMinutes * 60
  }

  /** The session the page starts with: 25-minute focus, 5-minute break, paused. */
  function Initial(): (s: Session)
    ensures s.kind == Focus && !s.running
    ensures s.focusMinutes == 25 && s.breakMinutes == 5
    ensures s.remainingSeconds == Length(s, Focus)
  {
    Session(Focus, 25, 5, 25 * 60, false)
  }

  /** The session invariant: the countdown lies between zero and its session's length. */
  predicate InRange(s: Session)
  {
    0 <= s.remainingSeconds <= Length(s, s.kind)
  }

  /** `switchSession`: the new kind, with a full countdown for it. */
  function Switched(s: Session, next: SessionType): (r: Session)
    ensures r.kind == next && r.remainingSeconds == Length(s, next)
    ensures r.running == s.running
    ensures r.focusMinutes == s.focusMinutes && r.breakMinutes == s.breakMinutes
    ensures InRange(r)
  {
    s.(kind := next, remainingSeconds := Length(s, next))
  }

  /** `tick`. */
  function TickStep(s: Session): (st: Step)
    ensures !s.running ==> st == Step(s, None)
    ensures s.running && s.remainingSeconds > 1 ==>
      st == Step(s.(remainingSeconds := s.remainingSeconds - 1), None)
    ensures s.running && s.remainingSeconds <= 1 ==>
      && !st.next.running
      && st.next.kind != s.kind
      && st.next.remainingSeconds == Length(s, st.next.kind)
      && st.logged == (if s.kind == Focus then Some(s.focusMinutes) else None)
    ensures st.next.focusMinutes == s.focusMinutes && st.next.breakMinutes == s.breakMinutes
  {
    if !s.running then Step(s, None)
    else
      var counted := s.(remainingSeconds := s.remainingSeconds - 1);
      if counted.remainingSeconds > 0 then Step(counted, None)
      else
        var stopped := counted.(running := false);
        if s.kind == Focus then Step(Switched(stopped, Break), Some(s.focusMinutes))
        else Step(Switched(stopped, Focus), None)
  }

  /** `startTimer`: the start/pause toggle flips `running` and nothing else. */
  function StartStep(s: Session): (r: Session)
    ensures r.running != s.running
    ensures r.(running := s.running) == s
  {
    s.(running := !s.running)
  }

  /** `resetTimer`: a paused focus session with a full countdown; nothing is logged. */
  function ResetStep(s: Session): (r: Session)
    ensures r.kind == Focus && !r.running && r.remainingSeconds == s.focusMinutes * 60
    ensures r.focusMinutes == s.focusMinutes && r.breakMinutes == s.breakMinutes
    ensures InRange(r)
  {
    s.(running := false, remainingSeconds := s.focusMinutes * 60, kind := Focus)
  }

  /** Whole minutes elapsed in the current focus session, rounded down. */
  function ElapsedMinutes(s: Session): (m: int)
    ensures 60 * m <= s.focusMinutes * 60 - s.remainingSeconds < 60 * (m + 1)
  {
    (s.focusMinutes * 60 - s.remainingSeconds) / 60
  }

  /**
   * `stopTimer`: a no-op while paused; otherwise it logs the whole minutes
   * elapsed in a focus session (when there is at least one) and resets.
   */
  function StopStep(s: Session): (st: Step)
    ensures !s.running ==> st == Step(s, None)
    ensures s.running ==> st.next == ResetStep(s)
    ensures st.logged.Some? <==> s.running && s.kind == Focus && ElapsedMinutes(s) > 0
    ensures st.logged.Some? ==> st.logged.value == ElapsedMinutes(s)
  {
    if !s.running then Step(s, None)
    else
      var logged := if s.kind == Focus && ElapsedMinutes(s) > 0 then Some(ElapsedMinutes(s) as nat) else None;
      Step(ResetStep(s), logged)
  }

  /** The preset buttons: set both lengths, then reset. */
  function PresetStep(s: Session, focusMinutes: nat, breakMinutes: nat): (r: Session)
    ensures r.focusMinutes == focusMinutes && r.breakMinutes == breakMinutes
    ensures r.kind == Focus && !r.running && r.remainingSeconds == focusMinutes * 60
  {
    ResetStep(s.(focusMinutes := focusMinutes, breakMinutes := breakMinutes))
  }

  /** Every transition keeps the countdown within its session's length. */
  lemma TransitionsKeepInRange(s: Session, focusMinutes: nat, breakMinutes: nat)
    requires InRange(s)
    ensures InRange(TickStep(s).next)
    ensures InRange(StartStep(s))
    ensures InRange(StopStep(s).next)
    ensures InRange(PresetStep(s, focusMinutes, breakMinutes))
  {
  }

  /** A stop never logs more minutes than the focus session is long. */
  lemma StopLogsAtMostSessionLength(s: Session)
    requires InRange(s)
    ensures StopStep(s).logged.Some? ==> StopStep(s).logged.value <= s.focusMinutes
  {
    if StopStep(s).logged.Some? {
      var m := ElapsedMinutes(s);
      assert 60 * m <= 60 * s.focusMinutes;
    }
  }

  /** The display of a countdown in range reads back as that countdown. */
  lemma DisplayReadsBack(s: Session)
    requires InRange(s)
    ensures ParseClock(FormatTime(s.remainingSeconds)) == Some(s.remainingSeconds)
  {
    FormatTimeRoundTrip(s.remainingSeconds);
  }

  // ---------------------------------------------------------------------
  // Runs of ticks

  /** The final session after some ticks, and the minutes logged on the way. */
  datatype Run = Run(final: Session, logged: seq<nat>)

  function Entries(logged: Option<nat>): seq<nat>
  {
    if logged.Some? then [logged.value] else []
  }

  /** `n` consecutive calls of `tick`. */
  function RunTicks(s: Session, n: nat): (r: Run)
    ensures r.final.focusMinutes == s.focusMinutes && r.final.breakMinutes == s.breakMinutes
    ensures |r.logged| <= n
    ensures forall m :: m in r.logged ==> m == s.focusMinutes
    ensures InRange(s) ==> InRange(r.final)
    decreases n
  {
    if n == 0 then Run(s, [])
    else
      var st := TickStep(s);
      var rest := RunTicks(st.next, n - 1);
      Run(rest.final, Entries(st.logged) + rest.logged)
  }

  /** Ticks split at any point: the second part starts where the first ended. */
  lemma {:induction false} RunTicksSplit(s: Session, a: nat, b: nat)
    ensures RunTicks(s, a + b) ==
      Run(RunTicks(RunTicks(s, a).final, b).final,
          RunTicks(s, a).logged + RunTicks(RunTicks(s, a).final, b).logged)
    decreases a
  {
    if a > 0 {
      var st := TickStep(s);
      var head := Entries(st.logged);
      RunTicksSplit(st.next, a - 1, b);
      var first := RunTicks(st.next, a - 1);
      var second := RunTicks(first.final, b);
      assert RunTicks(s, a) == Run(first.final, head + first.logged);
      assert a + b - 1 == (a - 1) + b;
      assert RunTicks(s, a + b) == Run(second.final, head + (first.logged + second.logged));
      assert head + (first.logged + second.logged) == (head + first.logged) + second.logged;
    }
  }

  /** A paused timer ignores ticks. */
  lemma {:induction false} PausedIgnoresTicks(s: Session, n: nat)
    requires !s.running
    ensures RunTicks(s, n) == Run(s, [])
  {
    if n > 0 {
      PausedIgnoresTicks(s, n - 1);
    }
  }

  /** Fewer ticks than the countdown shows only count down, and log nothing. */
  lemma {:induction false} CountingDown(s: Session, k: nat)
    requires s.running && k < s.remainingSeconds
    ensures RunTicks(s, k) == Run(s.(remainingSeconds := s.remainingSeconds - k), [])
    decreases k
  {
    if k > 0 {
      var next := s.(remainingSeconds := s.remainingSeconds - 1);
      assert TickStep(s).next == next;
      CountingDown(next, k - 1);
    }
  }

  /**
   * Running a focus countdown to the end logs the configured minutes exactly
   * once and leaves a paused break with its full countdown.
   */
  lemma {:induction false} FocusRunsOut(s: Session)
    requires s.running && s.kind == Focus && s.remainingSeconds >= 1
    ensures RunTicks(s, s.remainingSeconds as nat) ==
      Run(Session(Break, s.focusMinutes, s.breakMinutes, s.breakMinutes * 60, false), [s.focusMinutes])
  {
    var r := s.remainingSeconds as nat;
    CountingDown(s, r - 1);
    var last := s.(remainingSeconds := 1);
    RunTicksSplit(s, r - 1, 1);
    assert RunTicks(last, 1).logged == [s.focusMinutes];
  }

  /**
   * A full focus session of `m` minutes, started running: `m * 60` ticks
   * log one entry of `m` minutes and switch to a paused break; further
   * ticks change nothing.
   */
  lemma FullFocusSession(m: nat, b: nat, extra: nat)
    requires m >= 1
    ensures RunTicks(Session(Focus, m, b, m * 60, true), m * 60 + extra) ==
      Run(Session(Break, m, b, b * 60, false), [m])
  {
    var s := Session(Focus, m, b, m * 60, true);
    FocusRunsOut(s);
    RunTicksSplit(s, m * 60, extra);
    PausedIgnoresTicks(Session(Break, m, b, b * 60, false), extra);
  }

  /** With the default 25 minutes: start, then 1500 ticks, log one 25-minute entry. */
  lemma DefaultSessionCompletes()
    ensures RunTicks(StartStep(Initial()), 1500) == Run(Session(Break, 25, 5, 300, false), [25])
  {
    FullFocusSession(25, 5, 0);
  }

  /**
   * Stopping a running focus session after `k` ticks logs the whole minutes
   * elapsed, if any, and leaves a fresh paused focus session.
   */
  lemma StopAfterTicks(m: nat, b: nat, k: nat)
    requires k < m * 60
    ensures var run := RunTicks(Session(Focus, m, b, m * 60, true), k);
      && run.logged == []
      && StopStep(run.final) ==
         Step(Session(Focus, m, b, m * 60, false), if k / 60 > 0 then Some(k / 60) else None)
  {
    CountingDown(Session(Focus, m, b, m * 60, true), k);
  }

  /** Ninety seconds into a 25-minute session, stopping logs one minute. */
  lemma StopAfterNinetySeconds()
    ensures StopStep(RunTicks(Session(Focus, 25, 5, 1500, true), 90).final).logged == Some(1)
  {
    StopAfterTicks(25, 5, 90);
  }

  /** Resetting twice is resetting once; a preset is a reset with the new lengths. */
  lemma ResetIdempotent(s: Session, focusMinutes: nat, breakMinutes: nat)
    ensures ResetStep(ResetStep(s)) == ResetStep(s)
    ensures PresetStep(s, focusMinutes, breakMinutes) ==
      ResetStep(s.(focusMinutes := focusMinutes, breakMinutes := breakMinutes))
    ensures StartStep(StartStep(s)) == s
  {
  }

  // ---------------------------------------------------------------------
  // The timer object

  class FocusTimer {
    var kind: SessionType
    var focusMinutes: nat
    var breakMinutes: nat
    var remainingSeconds: int
    var running: bool

    function Current(): Session
      reads this
    {
      Session(kind, focusMinutes, breakMinutes, remainingSeconds, running)
    }

    constructor ()
      ensures Current() == Initial() && InRange(Current())
    {
      kind := Focus;
      focusMinutes := 25;
      breakMinutes := 5;
      remainingSeconds := 25 * 60;
      running := false;
    }

    method SwitchSession(next: SessionType)
      modifies this
      ensures Current() == Switched(old(Current()), next)
    {
      kind := next;
      remainingSeconds := if next == Focus then focusMinutes * 60 else breakMinutes * 60;
    }

    /** `tick`: count down one second; at zero, stop, log a finished focus session and switch. */
    method Tick(state: Dashboard.State, today: Day)
      modifies this, state`focusLogs
      ensures Current() == TickStep(old(Current())).next
      ensures state.focusLogs == Emit(old(state.focusLogs), today, TickStep(old(Current())).logged)
      ensures InRange(old(Current())) ==> InRange(Current())
    {
      if !running {
        return;
      }
      remainingSeconds := remainingSeconds - 1;
      if remainingSeconds <= 0 {
        running := false;
        if kind == Focus {
          state.LogFocusSession(focusMinutes, today);
          SwitchSession(Break);
        } else {
          SwitchSession(Focus);
        }
      }
    }

    /** `startTimer`: pause a running timer, start a paused one. */
    method StartTimer()
      modifies this
      ensures Current() == StartStep(old(Current()))
    {
      if running {
        running := false;
      } else {
        running := true;
      }
    }

    method ResetTimer()
      modifies this
      ensures Current() == ResetStep(old(Current()))
    {
      running := false;
      remainingSeconds := focusMinutes * 60;
      kind := Focus;
    }

    /** `stopTimer`: log the elapsed whole minutes of a running focus session, then reset. */
    method StopTimer(state: Dashboard.State, today: Day)
      modifies this, state`focusLogs
      ensures Current() == StopStep(old(Current())).next
      ensures state.focusLogs == Emit(old(state.focusLogs), today, StopStep(old(Current())).logged)
    {
      if !running {
        return;
      }
      running := false;
      if kind == Focus {
        var totalSeconds := focusMinutes * 60;
        var elapsedSeconds := totalSeconds - remainingSeconds;
        var elapsedMinutes := elapsedSeconds / 60;
        if elapsedMinutes > 0 {
          state.LogFocusSession(elapsedMinutes, today);
        }
      }
      remainingSeconds := focusMinutes * 60;
      kind := Focus;
    }

    /** A preset button: set both lengths, then `resetTimer`. */
    method ApplyPreset(newFocusMinutes: nat, newBreakMinutes: nat)
      modifies this
      ensures Current() == PresetStep(old(Current()), newFocusMinutes, newBreakMinutes)
    {
      focusMinutes := newFocusMinutes;
      breakMinutes := newBreakMinutes;
      ResetTimer();
    }
  }
}
