/** The controller in firmware/main.py: two modes, a four-state FSM without the
    NOTIFY -> PAUSE edge, countdown progress kept across PAUSE, and JSON events
    (`state_changed`, `timer_expired`) written on every transition and expiry.

    The module-level variables of the script are the fields of `Device`; the
    datatype `Globals` is a snapshot of them, and the `...Step` functions say
    what each operation does to a snapshot. Every method of `Device` is proved
    to move its fields exactly as the matching step function says. */
module Firmware {
  import opened Common
  import opened Text

  datatype Mode = Dev | Game

  function ModeName(m: Mode): string
  {
    match m
    case Dev => "DEV"
    case Game => "GAME"
  }

  /** Membership in the MODES list: only the exact upper-case names count. */
  function ModeOf(name: string): (r: Option<Mode>)
    ensures r.Some? ==> ModeName(r.value) == name
    ensures forall m: Mode :: ModeName(m) == name ==> r == Some(m)
  {
    if name == "DEV" then Some(Dev)
    else if name == "GAME" then Some(Game)
    else None
  }

  /** `timer_minutes` of the configuration table: a positive number of minutes. */
  function Minutes(m: Mode): (minutes: nat)
    ensures minutes > 0
  {
    match m
    case Dev => 25
    case Game => 45
  }

  /** `colors` of the configuration table: the pixel is dark exactly when the
      device is IDLE. */
  function Color(m: Mode, s: State): (c: Rgb)
    ensures c == Off <==> s == Idle
  {
    match (m, s)
    case (Dev, Idle) => (0, 0, 0)
    case (Dev, Active) => (100, 0, 0)
    case (Dev, Notify) => (100, 255, 0)
    case (Dev, Pause) => (0, 0, 50)
    case (Game, Idle) => (0, 0, 0)
    case (Game, Active) => (0, 100, 100)
    case (Game, Notify) => (0, 255, 0)
    case (Game, Pause) => (0, 0, 50)
  }

  /** The `valid_transitions` table of `set_state`: no state lists itself,
      and every state but IDLE lists IDLE. */
  function Successors(s: State): (r: seq<State>)
    ensures s !in r
    ensures Idle in r <==> s != Idle
  {
    match s
    case Idle => [Active]
    case Active => [Pause, Notify, Idle]
    case Pause => [Active, Idle]
    case Notify => [Idle]
  }

  predicate Allowed(from: State, to: State)
  {
    to in Successors(from)
  }

  /** The asynchronous JSON events the controller prints. */
  datatype Event = StateChanged(state: State, mode: Mode) | TimerExpired(mode: Mode)

  /** The record `get_status` returns. */
  datatype Status = Status(mode: Mode, state: State, timerRemaining: int)

  /** A snapshot of the module-level variables, with the colour last written to
      the pixel and the events printed so far. */
  datatype Globals = Globals(
    mode: Mode,
    state: State,
    timerStart: int,
    timerDuration: int,
    elapsedBeforePause: int,
    fadeStart: int,
    led: Rgb,
    events: seq<Event>)

  /** The values the script starts with. */
  const Initial: Globals := Globals(Dev, Idle, 0, 0, 0, 0, Off, [])

  /** What holds of every snapshot the operations can reach, given that the
      wall clock has not gone back past `clock`, the last time it was read. */
  predicate Inv(g: Globals, clock: int)
  {
    && (g.state == Idle ==> g.timerStart == 0 && g.timerDuration == 0 && g.elapsedBeforePause == 0)
    && (g.state == Active ==>
          g.elapsedBeforePause == 0 && g.timerDuration == Minutes(g.mode) * 60 && g.timerStart <= clock)
    && (g.state == Notify ==> g.elapsedBeforePause == 0 && g.timerDuration == Minutes(g.mode) * 60)
    && (g.state == Pause ==> g.elapsedBeforePause >= 0 && g.timerDuration == Minutes(g.mode) * 60)
  }

  /** `set_mode`: refused outside IDLE and for unknown names; otherwise selects
      the mode and repaints the pixel. */
  function SetModeStep(g: Globals, name: string): (r: (Globals, bool))
    ensures r.1 <==> g.state == Idle && ModeOf(name).Some?
    ensures !r.1 ==> r.0 == g
    ensures r.1 ==> r.0.mode == ModeOf(name).value && r.0.led == Color(r.0.mode, Idle)
    ensures r.0.state == g.state && r.0.fadeStart == g.fadeStart && r.0.events == g.events
    ensures r.0.timerStart == g.timerStart && r.0.timerDuration == g.timerDuration
    ensures r.0.elapsedBeforePause == g.elapsedBeforePause
  {
    if g.state != Idle then (g, false)
    else
      match ModeOf(name)
      case None => (g, false)
      case Some(m) => (g.(mode := m, led := Color(m, g.state)), true)
  }

  /** The timer side effects of entering `target` at wall-clock time `now`:
      only the three timer fields change. */
  function EnterTimers(g: Globals, target: State, now: int): (r: Globals)
    ensures r.mode == g.mode && r.state == g.state && r.fadeStart == g.fadeStart
    ensures r.led == g.led && r.events == g.events
    ensures target == Notify ==> r == g
  {
    match target
    case Active =>
      if g.elapsedBeforePause > 0 then
        g.(timerStart := now - g.elapsedBeforePause, elapsedBeforePause := 0)
      else
        g.(timerStart := now, timerDuration := Minutes(g.mode) * 60)
    case Pause =>
      if g.timerStart > 0 && g.timerDuration > 0 then
        g.(elapsedBeforePause := now - g.timerStart)
      else g
    case Idle => g.(timerStart := 0, timerDuration := 0, elapsedBeforePause := 0)
    case Notify => g
  }

  /** `set_state`: a validated FSM transition, its timer side effects, the
      repaint and the `state_changed` event. */
  function SetStateStep(g: Globals, name: string, now: int): (r: (Globals, bool))
    ensures r.1 <==> StateOf(name).Some? && Allowed(g.state, StateOf(name).value)
    ensures !r.1 ==> r.0 == g
    ensures r.1 ==>
      && r.0.state == StateOf(name).value
      && r.0.mode == g.mode
      && r.0.fadeStart == g.fadeStart
      && r.0.led == Color(g.mode, r.0.state)
      && r.0.events == g.events + [StateChanged(r.0.state, g.mode)]
  {
    match StateOf(name)
    case None => (g, false)
    case Some(t) =>
      if !Allowed(g.state, t) then (g, false)
      else
        var h := EnterTimers(g.(state := t), t, now);
        (h.(led := Color(h.mode, t), events := h.events + [StateChanged(t, h.mode)]), true)
  }

  /** `check_timer`: the expiry test and the forced ACTIVE -> NOTIFY move. */
  function CheckTimerStep(g: Globals, now: int): (r: (Globals, bool))
    ensures r.1 <==> g.state == Active && g.timerDuration > 0 && now - g.timerStart >= g.timerDuration
    ensures !r.1 ==> r.0 == g
    ensures r.1 ==>
      && r.0.state == Notify
      && r.0.mode == g.mode
      && r.0.led == Color(g.mode, Notify)
      && r.0.timerStart == g.timerStart
      && r.0.timerDuration == g.timerDuration
      && r.0.elapsedBeforePause == g.elapsedBeforePause
      && r.0.fadeStart == g.fadeStart
      && r.0.events == g.events + [StateChanged(Notify, g.mode), TimerExpired(g.mode)]
  {
    if g.state == Active && g.timerDuration > 0 && now - g.timerStart >= g.timerDuration then
      var h := SetStateStep(g, "NOTIFY", now).0;
      (h.(events := h.events + [TimerExpired(h.mode)]), true)
    else (g, false)
  }

  /** `blink_notify` at tick count `ticks`. `fade` stands for the
      floating-point brightness scaling: it maps the NOTIFY base colour and
      the cycle phase to the colour written. */
  function BlinkStep(g: Globals, ticks: int, fade: (Rgb, int) -> Rgb): (r: Globals)
    ensures r.mode == g.mode && r.state == g.state && r.events == g.events
    ensures r.timerStart == g.timerStart && r.timerDuration == g.timerDuration
    ensures r.elapsedBeforePause == g.elapsedBeforePause
    ensures g.state != Notify ==> r.fadeStart == 0 && r.led == g.led
    ensures g.state == Notify && g.fadeStart != 0 ==> r.fadeStart == g.fadeStart
    ensures g.state == Notify && g.fadeStart == 0 ==> r.fadeStart == ticks
    ensures g.state == Notify ==> r.led == fade(Color(g.mode, Notify), CyclePhase(ticks, r.fadeStart))
  {
    if g.state == Notify then
      var start := if g.fadeStart == 0 then ticks else g.fadeStart;
      g.(fadeStart := start, led := fade(Color(g.mode, Notify), CyclePhase(ticks, start)))
    else
      g.(fadeStart := 0)
  }

  /** `get_status` at wall-clock time `now`. */
  function StatusOf(g: Globals, now: int): (r: Status)
    ensures r.mode == g.mode && r.state == g.state
    ensures g.state == Idle || g.state == Notify ==> r.timerRemaining == 0
    ensures g.state == Pause && g.elapsedBeforePause > 0 ==>
      r.timerRemaining == g.timerDuration - g.elapsedBeforePause
    ensures g.state == Active && g.timerDuration > 0 ==>
      r.timerRemaining + (now - g.timerStart) == g.timerDuration
  {
    var remaining :=
      if g.state == Active && g.timerDuration > 0 then g.timerDuration - (now - g.timerStart)
      else if g.state == Pause && g.elapsedBeforePause > 0 then g.timerDuration - g.elapsedBeforePause
      else 0;
    Status(g.mode, g.state, remaining)
  }

  // ---------------------------------------------------------------------------
  // Properties of the transitions

  /** From NOTIFY the only way out is IDLE; IDLE is reachable from every other
      state, and IDLE -> IDLE is not an edge. */
  lemma TransitionTable()
    ensures forall t :: Allowed(Notify, t) <==> t == Idle
    ensures forall t :: Allowed(Idle, t) <==> t == Active
    ensures forall s :: Allowed(s, Idle) <==> s != Idle
  {
  }

  /** Entering IDLE, from whatever state, clears all three timer fields. */
  lemma EnterIdleClears(g: Globals, now: int)
    requires g.state != Idle
    ensures var r := SetStateStep(g, "IDLE", now);
      r.1 && r.0.timerStart == 0 && r.0.timerDuration == 0 && r.0.elapsedBeforePause == 0
  {
  }

  /** Entering PAUSE records the progress of a running timer and leaves the
      timer's anchor and duration as they were. */
  lemma EnterPauseRecords(g: Globals, now: int)
    requires g.state == Active
    ensures var r := SetStateStep(g, "PAUSE", now);
      && r.1
      && r.0.timerStart == g.timerStart && r.0.timerDuration == g.timerDuration
      && r.0.elapsedBeforePause ==
           if g.timerStart > 0 && g.timerDuration > 0 then now - g.timerStart else g.elapsedBeforePause
  {
  }

  /** Entering ACTIVE resumes saved progress when there is some, and starts a
      fresh countdown of `Minutes(mode)` minutes otherwise. */
  lemma EnterActive(g: Globals, now: int)
    requires g.state == Idle || g.state == Pause
    ensures var r := SetStateStep(g, "ACTIVE", now);
      && r.1
      && (g.elapsedBeforePause > 0 ==>
            r.0.timerStart == now - g.elapsedBeforePause && r.0.timerDuration == g.timerDuration
            && r.0.elapsedBeforePause == 0)
      && (g.elapsedBeforePause <= 0 ==>
            r.0.timerStart == now && r.0.timerDuration == Minutes(g.mode) * 60)
  {
  }

  /** Pausing a running timer keeps the remaining time it reports: PAUSE
      reports, at any later time, what ACTIVE reported at the moment of
      pausing. */
  lemma PauseKeepsRemaining(g: Globals, t: int, later: int)
    requires g.state == Active && g.timerStart > 0 && g.timerDuration > 0 && t > g.timerStart
    ensures var p := SetStateStep(g, "PAUSE", t);
      && p.1 && p.0.elapsedBeforePause > 0
      && StatusOf(p.0, later).timerRemaining == StatusOf(g, t).timerRemaining
  {
  }

  /** Resuming saved progress at any time reports the same remaining time as
      PAUSE did. */
  lemma ResumeKeepsRemaining(p: Globals, t: int)
    requires p.state == Pause && p.elapsedBeforePause > 0 && p.timerDuration > 0
    ensures var a := SetStateStep(p, "ACTIVE", t);
      && a.1 && a.0.elapsedBeforePause == 0
      && StatusOf(a.0, t).timerRemaining == StatusOf(p, t).timerRemaining
  {
  }

  /** A pause in the very second the countdown started saves no progress,
      so PAUSE reports 0 remaining time rather than the full duration. */
  lemma PauseInStartSecondReportsZero(g: Globals, later: int)
    requires g.state == Active && g.timerStart > 0 && g.timerDuration > 0
    ensures var p := SetStateStep(g, "PAUSE", g.timerStart);
      p.1 && p.0.elapsedBeforePause == 0 && StatusOf(p.0, later).timerRemaining == 0
  {
  }

  /** A countdown started at wall-clock time 0 counts as no timer for the
      `timer_start > 0` guard of PAUSE: pausing saves no progress, and the
      resume restarts the full duration, however long it had run. */
  lemma StartAtZeroSavesNothing(g: Globals, clock: int, t1: int, t2: int)
    requires Inv(g, clock) && g.state == Active && g.timerStart == 0
    ensures var p := SetStateStep(g, "PAUSE", t1);
      var a := SetStateStep(p.0, "ACTIVE", t2);
      && p.1 && p.0.elapsedBeforePause == 0 && StatusOf(p.0, t1).timerRemaining == 0
      && a.1 && StatusOf(a.0, t2).timerRemaining == Minutes(g.mode) * 60
  {
  }

  /** Entering NOTIFY, whether by command or by expiry, leaves all three
      timer fields as they were. */
  lemma EnterNotifyKeepsTimers(g: Globals, now: int)
    requires g.state == Active
    ensures var r := SetStateStep(g, "NOTIFY", now);
      && r.1
      && r.0.timerStart == g.timerStart && r.0.timerDuration == g.timerDuration
      && r.0.elapsedBeforePause == g.elapsedBeforePause
  {
  }

  /** The round trip ACTIVE -> PAUSE -> ACTIVE: right after resuming at `t2`
      the device reports the remaining time it reported when paused at `t1`.
      A pause in the start second saves no progress, but then the resume
      restarts the full duration, which is what ACTIVE reported. */
  lemma PauseResumeRoundTrip(g: Globals, clock: int, t1: int, t2: int)
    requires Inv(g, clock) && g.state == Active && g.timerStart > 0 && t1 >= g.timerStart
    ensures var p := SetStateStep(g, "PAUSE", t1);
      var a := SetStateStep(p.0, "ACTIVE", t2);
      p.1 && a.1 && StatusOf(a.0, t2).timerRemaining == StatusOf(g, t1).timerRemaining
  {
    if t1 > g.timerStart {
      PauseKeepsRemaining(g, t1, t2);
      ResumeKeepsRemaining(SetStateStep(g, "PAUSE", t1).0, t2);
    }
  }

  /** Progress saved as exactly 0 (a pause in the same second the countdown
      started, or with no timer running) restarts the whole countdown. */
  lemma ResumeWithoutProgressRestarts(p: Globals, clock: int, t: int)
    requires Inv(p, clock) && p.state == Pause && p.elapsedBeforePause == 0
    ensures var a := SetStateStep(p, "ACTIVE", t);
      a.1 && StatusOf(a.0, t).timerRemaining == Minutes(p.mode) * 60
  {
  }

  /** A DEV countdown started at time 0 has not expired at 1499 s and expires
      at 1500 s (25 minutes). */
  lemma ExpiryThreshold()
    ensures var a := SetStateStep(Initial, "ACTIVE", 0).0;
      && !CheckTimerStep(a, 1499).1
      && CheckTimerStep(a, 1500).1 && CheckTimerStep(a, 1500).0.state == Notify
  {
    var a := SetStateStep(Initial, "ACTIVE", 0).0;
    assert a.timerStart == 0 && a.timerDuration == 1500;
  }

  /** The boot-time call `set_state(STATE_IDLE)` is refused, because IDLE ->
      IDLE is not an edge: it neither paints the pixel nor prints an event. */
  lemma BootResetIsRefused(now: int)
    ensures SetStateStep(Initial, "IDLE", now) == (Initial, false)
  {
  }

  /** Within one mode the four states show four different colours, so the
      pixel tells the state apart. */
  lemma ColorsDistinct(m: Mode, s: State, t: State)
    requires s != t
    ensures Color(m, s) != Color(m, t)
  {
  }

  /** Outside NOTIFY the animation step only resets `fade_start`, so repeating
      it changes nothing more. */
  lemma BlinkIdempotentOutsideNotify(g: Globals, t1: int, t2: int, fade: (Rgb, int) -> Rgb)
    requires g.state != Notify
    ensures BlinkStep(BlinkStep(g, t1, fade), t2, fade) == BlinkStep(g, t1, fade)
  {
  }

  /** An animation step outside NOTIFY, then the expiry, then an animation step
      at any tick count: the fade starts again at phase 0. */
  lemma ExpiryRestartsFade(g: Globals, t0: int, now: int, ticks: int, fade: (Rgb, int) -> Rgb)
    requires CheckTimerStep(BlinkStep(g, t0, fade), now).1
    ensures var n := CheckTimerStep(BlinkStep(g, t0, fade), now).0;
      BlinkStep(n, ticks, fade).led == fade(Color(g.mode, Notify), 0)
  {
    var b := BlinkStep(g, t0, fade);
    assert b.fadeStart == 0;
  }

  // ---------------------------------------------------------------------------
  // The serial command dispatcher

  /** A request line after JSON decoding: a blank line, a line that is not
      JSON, or an object whose missing keys default to the empty string. */
  datatype Input = Blank | NotJson | Request(action: string, mode: string, state: string)

  /** The JSON response objects. */
  datatype Reply =
    | ModeReply(ok: bool, mode: Mode)
    | InvalidMode(name: string)
    | StateOk(state: State)
    | InvalidTransition
    | InvalidState(name: string)
    | StatusData(status: Status)
    | UnknownAction(action: string)
    | InvalidJson

  /** The replies that report a change that happened. */
  predicate Succeeded(reply: Reply)
  {
    (reply.ModeReply? && reply.ok) || reply.StateOk?
  }

  /** The dispatch branches of `handle_serial_command`. */
  function HandleStep(g: Globals, input: Input, now: int): (r: (Globals, Option<Reply>))
    ensures r.1 == None <==> input == Blank
    ensures r.0 != g ==> r.1.Some? && Succeeded(r.1.value)
    ensures input.Request? && Upper(input.action) == "SET_STATE" ==>
      (r.1 == Some(InvalidTransition) <==>
         StateOf(Upper(input.state)).Some? && !Allowed(g.state, StateOf(Upper(input.state)).value))
    ensures input.Request? && Upper(input.action) == "SET_MODE" && ModeOf(Upper(input.mode)).Some? ==>
      r.1 == Some(ModeReply(g.state == Idle, ModeOf(Upper(input.mode)).value))
    ensures input.Request? && Upper(input.action) == "SET_MODE" && ModeOf(Upper(input.mode)).None? ==>
      r == (g, Some(InvalidMode(Upper(input.mode))))
    ensures input.Request? && Upper(input.action) == "SET_STATE" && StateOf(Upper(input.state)).None? ==>
      r == (g, Some(InvalidState(Upper(input.state))))
    ensures input.Request? ==>
      (r.1.value.UnknownAction? <==> Upper(input.action) !in ["SET_MODE", "SET_STATE", "GET_STATUS"])
    ensures input == NotJson ==> r == (g, Some(InvalidJson))
    ensures input.Request? && Upper(input.action) == "SET_MODE" ==>
      r.0 == SetModeStep(g, Upper(input.mode)).0
    ensures input.Request? && Upper(input.action) == "SET_STATE" && StateOf(Upper(input.state)).Some?
              && Allowed(g.state, StateOf(Upper(input.state)).value) ==>
      r == (SetStateStep(g, Upper(input.state), now).0, Some(StateOk(StateOf(Upper(input.state)).value)))
    ensures input.Request? && Upper(input.action) == "GET_STATUS" ==>
      r == (g, Some(StatusData(StatusOf(g, now))))
  {
    match input
    case Blank => (g, None)
    case NotJson => (g, Some(InvalidJson))
    case Request(action, mode, state) => Dispatch(g, Upper(action), Upper(mode), Upper(state), now)
  }

  /** The branches on the upper-cased action, mode and state names: each
      known action runs the matching operation and reports its outcome, and
      every error reply leaves the snapshot as it was. */
  function Dispatch(g: Globals, action: string, mode: string, state: string, now: int): (r: (Globals, Option<Reply>))
    ensures action == "SET_MODE" && ModeOf(mode).Some? ==>
      r == (SetModeStep(g, mode).0, Some(ModeReply(g.state == Idle, ModeOf(mode).value)))
    ensures action == "SET_MODE" && ModeOf(mode).None? ==> r == (g, Some(InvalidMode(mode)))
    ensures action == "SET_STATE" && StateOf(state).Some? && Allowed(g.state, StateOf(state).value) ==>
      r == (SetStateStep(g, state, now).0, Some(StateOk(StateOf(state).value)))
    ensures action == "SET_STATE" && StateOf(state).Some? && !Allowed(g.state, StateOf(state).value) ==>
      r == (g, Some(InvalidTransition))
    ensures action == "SET_STATE" && StateOf(state).None? ==> r == (g, Some(InvalidState(state)))
    ensures action == "GET_STATUS" ==> r == (g, Some(StatusData(StatusOf(g, now))))
    ensures action !in ["SET_MODE", "SET_STATE", "GET_STATUS"] ==> r == (g, Some(UnknownAction(action)))
  {
    if action == "SET_MODE" then
      match ModeOf(mode)
      case Some(m) =>
        var s := SetModeStep(g, mode);
        (s.0, Some(ModeReply(s.1, m)))
      case None => (g, Some(InvalidMode(mode)))
    else if action == "SET_STATE" then
      match StateOf(state)
      case Some(st) =>
        var s := SetStateStep(g, state, now);
        (s.0, Some(if s.1 then StateOk(st) else InvalidTransition))
      case None => (g, Some(InvalidState(state)))
    else if action == "GET_STATUS" then (g, Some(StatusData(StatusOf(g, now))))
    else (g, Some(UnknownAction(action)))
  }

  /** Action and argument names are case-insensitive: upper-casing the request
      beforehand changes nothing. */
  lemma HandleCaseInsensitive(g: Globals, action: string, mode: string, state: string, now: int)
    ensures HandleStep(g, Request(action, mode, state), now)
         == HandleStep(g, Request(Upper(action), Upper(mode), Upper(state)), now)
  {
    UpperIdempotent(action);
    UpperIdempotent(mode);
    UpperIdempotent(state);
  }

  /** A mode change requested outside IDLE with a known mode name is answered
      with an error status echoing the mode, and nothing changes. */
  lemma SetModeOutsideIdleRefused(g: Globals, action: string, mode: string, state: string, now: int)
    requires g.state != Idle
    requires Upper(action) == "SET_MODE" && ModeOf(Upper(mode)).Some?
    ensures HandleStep(g, Request(action, mode, state), now)
         == (g, Some(ModeReply(false, ModeOf(Upper(mode)).value)))
  {
  }

  // ---------------------------------------------------------------------------
  // Reachable states

  /** One call the control loop can make. */
  datatype Op =
    | SetModeOp(name: string)
    | SetStateOp(name: string, now: int)
    | CheckTimerOp(now: int)
    | BlinkOp(ticks: int)
    | CommandOp(input: Input, now: int)

  /** The wall clock as last read once `op` has run, `clock` before. */
  function ClockAfter(op: Op, clock: int): int
  {
    match op
    case SetStateOp(_, now) => now
    case CheckTimerOp(now) => now
    case CommandOp(_, now) => now
    case _ => clock
  }

  /** Outside NOTIFY, where the pulse owns the pixel, the pixel shows the
      configured colour of the current mode and state. */
  predicate Shows(g: Globals)
  {
    g.state != Notify ==> g.led == Color(g.mode, g.state)
  }

  /** One call: the mode changes only in IDLE, the printed events are only
      ever added to, and the pixel keeps showing the current colour. */
  function Step(g: Globals, op: Op, fade: (Rgb, int) -> Rgb): (r: Globals)
    ensures r.mode != g.mode ==> g.state == Idle && r.state == Idle
    ensures g.events <= r.events
    ensures Shows(g) ==> Shows(r)
  {
    match op
    case SetModeOp(name) => SetModeStep(g, name).0
    case SetStateOp(name, now) => SetStateStep(g, name, now).0
    case CheckTimerOp(now) => CheckTimerStep(g, now).0
    case BlinkOp(ticks) => BlinkStep(g, ticks, fade)
    case CommandOp(input, now) => HandleStep(g, input, now).0
  }

  /** The wall clock never goes back along `ops`, starting from `clock`. */
  predicate ClockMonotone(ops: seq<Op>, clock: int)
    decreases |ops|
  {
    ops == [] || (ClockAfter(ops[0], clock) >= clock && ClockMonotone(ops[1..], ClockAfter(ops[0], clock)))
  }

  function FinalClock(ops: seq<Op>, clock: int): int
    decreases |ops|
  {
    if ops == [] then clock else FinalClock(ops[1..], ClockAfter(ops[0], clock))
  }

  /** The control loop's calls, one after another: what was printed stays
      printed, and the pixel keeps showing the current colour. */
  function Run(g: Globals, ops: seq<Op>, fade: (Rgb, int) -> Rgb): (r: Globals)
    ensures g.events <= r.events
    ensures Shows(g) ==> Shows(r)
    decreases |ops|
  {
    if ops == [] then g else Run(Step(g, ops[0], fade), ops[1..], fade)
  }

  lemma SetStateKeepsInv(g: Globals, clock: int, name: string, now: int)
    requires Inv(g, clock) && now >= clock
    ensures Inv(SetStateStep(g, name, now).0, now)
  {
  }

  lemma StepKeepsInv(g: Globals, clock: int, op: Op, fade: (Rgb, int) -> Rgb)
    requires Inv(g, clock) && ClockAfter(op, clock) >= clock
    ensures Inv(Step(g, op, fade), ClockAfter(op, clock))
  {
    match op
    case SetStateOp(name, now) => SetStateKeepsInv(g, clock, name, now);
    case CheckTimerOp(now) => SetStateKeepsInv(g, clock, "NOTIFY", now);
    case CommandOp(input, now) =>
      if input.Request? {
        SetStateKeepsInv(g, clock, Upper(input.state), now);
      }
    case _ =>
  }

  lemma {:induction false} RunKeepsInv(g: Globals, clock: int, ops: seq<Op>, fade: (Rgb, int) -> Rgb)
    requires Inv(g, clock) && ClockMonotone(ops, clock)
    ensures Inv(Run(g, ops, fade), FinalClock(ops, clock))
    decreases |ops|
  {
    if ops != [] {
      StepKeepsInv(g, clock, ops[0], fade);
      RunKeepsInv(Step(g, ops[0], fade), ClockAfter(ops[0], clock), ops[1..], fade);
    }
  }

  /** Every snapshot reachable from the initial values satisfies `Inv`: IDLE
      has no timer, ACTIVE has no saved progress and the current mode's full
      duration, and so on. */
  lemma ReachableSatisfiesInv(ops: seq<Op>, clock: int, fade: (Rgb, int) -> Rgb)
    requires ClockMonotone(ops, clock)
    ensures Inv(Run(Initial, ops, fade), FinalClock(ops, clock))
    ensures Shows(Run(Initial, ops, fade))
  {
    RunKeepsInv(Initial, clock, ops, fade);
  }

  // ---------------------------------------------------------------------------
  // The script's module-level state, updated in place

  class Device {
    var currentMode: Mode
    var currentState: State
    var timerStart: int
    var timerDuration: int
    var elapsedBeforePause: int
    var fadeStart: int
    /** The colour last written to `pixels[0]`. */
    var led: Rgb
    /** The events printed so far. */
    var events: seq<Event>
    /** The wall clock as last read. */
    ghost var clock: int

    function View(): Globals
      reads this
    {
      Globals(currentMode, currentState, timerStart, timerDuration, elapsedBeforePause, fadeStart, led, events)
    }

    ghost predicate Valid()
      reads this
    {
      Inv(View(), clock)
    }

    /** The initial values of the module-level variables, then the boot-time
        `set_state(STATE_IDLE)`, which is refused. */
    constructor (now: int)
      ensures Valid() && View() == Initial && clock == now
    {
      currentMode := Dev;
      currentState := Idle;
      timerStart := 0;
      timerDuration := 0;
      fadeStart := 0;
      elapsedBeforePause := 0;
      led := Off;
      events := [];
      clock := now;
      new;
      var ok := SetState("IDLE", now);
    }

    /** `update_led`: writes the configured colour of the current mode and state. */
    method UpdateLed()
      modifies this`led
      ensures led == Color(currentMode, currentState)
    {
      led := Color(currentMode, currentState);
    }

    method SetMode(name: string) returns (ok: bool)
      requires Valid()
      modifies this
      ensures Valid() && clock == old(clock)
      ensures ok <==> old(currentState) == Idle && ModeOf(name).Some?
      ensures (View(), ok) == SetModeStep(old(View()), name)
    {
      if currentState != Idle {
        return false;
      }
      var m := ModeOf(name);
      if m.Some? {
        currentMode := m.value;
        UpdateLed();
        ok := true;
      } else {
        ok := false;
      }
    }

    method SetState(name: string, now: int) returns (ok: bool)
      requires Valid() && now >= clock
      modifies this
      ensures Valid() && clock == now
      ensures !ok ==> View() == old(View())
      ensures (View(), ok) == SetStateStep(old(View()), name, now)
    {
      SetStateKeepsInv(View(), clock, name, now);
      clock := now;
      var target := StateOf(name);
      if target.None? {
        return false;
      }
      var t := target.value;
      if t !in Successors(currentState) {
        return false;
      }
      currentState := t;
      if t == Active {
        if elapsedBeforePause > 0 {
          timerStart := now - elapsedBeforePause;
          elapsedBeforePause := 0;
        } else {
          timerStart := now;
          timerDuration := Minutes(currentMode) * 60;
        }
      } else if t == Pause {
        if timerStart > 0 && timerDuration > 0 {
          elapsedBeforePause := now - timerStart;
        }
      } else if t == Idle {
        timerStart := 0;
        timerDuration := 0;
        elapsedBeforePause := 0;
      }
      UpdateLed();
      events := events + [StateChanged(currentState, currentMode)];
      ok := true;
    }

    method CheckTimer(now: int) returns (fired: bool)
      requires Valid() && now >= clock
      modifies this
      ensures Valid() && clock == now
      ensures fired <==> old(currentState) == Active && old(timerDuration) > 0
                         && now - old(timerStart) >= old(timerDuration)
      ensures (View(), fired) == CheckTimerStep(old(View()), now)
    {
      if currentState == Active && timerDuration > 0 {
        var elapsed := now - timerStart;
        if elapsed >= timerDuration {
          var _ := SetState("NOTIFY", now);
          events := events + [TimerExpired(currentMode)];
          return true;
        }
      }
      clock := now;
      fired := false;
    }

    method BlinkNotify(ticks: int, fade: (Rgb, int) -> Rgb)
      requires Valid()
      modifies this
      ensures Valid() && clock == old(clock)
      ensures View() == BlinkStep(old(View()), ticks, fade)
    {
      if currentState == Notify {
        if fadeStart == 0 {
          fadeStart := ticks;
        }
        var phase := CyclePhase(ticks, fadeStart);
        led := fade(Color(currentMode, Notify), phase);
      } else {
        fadeStart := 0;
      }
    }

    /** `get_status`: builds the record with zero remaining time, then patches
        it for a running or paused countdown. */
    method GetStatus(now: int) returns (status: Status)
      ensures status == StatusOf(View(), now)
    {
      status := Status(currentMode, currentState, 0);
      if currentState == Active && timerDuration > 0 {
        var elapsed := now - timerStart;
        status := status.(timerRemaining := timerDuration - elapsed);
      } else if currentState == Pause && elapsedBeforePause > 0 {
        status := status.(timerRemaining := timerDuration - elapsedBeforePause);
      }
    }

    /** The dispatch part of `handle_serial_command` for one decoded line. */
    method HandleSerialCommand(input: Input, now: int) returns (reply: Option<Reply>)
      requires Valid() && now >= clock
      modifies this
      ensures Valid() && old(clock) <= clock <= now
      ensures (View(), reply) == HandleStep(old(View()), input, now)
    {
      match input
      case Blank =>
        return None;
      case NotJson =>
        return Some(InvalidJson);
      case Request(rawAction, rawMode, rawState) =>
        var action := Upper(rawAction);
        if action == "SET_MODE" {
          var mode := Upper(rawMode);
          var m := ModeOf(mode);
          if m.Some? {
            var success := SetMode(mode);
            reply := Some(ModeReply(success, m.value));
          } else {
            reply := Some(InvalidMode(mode));
          }
        } else if action == "SET_STATE" {
          var state := Upper(rawState);
          var st := StateOf(state);
          if st.Some? {
            var success := SetState(state, now);
            if !success {
              reply := Some(InvalidTransition);
            } else {
              reply := Some(StateOk(st.value));
            }
          } else {
            reply := Some(InvalidState(state));
          }
        } else if action == "GET_STATUS" {
          var status := GetStatus(now);
          reply := Some(StatusData(status));
        } else {
          reply := Some(UnknownAction(action));
        }
    }

    /** One pass of the main loop: the serial command, the expiry test and
        the animation step, in that order. The wall clock is read once by
        the command, at `nowCmd`, and again by the expiry test, at
        `nowTimer`. */
    method Tick(input: Input, nowCmd: int, nowTimer: int, ticks: int, fade: (Rgb, int) -> Rgb)
      returns (reply: Option<Reply>)
      requires Valid() && clock <= nowCmd <= nowTimer
      modifies this
      ensures Valid() && clock == nowTimer
      ensures var h := HandleStep(old(View()), input, nowCmd);
        reply == h.1 && View() == BlinkStep(CheckTimerStep(h.0, nowTimer).0, ticks, fade)
    {
      reply := HandleSerialCommand(input, nowCmd);
      var _ := CheckTimer(nowTimer);
      BlinkNotify(ticks, fade);
    }
  }
}
