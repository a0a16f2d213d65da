/** The controller in main.py: three modes, a four-state FSM that also allows
    NOTIFY -> PAUSE, a countdown that restarts on every entry into ACTIVE, and
    a plain-text serial protocol (`COMMAND ARG` lines).

    As in the firmware model, `Globals` is a snapshot of the module-level
    variables, the `...Step` functions say what each operation does to it, and
    the methods of `Device` update the fields in place as those functions say. */
module PlainText {
  import opened Common
  import opened Text

  datatype Mode = Dev | Game | Study

  function ModeName(m: Mode): string
  {
    match m
    case Dev => "DEV"
    case Game => "GAME"
    case Study => "STUDY"
  }

  /** Membership in the MODES list: only the exact upper-case names count. */
  function ModeOf(name: string): (r: Option<Mode>)
    ensures r.Some? ==> ModeName(r.value) == name
    ensures forall m: Mode :: ModeName(m) == name ==> r == Some(m)
  {
    if name == "DEV" then Some(Dev)
    else if name == "GAME" then Some(Game)
    else if name == "STUDY" then Some(Study)
    else None
  }

  /** `timer_minutes` of the configuration table: a positive number of minutes. */
  function Minutes(m: Mode): (minutes: nat)
    ensures minutes > 0
  {
    match m
    case Dev => 25
    case Game => 45
    case Study => 45
  }

  /** `colors` of the configuration table: the pixel is dark exactly when the
      device is IDLE in a mode other than STUDY. */
  function Color(m: Mode, s: State): (c: Rgb)
    ensures c == Off <==> s == Idle && m != Study
  {
    match (m, s)
    case (Dev, Idle) => (0, 0, 0)
    case (Dev, Active) => (100, 0, 0)
    case (Dev, Notify) => (100, 255, 0)
    case (Dev, Pause) => (0, 0, 50)
    case (Game, Idle) => (0, 0, 0)
    case (Game, Active) => (0, 100, 100)
    case (Game, Notify) => (0, 255, 0)
    case (Game, Pause) => (0, 0, 50)
    case (Study, Idle) => (0, 100, 0)
    case (Study, Active) => (0, 100, 100)
    case (Study, Notify) => (0, 255, 0)
    case (Study, Pause) => (0, 0, 50)
  }

  /** The `valid_transitions` table of `set_state`: no state lists itself,
      and every state but IDLE lists IDLE. */
  function Successors(s: State): (r: seq<State>)
    ensures s !in r
    ensures Idle in r <==> s != Idle
  {
    match s
    case Idle => [Active]
    case Active => [Pause, Notify, Idle]
    case Pause => [Active, Idle]
    case Notify => [Pause, Idle]
  }

  predicate Allowed(from: State, to: State)
  {
    to in Successors(from)
  }

  /** The record `get_status` returns. */
  datatype Status = Status(mode: Mode, state: State, timerRemaining: int)

  /** A snapshot of the module-level variables, with the colour last written to
      the pixel. */
  datatype Globals = Globals(
    mode: Mode,
    state: State,
    timerStart: int,
    timerDuration: int,
    fadeStart: int,
    led: Rgb)

  /** The values the script starts with. */
  const Initial: Globals := Globals(Dev, Idle, 0, 0, 0, Off)

  /** What holds of every snapshot the operations can reach: IDLE has no
      timer, and every other state carries the full duration of the current
      mode, set when ACTIVE was last entered. */
  predicate Inv(g: Globals)
  {
    && (g.state == Idle ==> g.timerStart == 0 && g.timerDuration == 0)
    && (g.state != Idle ==> g.timerDuration == Minutes(g.mode) * 60)
  }

  /** `set_mode`: refused outside IDLE and for unknown names; otherwise selects
      the mode and repaints the pixel. */
  function SetModeStep(g: Globals, name: string): (r: (Globals, bool))
    ensures r.1 <==> g.state == Idle && ModeOf(name).Some?
    ensures !r.1 ==> r.0 == g
    ensures r.1 ==> r.0.mode == ModeOf(name).value && r.0.led == Color(r.0.mode, Idle)
    ensures r.0.state == g.state && r.0.fadeStart == g.fadeStart
    ensures r.0.timerStart == g.timerStart && r.0.timerDuration == g.timerDuration
  {
    if g.state != Idle then (g, false)
    else
      match ModeOf(name)
      case None => (g, false)
      case Some(m) => (g.(mode := m, led := Color(m, g.state)), true)
  }

  /** The timer side effects of entering `target` at wall-clock time `now`:
      only the two timer fields change, and only on entering ACTIVE or IDLE. */
  function EnterTimers(g: Globals, target: State, now: int): (r: Globals)
    ensures r.mode == g.mode && r.state == g.state && r.fadeStart == g.fadeStart && r.led == g.led
    ensures target == Pause || target == Notify ==> r == g
  {
    match target
    case Active => g.(timerStart := now, timerDuration := Minutes(g.mode) * 60)
    case Idle => g.(timerStart := 0, timerDuration := 0)
    case _ => g
  }

  /** `set_state`: a validated FSM transition, its timer side effects and the
      repaint. */
  function SetStateStep(g: Globals, name: string, now: int): (r: (Globals, bool))
    ensures r.1 <==> StateOf(name).Some? && Allowed(g.state, StateOf(name).value)
    ensures !r.1 ==> r.0 == g
    ensures r.1 ==>
      && r.0.state == StateOf(name).value
      && r.0.mode == g.mode
      && r.0.fadeStart == g.fadeStart
      && r.0.led == Color(g.mode, r.0.state)
  {
    match StateOf(name)
    case None => (g, false)
    case Some(t) =>
      if !Allowed(g.state, t) then (g, false)
      else
        var h := EnterTimers(g.(state := t), t, now);
        (h.(led := Color(h.mode, t)), true)
  }

  /** `check_timer`: the expiry test and the forced ACTIVE -> NOTIFY move. */
  function CheckTimerStep(g: Globals, now: int): (r: (Globals, bool))
    ensures r.1 <==> g.state == Active && g.timerDuration > 0 && now - g.timerStart >= g.timerDuration
    ensures !r.1 ==> r.0 == g
    ensures r.1 ==>
      && r.0.state == Notify
      && r.0.mode == g.mode
      && r.0.led == Color(g.mode, Notify)
      && r.0.timerStart == g.timerStart
      && r.0.timerDuration == g.timerDuration
      && r.0.fadeStart == g.fadeStart
  {
    if g.state == Active && g.timerDuration > 0 && now - g.timerStart >= g.timerDuration then
      (SetStateStep(g, "NOTIFY", now).0, true)
    else (g, false)
  }

  /** `blink_notify` at tick count `ticks`. `fade` stands for the
      floating-point brightness scaling: it maps the NOTIFY base colour and
      the cycle phase to the colour written. */
  function BlinkStep(g: Globals, ticks: int, fade: (Rgb, int) -> Rgb): (r: Globals)
    ensures r.mode == g.mode && r.state == g.state
    ensures r.timerStart == g.timerStart && r.timerDuration == g.timerDuration
    ensures g.state != Notify ==> r.fadeStart == 0 && r.led == g.led
    ensures g.state == Notify && g.fadeStart != 0 ==> r.fadeStart == g.fadeStart
    ensures g.state == Notify && g.fadeStart == 0 ==> r.fadeStart == ticks
    ensures g.state == Notify ==> r.led == fade(Color(g.mode, Notify), CyclePhase(ticks, r.fadeStart))
  {
    if g.state == Notify then
      var start := if g.fadeStart == 0 then ticks else g.fadeStart;
      g.(fadeStart := start, led := fade(Color(g.mode, Notify), CyclePhase(ticks, start)))
    else
      g.(fadeStart := 0)
  }

  /** `get_status` at wall-clock time `now`: only a running ACTIVE countdown
      has time remaining; PAUSE reports 0. */
  function StatusOf(g: Globals, now: int): (r: Status)
    ensures r.mode == g.mode && r.state == g.state
    ensures g.state != Active ==> r.timerRemaining == 0
    ensures g.state == Active && g.timerDuration > 0 ==>
      r.timerRemaining + (now - g.timerStart) == g.timerDuration
  {
    var remaining := if g.state == Active && g.timerDuration > 0 then g.timerDuration - (now - g.timerStart) else 0;
    Status(g.mode, g.state, remaining)
  }

  // ---------------------------------------------------------------------------
  // Properties of the transitions

  /** NOTIFY may go to PAUSE or IDLE; IDLE is reachable from every other
      state, and IDLE -> IDLE is not an edge. */
  lemma TransitionTable()
    ensures forall t :: Allowed(Notify, t) <==> t == Pause || t == Idle
    ensures forall t :: Allowed(Idle, t) <==> t == Active
    ensures forall s :: Allowed(s, Idle) <==> s != Idle
  {
  }

  /** Every successful entry into ACTIVE, from IDLE or from PAUSE, starts a
      fresh countdown of the current mode's full duration. */
  lemma EnterActiveRestarts(g: Globals, now: int)
    requires g.state == Idle || g.state == Pause
    ensures var r := SetStateStep(g, "ACTIVE", now);
      && r.1 && r.0.timerStart == now && r.0.timerDuration == Minutes(g.mode) * 60
      && StatusOf(r.0, now).timerRemaining == Minutes(g.mode) * 60
  {
  }

  /** Entering PAUSE or NOTIFY leaves the timer fields untouched; entering
      IDLE clears them. */
  lemma EnterTimerFields(g: Globals, name: string, now: int)
    requires SetStateStep(g, name, now).1
    ensures var r := SetStateStep(g, name, now).0;
      && (r.state == Pause || r.state == Notify ==>
            r.timerStart == g.timerStart && r.timerDuration == g.timerDuration)
      && (r.state == Idle ==> r.timerStart == 0 && r.timerDuration == 0)
  {
  }

  /** Pausing does not keep progress: whatever ran before the pause, resuming
      reports the full duration again. */
  lemma PauseResumeRestarts(g: Globals, t1: int, t2: int)
    requires g.state == Active
    ensures var p := SetStateStep(g, "PAUSE", t1);
      var a := SetStateStep(p.0, "ACTIVE", t2);
      && p.1 && StatusOf(p.0, t1).timerRemaining == 0
      && a.1 && StatusOf(a.0, t2).timerRemaining == Minutes(g.mode) * 60
  {
    EnterActiveRestarts(SetStateStep(g, "PAUSE", t1).0, t2);
  }

  /** A successful mode change leaves the pixel showing that mode's IDLE
      colour; for STUDY that is (0, 100, 0), not off. */
  lemma SetModeStudyLights(g: Globals)
    requires g.state == Idle
    ensures SetModeStep(g, "STUDY") == (g.(mode := Study, led := (0, 100, 0)), true)
  {
  }

  /** The boot-time call `set_state(STATE_IDLE)` is refused, because IDLE ->
      IDLE is not an edge: the pixel is not painted. */
  lemma BootResetIsRefused(now: int)
    ensures SetStateStep(Initial, "IDLE", now) == (Initial, false)
  {
  }

  /** Within one mode the four states show four different colours, so the
      pixel tells the state apart. */
  lemma ColorsDistinct(m: Mode, s: State, t: State)
    requires s != t
    ensures Color(m, s) != Color(m, t)
  {
  }

  /** Outside NOTIFY the animation step only resets `fade_start`, so repeating
      it changes nothing more. */
  lemma BlinkIdempotentOutsideNotify(g: Globals, t1: int, t2: int, fade: (Rgb, int) -> Rgb)
    requires g.state != Notify
    ensures BlinkStep(BlinkStep(g, t1, fade), t2, fade) == BlinkStep(g, t1, fade)
  {
  }

  /** An animation step outside NOTIFY, then the expiry, then an animation step
      at any tick count: the fade starts again at phase 0. */
  lemma ExpiryRestartsFade(g: Globals, t0: int, now: int, ticks: int, fade: (Rgb, int) -> Rgb)
    requires CheckTimerStep(BlinkStep(g, t0, fade), now).1
    ensures var n := CheckTimerStep(BlinkStep(g, t0, fade), now).0;
      BlinkStep(n, ticks, fade).led == fade(Color(g.mode, Notify), 0)
  {
    var b := BlinkStep(g, t0, fade);
    assert b.fadeStart == 0;
  }

  // ---------------------------------------------------------------------------
  // The serial command dispatcher

  /** A command line after `strip()` and `split()`. */
  datatype Parsed = Blank | Malformed | Words(command: string, arg: string)

  /** The tokenising part of `handle_serial_command`: a blank line is ignored,
      a line with fewer than two tokens is malformed, and otherwise the first
      two tokens, upper-cased, are the command and its argument. */
  function Tokenise(line: string): (p: Parsed)
    ensures p == Blank <==> AllSpace(line)
    ensures p == Malformed <==> |Split(line)| == 1
    ensures p.Words? ==>
      |Split(line)| >= 2 && p.command == Upper(Split(line)[0]) && p.arg == Upper(Split(line)[1])
  {
    SplitStrip(line);
    var stripped := Strip(line);
    if stripped == [] then Blank
    else
      var parts := Split(stripped);
      if |parts| < 2 then Malformed
      else Words(Upper(parts[0]), Upper(parts[1]))
  }

  /** On a line of words separated by spaces: no words is blank, one word is
      malformed, and from two words on only the first two count. */
  lemma TokeniseWords(ws: seq<string>)
    requires forall i :: 0 <= i < |ws| ==> IsWord(ws[i])
    ensures |ws| == 0 ==> Tokenise(Join(ws)) == Blank
    ensures |ws| == 1 ==> Tokenise(Join(ws)) == Malformed
    ensures |ws| >= 2 ==> Tokenise(Join(ws)) == Words(Upper(ws[0]), Upper(ws[1]))
  {
    SplitJoin(ws);
  }

  /** A bare `GET_STATUS` line, with any surrounding whitespace, has one
      token and is refused as malformed, whatever the state. */
  lemma BareGetStatusIsMalformed(line: string)
    requires Split(line) == ["GET_STATUS"]
    ensures HandleStep(Initial, line, 0) == (Initial, Some(BadFormat))
    ensures forall g, now :: HandleStep(g, line, now) == (g, Some(BadFormat))
  {
  }

  /** The plain-text replies. */
  datatype Reply =
    | ModeOk(mode: Mode)
    | InvalidMode(name: string)
    | StateOk(state: State)
    | InvalidState(name: string)
    | StatusLine(status: Status)
    | UnknownCommand(name: string)
    | BadFormat

  /** The branches of `handle_serial_command` on the upper-cased command and
      argument: a known name runs the matching operation and is answered `OK`
      whether or not the operation succeeds; every error reply leaves the
      snapshot as it was. */
  function Dispatch(g: Globals, command: string, arg: string, now: int): (r: (Globals, Reply))
    ensures command == "SET_MODE" && ModeOf(arg).Some? ==>
      r == (SetModeStep(g, arg).0, ModeOk(ModeOf(arg).value))
    ensures command == "SET_MODE" && ModeOf(arg).None? ==> r == (g, InvalidMode(arg))
    ensures command == "SET_STATE" && StateOf(arg).Some? ==>
      r == (SetStateStep(g, arg, now).0, StateOk(StateOf(arg).value))
    ensures command == "SET_STATE" && StateOf(arg).None? ==> r == (g, InvalidState(arg))
    ensures command == "GET_STATUS" ==> r == (g, StatusLine(StatusOf(g, now)))
    ensures command !in ["SET_MODE", "SET_STATE", "GET_STATUS"] ==> r == (g, UnknownCommand(command))
  {
    if command == "SET_MODE" then
      match ModeOf(arg)
      case Some(m) => (SetModeStep(g, arg).0, ModeOk(m))
      case None => (g, InvalidMode(arg))
    else if command == "SET_STATE" then
      match StateOf(arg)
      case Some(s) => (SetStateStep(g, arg, now).0, StateOk(s))
      case None => (g, InvalidState(arg))
    else if command == "GET_STATUS" then (g, StatusLine(StatusOf(g, now)))
    else (g, UnknownCommand(command))
  }

  /** `handle_serial_command` for one line read at wall-clock time `now`. */
  function HandleStep(g: Globals, line: string, now: int): (r: (Globals, Option<Reply>))
    ensures r.1 == None <==> AllSpace(line)
    ensures r.1 == Some(BadFormat) <==> |Split(line)| == 1
    ensures r.0 != g ==> r.1.Some? && (r.1.value.ModeOk? || r.1.value.StateOk?)
    ensures var p := Tokenise(line);
      p.Words? && p.command == "SET_MODE" && ModeOf(p.arg).Some? ==>
        r == (SetModeStep(g, p.arg).0, Some(ModeOk(ModeOf(p.arg).value)))
    ensures var p := Tokenise(line);
      p.Words? && p.command == "SET_MODE" && ModeOf(p.arg).None? ==> r == (g, Some(InvalidMode(p.arg)))
    ensures var p := Tokenise(line);
      p.Words? && p.command == "SET_STATE" && StateOf(p.arg).Some? ==>
        r == (SetStateStep(g, p.arg, now).0, Some(StateOk(StateOf(p.arg).value)))
    ensures var p := Tokenise(line);
      p.Words? && p.command == "SET_STATE" && StateOf(p.arg).None? ==> r == (g, Some(InvalidState(p.arg)))
    ensures var p := Tokenise(line);
      p.Words? && p.command == "GET_STATUS" ==> r == (g, Some(StatusLine(StatusOf(g, now))))
    ensures var p := Tokenise(line);
      p.Words? && p.command !in ["SET_MODE", "SET_STATE", "GET_STATUS"] ==>
        r == (g, Some(UnknownCommand(p.command)))
  {
    match Tokenise(line)
    case Blank => (g, None)
    case Malformed => (g, Some(BadFormat))
    case Words(command, arg) =>
      var d := Dispatch(g, command, arg, now);
      (d.0, Some(d.1))
  }

  /** A known mode name is answered `OK: MODE=...` even when the mode change is
      refused because the device is not IDLE, and then nothing changes. */
  lemma ModeOkWhenRefused(g: Globals, line: string, now: int)
    requires g.state != Idle
    requires Tokenise(line).Words? && Tokenise(line).command == "SET_MODE"
    requires ModeOf(Tokenise(line).arg).Some?
    ensures HandleStep(g, line, now) == (g, Some(ModeOk(ModeOf(Tokenise(line).arg).value)))
  {
  }

  /** A known state name is answered `OK: STATE=...` even when the transition
      is refused, and then nothing changes. */
  lemma StateOkWhenRefused(g: Globals, line: string, now: int)
    requires Tokenise(line).Words? && Tokenise(line).command == "SET_STATE"
    requires StateOf(Tokenise(line).arg).Some? && !Allowed(g.state, StateOf(Tokenise(line).arg).value)
    ensures HandleStep(g, line, now) == (g, Some(StateOk(StateOf(Tokenise(line).arg).value)))
  {
  }

  /** A command word and one argument word, separated by any run of
      whitespace: the line names the command and argument upper-cased, so
      that a known name of a mode or state, in any case, is recognised. */
  lemma TokeniseCommand(command: string, sep: string, arg: string)
    requires IsWord(command) && IsWord(arg) && sep != [] && AllSpace(sep)
    ensures Tokenise(command + sep + arg) == Words(Upper(command), Upper(arg))
  {
    SplitWord(command);
    SplitWord(arg);
    SplitSeparated(command, sep, arg);
  }

  // ---------------------------------------------------------------------------
  // Reachable states

  /** One call the control loop can make. */
  datatype Op =
    | SetModeOp(name: string)
    | SetStateOp(name: string, now: int)
    | CheckTimerOp(now: int)
    | BlinkOp(ticks: int)
    | CommandOp(line: string, now: int)

  /** Outside NOTIFY, where the pulse owns the pixel, the pixel shows the
      configured colour of the current mode and state. */
  predicate Shows(g: Globals)
  {
    g.state != Notify ==> g.led == Color(g.mode, g.state)
  }

  /** One call: the mode changes only in IDLE, and the pixel keeps showing the
      current colour. */
  function Step(g: Globals, op: Op, fade: (Rgb, int) -> Rgb): (r: Globals)
    ensures r.mode != g.mode ==> g.state == Idle && r.state == Idle
    ensures Shows(g) ==> Shows(r)
  {
    match op
    case SetModeOp(name) => SetModeStep(g, name).0
    case SetStateOp(name, now) => SetStateStep(g, name, now).0
    case CheckTimerOp(now) => CheckTimerStep(g, now).0
    case BlinkOp(ticks) => BlinkStep(g, ticks, fade)
    case CommandOp(line, now) => HandleStep(g, line, now).0
  }

  /** The control loop's calls, one after another: the pixel keeps showing
      the current colour. */
  function Run(g: Globals, ops: seq<Op>, fade: (Rgb, int) -> Rgb): (r: Globals)
    ensures Shows(g) ==> Shows(r)
    decreases |ops|
  {
    if ops == [] then g else Run(Step(g, ops[0], fade), ops[1..], fade)
  }

  lemma SetStateKeepsInv(g: Globals, name: string, now: int)
    requires Inv(g)
    ensures Inv(SetStateStep(g, name, now).0)
  {
  }

  lemma CommandKeepsInv(g: Globals, line: string, now: int)
    requires Inv(g)
    ensures Inv(HandleStep(g, line, now).0)
  {
    var parsed := Tokenise(line);
    if parsed.Words? {
      var d := Dispatch(g, parsed.command, parsed.arg, now);
      assert HandleStep(g, line, now).0 == d.0;
      SetStateKeepsInv(g, parsed.arg, now);
    }
  }

  lemma StepKeepsInv(g: Globals, op: Op, fade: (Rgb, int) -> Rgb)
    requires Inv(g)
    ensures Inv(Step(g, op, fade))
  {
    match op
    case SetStateOp(name, now) => SetStateKeepsInv(g, name, now);
    case CheckTimerOp(now) => SetStateKeepsInv(g, "NOTIFY", now);
    case CommandOp(line, now) => CommandKeepsInv(g, line, now);
    case _ =>
  }

  lemma {:induction false} RunKeepsInv(g: Globals, ops: seq<Op>, fade: (Rgb, int) -> Rgb)
    requires Inv(g)
    ensures Inv(Run(g, ops, fade))
    decreases |ops|
  {
    if ops != [] {
      StepKeepsInv(g, ops[0], fade);
      RunKeepsInv(Step(g, ops[0], fade), ops[1..], fade);
    }
  }

  /** Every snapshot reachable from the initial values satisfies `Inv`. */
  lemma ReachableSatisfiesInv(ops: seq<Op>, fade: (Rgb, int) -> Rgb)
    ensures Inv(Run(Initial, ops, fade))
    ensures Shows(Run(Initial, ops, fade))
  {
    RunKeepsInv(Initial, ops, fade);
  }

  // ---------------------------------------------------------------------------
  // The script's module-level state, updated in place

  class Device {
    var currentMode: Mode
    var currentState: State
    var timerStart: int
    var timerDuration: int
    var fadeStart: int
    /** The colour last written to `pixels[0]`. */
    var led: Rgb

    function View(): Globals
      reads this
    {
      Globals(currentMode, currentState, timerStart, timerDuration, fadeStart, led)
    }

    ghost predicate Valid()
      reads this
    {
      Inv(View())
    }

    /** The initial values of the module-level variables, then the boot-time
        `set_state(STATE_IDLE)`, which is refused. */
    constructor (now: int)
      ensures Valid() && View() == Initial
    {
      currentMode := Dev;
      currentState := Idle;
      timerStart := 0;
      timerDuration := 0;
      fadeStart := 0;
      led := Off;
      new;
      var ok := SetState("IDLE", now);
    }

    /** `update_led`: writes the configured colour of the current mode and state. */
    method UpdateLed()
      modifies this`led
      ensures led == Color(currentMode, currentState)
    {
      led := Color(currentMode, currentState);
    }

    method SetMode(name: string) returns (ok: bool)
      requires Valid()
      modifies this
      ensures Valid()
      ensures ok <==> old(currentState) == Idle && ModeOf(name).Some?
      ensures (View(), ok) == SetModeStep(old(View()), name)
    {
      if currentState != Idle {
        return false;
      }
      var m := ModeOf(name);
      if m.Some? {
        currentMode := m.value;
        UpdateLed();
        ok := true;
      } else {
        ok := false;
      }
    }

    method SetState(name: string, now: int) returns (ok: bool)
      requires Valid()
      modifies this
      ensures Valid()
      ensures !ok ==> View() == old(View())
      ensures (View(), ok) == SetStateStep(old(View()), name, now)
    {
      var target := StateOf(name);
      if target.None? {
        return false;
      }
      var t := target.value;
      if t !in Successors(currentState) {
        return false;
      }
      currentState := t;
      if t == Active {
        timerStart := now;
        timerDuration := Minutes(currentMode) * 60;
      } else if t == Idle {
        timerStart := 0;
        timerDuration := 0;
      }
      UpdateLed();
      ok := true;
    }

    method CheckTimer(now: int) returns (fired: bool)
      requires Valid()
      modifies this
      ensures Valid()
      ensures fired <==> old(currentState) == Active && old(timerDuration) > 0
                         && now - old(timerStart) >= old(timerDuration)
      ensures (View(), fired) == CheckTimerStep(old(View()), now)
    {
      if currentState == Active && timerDuration > 0 {
        var elapsed := now - timerStart;
        if elapsed >= timerDuration {
          var _ := SetState("NOTIFY", now);
          return true;
        }
      }
      fired := false;
    }

    method BlinkNotify(ticks: int, fade: (Rgb, int) -> Rgb)
      requires Valid()
      modifies this
      ensures Valid()
      ensures View() == BlinkStep(old(View()), ticks, fade)
    {
      if currentState == Notify {
        if fadeStart == 0 {
          fadeStart := ticks;
        }
        var phase := CyclePhase(ticks, fadeStart);
        led := fade(Color(currentMode, Notify), phase);
      } else {
        fadeStart := 0;
      }
    }

    /** `get_status`: builds the record with zero remaining time, then patches
        it for a running countdown. */
    method GetStatus(now: int) returns (status: Status)
      ensures status == StatusOf(View(), now)
    {
      status := Status(currentMode, currentState, 0);
      if currentState == Active && timerDuration > 0 {
        var elapsed := now - timerStart;
        status := status.(timerRemaining := timerDuration - elapsed);
      }
    }

    /** `handle_serial_command` for one line read from the serial port. */
    method HandleSerialCommand(line: string, now: int) returns (reply: Option<Reply>)
      requires Valid()
      modifies this
      ensures Valid()
      ensures (View(), reply) == HandleStep(old(View()), line, now)
    {
      var parsed := Tokenise(line);
      match parsed
      case Blank =>
        return None;
      case Malformed =>
        return Some(BadFormat);
      case Words(command, arg) =>
        if command == "SET_MODE" {
          var m := ModeOf(arg);
          if m.Some? {
            var _ := SetMode(arg);
            reply := Some(ModeOk(m.value));
          } else {
            reply := Some(InvalidMode(arg));
          }
        } else if command == "SET_STATE" {
          var s := StateOf(arg);
          if s.Some? {
            var _ := SetState(arg, now);
            reply := Some(StateOk(s.value));
          } else {
            reply := Some(InvalidState(arg));
          }
        } else if command == "GET_STATUS" {
          var status := GetStatus(now);
          reply := Some(StatusLine(status));
        } else {
          reply := Some(UnknownCommand(command));
        }
    }

    /** One pass of the main loop: the serial command, the expiry test and
        the animation step, in that order. The wall clock is read once by
        the command, at `nowCmd`, and again by the expiry test, at
        `nowTimer`. */
    method Tick(line: string, nowCmd: int, nowTimer: int, ticks: int, fade: (Rgb, int) -> Rgb)
      returns (reply: Option<Reply>)
      requires Valid()
      modifies this
      ensures Valid()
      ensures var h := HandleStep(old(View()), line, nowCmd);
        reply == h.1 && View() == BlinkStep(CheckTimerStep(h.0, nowTimer).0, ticks, fade)
    {
      reply := HandleSerialCommand(line, nowCmd);
      var _ := CheckTimer(nowTimer);
      BlinkNotify(ticks, fade);
    }
  }
}
