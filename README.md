# blinky: the LED timer controller, modelled in Dafny

The repository drives one RGB NeoPixel as a Pomodoro-style timer. Its state
is a mode (DEV, GAME and, in one copy, STUDY) and one of four states: IDLE,
ACTIVE, NOTIFY and PAUSE. A wall-clock countdown runs while the state is
ACTIVE. When it expires the device moves to NOTIFY and the pixel pulses.
Line-based serial commands set the mode or the state, or ask for the status.

The controller exists in two copies, and each one has its own model:

- `firmware.dfy`, module `Firmware`, models `firmware/main.py`. It has two
  modes and no NOTIFY -> PAUSE edge. It keeps countdown progress across PAUSE
  in `elapsed_before_pause`. It prints JSON events `state_changed` and
  `timer_expired`, and it takes JSON requests.
- `plaintext.dfy`, module `PlainText`, models `main.py`. It has three modes
  and allows NOTIFY -> PAUSE. The countdown restarts on every entry into
  ACTIVE. Commands are plain-text `COMMAND ARG` lines.
- `common.dfy`, module `Common`, holds what both copies share: the states and
  their names, the colour triple, and the integer phase of the fade cycle.
- `text.dfy`, module `Text`, models the Python string operations the
  dispatch uses: `upper()`, `strip()` and `split()`. Whitespace is the ASCII
  set of tab, line feed, vertical tab, form feed, carriage return and space.
  Upper-casing is ASCII only, as on MicroPython.

Each copy is modelled in two layers:

- The datatype `Globals` is a snapshot of the script's module-level
  variables. It also holds `led`, the colour last written to `pixels[0]`. In
  the firmware it holds `events` too, the JSON events printed so far.
- The `...Step` functions say what `set_mode`, `set_state`, `check_timer`,
  `blink_notify` and the command dispatch do to a snapshot. `StatusOf` is
  `get_status`.
- The class `Device` has the variables as fields. Its methods update them
  step by step, as the Python functions do. Each method that models an operation
  (`SetMode`, `SetState`, `CheckTimer`, `BlinkNotify`,
  `HandleSerialCommand`, `Tick`) is proved to leave `View()` (the fields as
  a snapshot) equal to what the matching step functions give, and to keep
  `Valid()`, the reachable-state invariant `Inv`. `GetStatus` changes
  nothing and returns `StatusOf`; `UpdateLed` only repaints the pixel.
- The configuration tables are `Minutes` and `Color`. The `valid_transitions`
  table is `Successors`.

Time comes in as parameters. `now` is the wall clock in seconds, as
`time.time()` gives it. `ticks` is the millisecond counter of
`time.ticks_ms()`. The brightness of the NOTIFY pulse is floating-point sine
arithmetic. It is stood in for by a parameter `fade`, which maps the NOTIFY
base colour and the phase in [0, 2000) to the colour written.

Both scripts call `set_state(STATE_IDLE)` at boot. That call is refused,
because IDLE -> IDLE is not an edge of either table. So boot paints nothing
and emits no event. Each `Device` constructor makes this call, and
`BootResetIsRefused` proves the refusal.

Four behaviours of the scripts are easy to miss:

- The firmware table has no NOTIFY -> PAUSE edge.
- `main.py` refuses a bare `GET_STATUS` line, because it demands two tokens.
- `main.py` answers `OK` to a known mode or state name even when the change
  is refused.
- In the firmware, a countdown started at wall-clock time 0 counts as no
  timer when paused (`timer_start > 0` is the guard), so pausing it saves
  nothing and the resume restarts the full duration.
  `StartAtZeroSavesNothing` proves this.

## Model

| member | source | states |
|---|---|---|
| Common.StateOf | firmware/main.py:17-20 | a name is recognised exactly when it is the upper-case name of one of the four states, and the state it gives has that name |
| Common.CyclePhase | firmware/main.py:144-146 | the fade position lies in [0, 2000), and it is the number of ticks since the cycle started while that is under 2000 |
| Common.CyclePhaseOf | firmware/main.py:145-146 | the position is the remainder of the elapsed ticks after any number of whole 2000 ms cycles |
| Common.CyclePhasePeriodic | firmware/main.py:145-146 | the fade repeats every 2000 ticks |
| Text.Upper | firmware/main.py:190 | `upper()` keeps the length, upper-cases each character in place, and leaves no lower-case letter |
| Text.UpperIdempotent | firmware/main.py:190-202 | upper-casing an already upper-cased name changes nothing |
| Text.Strip | main.py:182-184 | the stripped line is a slice of the line with only whitespace cut off on both sides; it starts and ends with non-whitespace, and it is empty exactly when the line is all whitespace |
| Text.Split | main.py:186 | every token is non-empty and has no whitespace, and there are no tokens exactly when the line is all whitespace |
| Text.SplitJoin | main.py:186 | splitting words joined by spaces gives the words back |
| Text.SplitStrip | main.py:182-186 | splitting the stripped line gives the same tokens as splitting the raw line |
| Text.SplitDropLeading | main.py:186 | leading whitespace does not change the tokens |
| Text.SplitDropTrailing | main.py:186 | trailing whitespace does not change the tokens |
| Text.SplitSeparated | main.py:186 | any non-empty run of whitespace, tabs or repeated spaces included, separates the tokens before it from those after it |
| Firmware.ModeOf | firmware/main.py:13-15 | a name is a mode exactly when it is DEV or GAME, and the mode it gives has that name |
| Firmware.Minutes | firmware/main.py:25 | every mode's countdown is a positive number of minutes |
| Firmware.Color | firmware/main.py:26-40 | the configured colour is off exactly in IDLE |
| Firmware.ColorsDistinct | firmware/main.py:26-40 | within one mode the four states have four different colours |
| Firmware.Successors | firmware/main.py:76-81 | no state may move to itself, and every state but IDLE may move to IDLE |
| Firmware.SetModeStep | firmware/main.py:53-66 | succeeds exactly when the state is IDLE and the name is DEV or GAME; on failure nothing changes; on success the mode is the named one and the pixel shows that mode's IDLE colour; the state, the timer fields, `fade_start` and the event log are never touched |
| Firmware.EnterTimers | firmware/main.py:88-107 | entering a state changes only the three timer fields, and entering NOTIFY changes none |
| Firmware.SetStateStep | firmware/main.py:68-114 | succeeds exactly when the name is a state and the edge is in the table; on failure nothing changes, including the event log; on success the state is the target, the pixel shows its colour, and exactly one `state_changed(target, mode)` event is appended |
| Firmware.TransitionTable | firmware/main.py:76-81 | NOTIFY may only go to IDLE, IDLE only to ACTIVE, and IDLE is reachable from every other state but not from itself |
| Firmware.EnterIdleClears | firmware/main.py:104-107 | entering IDLE from any state zeroes `timer_start`, `timer_duration` and `elapsed_before_pause` |
| Firmware.EnterNotifyKeepsTimers | firmware/main.py:68-114 | entering NOTIFY from ACTIVE, by command or by expiry, keeps all three timer fields |
| Firmware.EnterPauseRecords | firmware/main.py:98-101 | entering PAUSE from ACTIVE records `now - timer_start` when a timer runs (`timer_start > 0` and `timer_duration > 0`), and keeps the anchor and the duration |
| Firmware.EnterActive | firmware/main.py:89-96 | entering ACTIVE with saved progress sets `timer_start = now - elapsed_before_pause`, keeps the duration and zeroes the progress; otherwise it starts a fresh `Minutes(mode) * 60` countdown at `now` |
| Firmware.PauseKeepsRemaining | firmware/main.py:98-101 | after pausing a running timer at least one second after it started (`t > timer_start`), PAUSE reports, at any time, the remaining time ACTIVE reported when it was paused |
| Firmware.PauseInStartSecondReportsZero | firmware/main.py:98-101 | a pause in the second the countdown started saves no progress, so PAUSE reports 0 rather than the remaining time |
| Firmware.StartAtZeroSavesNothing | firmware/main.py:98-101 | a countdown started at time 0 saves no progress when paused, PAUSE reports 0, and the resume reports the full duration |
| Firmware.ResumeKeepsRemaining | firmware/main.py:89-93 | resuming saved progress at any time reports the same remaining time PAUSE reported |
| Firmware.PauseResumeRoundTrip | firmware/main.py:89-101 | for a reachable ACTIVE snapshot with a running timer, ACTIVE -> PAUSE at any `t1 >= timer_start` -> ACTIVE at t2: the remaining time right after resuming equals the remaining time at the pause |
| Firmware.ResumeWithoutProgressRestarts | firmware/main.py:90-96 | progress saved as exactly 0 restarts the full countdown on resume |
| Firmware.ExpiryThreshold | firmware/main.py:125-128 | a DEV countdown started at time 0 has not expired at 1499 s and has expired at 1500 s, moving to NOTIFY |
| Firmware.BootResetIsRefused | firmware/main.py:230 | the boot-time `set_state(STATE_IDLE)` is refused and changes nothing |
| Firmware.CheckTimerStep | firmware/main.py:122-133 | fires exactly when the state is ACTIVE, `timer_duration > 0` and `now - timer_start >= timer_duration`; after firing the state is NOTIFY, the timer fields and `fade_start` are kept, and the log ends with `state_changed(NOTIFY, mode)` then `timer_expired(mode)`; otherwise nothing changes |
| Firmware.BlinkStep | firmware/main.py:135-159 | changes only `fade_start` and the pixel; outside NOTIFY it zeroes `fade_start` and leaves the pixel alone; in NOTIFY it sets a zero `fade_start` to the current tick count, keeps a non-zero one, and paints the faded NOTIFY colour at the current phase |
| Firmware.BlinkIdempotentOutsideNotify | firmware/main.py:157-159 | repeating the animation step outside NOTIFY has no further effect |
| Firmware.ExpiryRestartsFade | firmware/main.py:139-146 | after an animation step outside NOTIFY and then the expiry, the next animation step paints phase 0 |
| Firmware.StatusOf | firmware/main.py:161-175 | reports the mode and the state; IDLE and NOTIFY report 0; PAUSE with progress reports `timer_duration - elapsed_before_pause`; a running ACTIVE timer reports the remaining time, which together with the elapsed time is the duration |
| Firmware.HandleStep | firmware/main.py:184-227 | no reply exactly for a blank line; a line that is not JSON gets "Invalid JSON" with no change; only a successful mode or state change alters anything; SET_MODE with a known mode makes the `set_mode` change and replies ok exactly when the device is IDLE, and with an unknown mode gets "Invalid mode"; SET_STATE with a known state on an allowed edge makes the `set_state` change and replies ok, on a refused edge gets "Invalid transition", and with an unknown state gets "Invalid state"; GET_STATUS returns the status with no change; "Unknown action" exactly when the action is none of the three |
| Firmware.Dispatch | firmware/main.py:190-220 | each known upper-cased action runs its operation and reports its outcome (mode ok flag, state ok or invalid transition, status record); unknown names and actions get their error reply and change nothing |
| Firmware.HandleCaseInsensitive | firmware/main.py:190-202 | the action, mode and state of a request are matched without regard to case |
| Firmware.SetModeOutsideIdleRefused | firmware/main.py:192-196 | SET_MODE with a known mode outside IDLE gets an error status that echoes the mode, and nothing changes |
| Firmware.Step | firmware/main.py:58-66 | no call of the control loop changes the mode except in IDLE, and the device stays IDLE when it does; no call removes a printed event; a pixel showing the configured colour outside NOTIFY keeps doing so |
| Firmware.Run | firmware/main.py:235-238 | along any sequence of calls the event log only grows, and outside NOTIFY the pixel keeps showing the configured colour of the current mode and state |
| Firmware.SetStateKeepsInv | firmware/main.py:68-114 | a transition keeps the invariant when the clock has not gone back |
| Firmware.StepKeepsInv | firmware/main.py:229-238 | every call the control loop makes keeps the invariant |
| Firmware.RunKeepsInv | firmware/main.py:234-238 | any sequence of calls with a clock that never goes back keeps the invariant |
| Firmware.ReachableSatisfiesInv | firmware/main.py:46-51 | from the initial values: IDLE has all three timer fields 0; ACTIVE has no saved progress and the full `Minutes(mode) * 60` duration; NOTIFY and PAUSE keep that duration; PAUSE has non-negative progress; outside NOTIFY the pixel shows the configured colour |
| Firmware.Device.constructor | firmware/main.py:46-51 | the initial values, with the boot-time `set_state(STATE_IDLE)` refused |
| Firmware.Device.UpdateLed | firmware/main.py:116-120 | the pixel shows the configured colour of the current mode and state |
| Firmware.Device.SetMode | firmware/main.py:53-66 | updates the fields as `SetModeStep` does and keeps the invariant |
| Firmware.Device.SetState | firmware/main.py:68-114 | updates the fields as `SetStateStep` does, changes nothing on refusal, and keeps the invariant |
| Firmware.Device.CheckTimer | firmware/main.py:122-133 | updates the fields as `CheckTimerStep` does and keeps the invariant |
| Firmware.Device.BlinkNotify | firmware/main.py:135-159 | updates `fade_start` and the pixel as `BlinkStep` does |
| Firmware.Device.GetStatus | firmware/main.py:161-175 | builds the record and patches it so that it equals `StatusOf` |
| Firmware.Device.HandleSerialCommand | firmware/main.py:184-220 | dispatches one decoded request with the reply and state change of `HandleStep`, keeps the invariant, and leaves the last clock reading between the old one and `now` |
| Firmware.Device.Tick | firmware/main.py:235-238 | one pass of the main loop: the command at one clock reading, then the expiry test at a later or equal one, then the animation step, ending in the snapshot those step functions give in that order, with the invariant kept and the later reading as the last clock |
| PlainText.ModeOf | main.py:12-15 | a name is a mode exactly when it is DEV, GAME or STUDY, and the mode it gives has that name |
| PlainText.Minutes | main.py:26-44 | every mode's countdown is a positive number of minutes |
| PlainText.Color | main.py:27-50 | the configured colour is off exactly in IDLE outside STUDY |
| PlainText.ColorsDistinct | main.py:27-50 | within one mode the four states have four different colours |
| PlainText.Successors | main.py:89-94 | no state may move to itself, and every state but IDLE may move to IDLE |
| PlainText.SetModeStep | main.py:62-78 | succeeds exactly when the state is IDLE and the name is DEV, GAME or STUDY; on failure nothing changes; on success the pixel shows that mode's IDLE colour; the state, the timer fields and `fade_start` are never touched |
| PlainText.EnterTimers | main.py:104-113 | entering a state changes only the two timer fields, and entering PAUSE or NOTIFY changes none |
| PlainText.SetModeStudyLights | main.py:46 | selecting STUDY in IDLE leaves the pixel at (0, 100, 0), not off |
| PlainText.SetStateStep | main.py:80-116 | succeeds exactly when the name is a state and the edge is in the table; on failure nothing changes; on success the state is the target and the pixel shows its colour |
| PlainText.TransitionTable | main.py:89-94 | NOTIFY may go to PAUSE or IDLE, IDLE only to ACTIVE, and IDLE is reachable from every other state but not from itself |
| PlainText.EnterActiveRestarts | main.py:105-107 | every entry into ACTIVE, from IDLE or from PAUSE, sets `timer_start = now` and the full duration, and reports the full duration as remaining |
| PlainText.EnterTimerFields | main.py:104-113 | entering PAUSE or NOTIFY leaves `timer_start` and `timer_duration` untouched, and entering IDLE sets both to 0 |
| PlainText.PauseResumeRestarts | main.py:104-113 | PAUSE reports 0 remaining, and resuming reports the full duration again, so pausing keeps no progress |
| PlainText.BootResetIsRefused | main.py:220 | the boot-time `set_state(STATE_IDLE)` is refused and changes nothing |
| PlainText.CheckTimerStep | main.py:124-133 | fires exactly when the state is ACTIVE, `timer_duration > 0` and `now - timer_start >= timer_duration`; after firing the state is NOTIFY with the timer fields and `fade_start` kept; otherwise nothing changes |
| PlainText.BlinkStep | main.py:135-159 | outside NOTIFY it zeroes `fade_start` and leaves the pixel alone; in NOTIFY it sets a zero `fade_start` to the current tick count, keeps a non-zero one, and paints the faded NOTIFY colour at the current phase |
| PlainText.BlinkIdempotentOutsideNotify | main.py:157-159 | repeating the animation step outside NOTIFY has no further effect |
| PlainText.ExpiryRestartsFade | main.py:139-146 | after an animation step outside NOTIFY and then the expiry, the next animation step paints phase 0 |
| PlainText.StatusOf | main.py:161-173 | reports the mode and the state; every state but ACTIVE reports 0, PAUSE included; a running ACTIVE timer reports the remaining time, which together with the elapsed time is the duration |
| PlainText.Tokenise | main.py:182-192 | a line is blank exactly when it is all whitespace and malformed exactly when it has one token; otherwise the command and argument are its first two tokens, upper-cased |
| PlainText.TokeniseWords | main.py:186-192 | no words is blank, one word is malformed, and from two words on only the first two count |
| PlainText.BareGetStatusIsMalformed | main.py:186-189 | a line whose only token is `GET_STATUS` is refused as malformed, with no change |
| PlainText.TokeniseCommand | main.py:186-192 | a command word and an argument word separated by any run of whitespace are read as both, upper-cased |
| PlainText.HandleStep | main.py:175-217 | no reply exactly for a blank line and the format error exactly for a one-token line, with no change; SET_MODE with a known mode makes the `set_mode` change and replies `OK` in every state, with an unknown mode the mode error; SET_STATE with a known state makes the `set_state` change and replies `OK` whether or not the edge is allowed, with an unknown state the state error; GET_STATUS replies with the status and changes nothing; any other command gets the unknown-command error with no change |
| PlainText.Dispatch | main.py:194-214 | each known upper-cased command runs its operation and is answered `OK` or with the status; unknown names and commands get their error reply and change nothing |
| PlainText.ModeOkWhenRefused | main.py:194-197 | a known mode name gets `OK: MODE=...` even outside IDLE, where nothing changes |
| PlainText.StateOkWhenRefused | main.py:201-204 | a known state name gets `OK: STATE=...` even when the transition is refused, and nothing changes |
| PlainText.Step | main.py:66-72 | no call of the control loop changes the mode except in IDLE, and the device stays IDLE when it does; a pixel showing the configured colour outside NOTIFY keeps doing so |
| PlainText.Run | main.py:230-233 | along any sequence of calls, outside NOTIFY the pixel keeps showing the configured colour of the current mode and state |
| PlainText.SetStateKeepsInv | main.py:80-116 | a transition keeps the invariant |
| PlainText.CommandKeepsInv | main.py:175-215 | every serial command line keeps the invariant |
| PlainText.StepKeepsInv | main.py:229-233 | every call the control loop makes keeps the invariant |
| PlainText.RunKeepsInv | main.py:229-233 | any sequence of calls keeps the invariant |
| PlainText.ReachableSatisfiesInv | main.py:55-60 | from the initial values: IDLE has both timer fields 0, every other state carries the current mode's full duration, and outside NOTIFY the pixel shows the configured colour |
| PlainText.Device.constructor | main.py:55-60 | the initial values, with the boot-time `set_state(STATE_IDLE)` refused |
| PlainText.Device.UpdateLed | main.py:118-122 | the pixel shows the configured colour of the current mode and state |
| PlainText.Device.SetMode | main.py:62-78 | updates the fields as `SetModeStep` does and keeps the invariant |
| PlainText.Device.SetState | main.py:80-116 | updates the fields as `SetStateStep` does, changes nothing on refusal, and keeps the invariant |
| PlainText.Device.CheckTimer | main.py:124-133 | updates the fields as `CheckTimerStep` does and keeps the invariant |
| PlainText.Device.BlinkNotify | main.py:135-159 | updates `fade_start` and the pixel as `BlinkStep` does |
| PlainText.Device.GetStatus | main.py:161-173 | builds the record and patches it so that it equals `StatusOf` |
| PlainText.Device.HandleSerialCommand | main.py:182-214 | tokenises one line and dispatches it with the reply and state change of `HandleStep` |
| PlainText.Device.Tick | main.py:230-233 | one pass of the main loop: the command at one clock reading, then the expiry test at another, then the animation step, ending in the snapshot those step functions give in that order, with the invariant kept |

## Left out

- The NeoPixel driver: `pixels[0] = ...; pixels.write()` is the assignment of the `led` field.
- The serial transport: `select.poll`, `sys.stdin.readline` and `print`. A reply is a datatype value returned by the dispatcher, and the firmware's events are a log field. The endless `while True` loop and its `time.sleep` are left out: `Device.Tick` is one pass of it, and `Run` stands for any sequence of calls.
- JSON: a firmware request is the decoded record `Request(action, mode, state)`, with missing keys as the empty string. A line `json.loads` rejects is `NotJson`, answered "Invalid JSON", as under CPython, where the rejection is a `json.JSONDecodeError`. MicroPython's `json` raises `ValueError` and may have no `JSONDecodeError`; there the `except json.JSONDecodeError` clause itself would fail. That behaviour is not modelled. A value of the wrong type, which ends in the catch-all handler, is not modelled. The wording of the JSON replies is not modelled either.
- The plain-text reply strings (`OK: MODE=DEV`, `STATUS: mode,state,remaining`) are modelled as reply kinds, without their formatting.
- The diagnostic `print` lines of `main.py` (`set_mode`, `set_state`, `check_timer`) are left out, because they change no state. The startup banner and the firmware's `ready` event are left out for the same reason.
- Firmware.BlinkStep and PlainText.BlinkStep read one tick count per call, where `blink_notify` calls `time.ticks_ms()` twice (once for `fade_start`, once for the phase). So the phase 0 that `ExpiryRestartsFade` proves holds only up to the ticks that pass between the two reads.
- The sine brightness and the float channel scaling of `blink_notify`: the `fade` parameter stands for them. The bound [0.3, 1.0] on the brightness is therefore not proved.
- Clocks: `time.time()` and `time.ticks_ms()` are the `now` and `ticks` parameters. They are integers, so `int(...)` in `get_status` is the identity. `ticks_diff` wrap-around is not modelled.
- Firmware.Device.SetState, Firmware.Device.CheckTimer, Firmware.Device.HandleSerialCommand and Firmware.Device.Tick require `now >= clock` (for `Tick`, `clock <= nowCmd <= nowTimer`): the wall clock does not go back between calls. The ghost field `clock` is its last reading. The script itself does not check this. It is needed only for the invariant that the progress saved at PAUSE is never negative.
- Unicode: `upper()` and `split()` are modelled on ASCII letters and ASCII whitespace, as MicroPython implements them.
