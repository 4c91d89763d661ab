# Mouse-driven car: drive state machine

A Dafny model of the `CarController` in `raspberry-pi/car_control.py`. The
controller turns mouse events into duty cycles for two motors. Each motor has
a forward and a reverse PWM channel. The state is three button flags, a
`spin_active` flag, the time of the last wheel event, and the four duty
cycles. Three kinds of event change it:

- a click (button, pressed/released);
- a wheel event (vertical delta `dy`, at time `now`);
- one poll of the spin watchdog (at time `now`).

Each event is a pure function from state to state. Lemmas then quantify over
arbitrary event sequences.

- `motors.dfy` (module `Motors`): duty cycles as whole percent. The turn
  factor is `100 - 60 = 40`, as on lines 16-17. Each drive command has its
  output pattern (`Apply`), and `Decode` inverts it.
- `controller.dfy` (module `Controller`): the state record, `Stop`, the two
  spin methods (one function with a direction flag), one watchdog poll, and
  the click and scroll handlers.
- `traces.dfy` (module `Traces`): events, `Run` over a sequence of events,
  and the properties that hold over every sequence.

Representation:

- Time is an integer number of milliseconds passed in by the caller. The
  0.2 s spin timeout becomes 200 and the 0.1 s poll sleep becomes 100.
- The construction-time `time.time()` becomes the parameter `t0` of `Init`.
- Buttons other than left, right and middle (pynput reports side buttons
  too) are modelled as `Other`. Such a click sets no flag. When left and
  right are both held, it re-issues Reverse, like any other click. Otherwise
  a press issues no command, and a release stops the car, or keeps it going
  forward while middle is held.
- Each command method writes its four channels one at a time (right
  forward, right reverse, left forward, left reverse). `Writes` lists the
  outputs between those writes. A handler's result is the outputs after the
  last write.

Behaviours of the code that the model states explicitly:

- Releasing one button of a left+right hold does not resume the turn of the
  button still held. It stops the car, or drives forward while middle is
  held (`ReleaseFromReverseStops`).
- A wheel event in the opposite direction during an active spin does not
  rewrite the motors. It only refreshes the timestamp
  (`OppositeScrollKeepsDirection`).
- The watchdog clears `spin_active` even when the stop it requests is
  suppressed because the middle button is held. A spin started while middle
  is held is therefore never stopped by the watchdog: the first stale poll
  clears the flag, and no later poll fires (`SpinUnderMiddleNeverStops`).
  Releasing middle still stops it (`MiddleReleaseStopsSpin`).
- The watchdog also stops a turn whose button is still held, if a spin was
  active when the button was pressed (`WatchdogCancelsHeldTurn`), unless the
  middle button is held (`MiddleKeepsHeldTurn`).
- Between the channel writes of one handler, a motor can be driven forward
  and in reverse at once. For example, a left press during a clockwise spin
  first raises the right forward channel while the right reverse channel is
  still at 100 (`LeftPressDuringSpinPassesThroughBothWays`). After every
  handler, each motor is safe again (`RunFromInitIsSafe`).

## Model

| member | source | states |
|---|---|---|
| Motors.ApplySensitivity | raspberry-pi/car_control.py:48-50 | the reduced speed is the base speed times the turn factor, truncated to whole percent; full speed reduces to a speed strictly between stop and full |
| Motors.Apply | raspberry-pi/car_control.py:53-109 | every command pattern keeps each motor from being driven forward and in reverse together; only Idle is all-off; a left turn runs the left wheel slower than the right and a right turn the reverse; both reverse channels on means Reverse; opposite channels on means the matching spin |
| Motors.Decode | raspberry-pi/car_control.py:53-109 | recovers the command from its four duty cycles, and is defined exactly on the seven command patterns |
| Motors.DecodeApply | raspberry-pi/car_control.py:53-109 | no two commands write the same four duty cycles |
| Motors.Writes | raspberry-pi/car_control.py:53-109 | the channel writes of a command leave the outputs as the command's pattern after the last write, and the right motor is already as commanded while the left is unchanged after the second write |
| Motors.TransientSafety | raspberry-pi/car_control.py:53-130 | from safe outputs, between two channel writes a motor is driven both ways exactly when its forward channel is raised while its old reverse channel is still on; after each motor's pair of writes both motors are safe |
| Motors.DecodedIsSafe | raspberry-pi/car_control.py:53-130 | any output that shows a command pattern has at most one non-zero channel per motor |
| Controller.Drive | raspberry-pi/car_control.py:53-130 | writing a command sets the outputs to that command's pattern and leaves the button flags, the spin flag and the wheel time as they were |
| Controller.Init | raspberry-pi/car_control.py:20-46 | construction starts with no button held, no spin, the wheel time set to the construction time, and all motors at zero |
| Controller.Stop | raspberry-pi/car_control.py:124-130 | with middle held nothing changes at all; otherwise all four channels become zero and nothing else changes |
| Controller.Spin | raspberry-pi/car_control.py:89-112 | the spin pattern is written and the flag set only when no spin is active; an active spin keeps its outputs; the wheel time is refreshed either way; buttons never change |
| Controller.WatchdogStep | raspberry-pi/car_control.py:114-121 | a stale active spin (at least 200 ms since the last wheel event) is cleared and the motors stopped, except that the outputs stay as they are while middle is held; any other poll leaves the state unchanged |
| Controller.OnClick | raspberry-pi/car_control.py:143-172 | only the clicked button's flag takes the new state; the spin state is untouched; any click that leaves left and right held gives Reverse; a single left, right or middle press gives ForwardLeft, ForwardRight or Forward; any other release gives Forward while middle is held and all-off otherwise |
| Controller.OnScroll | raspberry-pi/car_control.py:175-181 | dy of zero changes nothing; a non-zero dy leaves the spin active with the wheel time refreshed; an active spin keeps its outputs in either direction; otherwise up spins clockwise and down counter-clockwise; buttons never change |
| Traces.StepPreservesInv | raspberry-pi/car_control.py:114-181 | every click, wheel event and poll leaves the outputs showing one of the command patterns |
| Traces.RunPreservesInv | raspberry-pi/car_control.py:114-181 | any sequence of events keeps the outputs showing one of the command patterns |
| Traces.RunFromInitIsSafe | raspberry-pi/car_control.py:43-130 | from construction, after every click, wheel event and poll of any sequence, no motor is driven forward and in reverse at once |
| Traces.ClicksKeepSpinState | raspberry-pi/car_control.py:143-172 | a sequence of clicks leaves the spin flag and the wheel time as they were |
| Traces.NonClicksKeepButtons | raspberry-pi/car_control.py:89-121 | a sequence of wheel events and polls leaves the three button flags as they were |
| Traces.ScrollingKeepsSpinning | raspberry-pi/car_control.py:89-121 | while wheel events keep coming, in either direction, and every poll comes less than 200 ms after the latest one, the spin stays active, the motor outputs never change, and no button flag changes |
| Traces.EarlyPollsChangeNothing | raspberry-pi/car_control.py:114-121 | polls that come before the timeout of an active spin, or any polls while no spin is active, leave the state unchanged |
| Traces.FirstLatePoll | raspberry-pi/car_control.py:116-121 | polls each at most `gap` after the one before, the first before `deadline + gap`, reach the deadline less than `gap` late, and no earlier poll is at or after it |
| Traces.SpinCancelledWithinOnePoll | raspberry-pi/car_control.py:114-130 | a spin with no further wheel events, under polls each at most `gap` after the one before, is cancelled by a poll in [200, 200 + gap) ms after the last wheel event; earlier polls do nothing and later polls change nothing; the motors end at zero unless middle is held |
| Traces.CruiseSurvivesNestedPress | raspberry-pi/car_control.py:143-172 | from any state, pressing middle, then pressing and releasing left, ends driving straight forward |
| Traces.ReleaseFromReverseStops | raspberry-pi/car_control.py:151-172 | left then right held gives Reverse; then releasing right gives all-off, not a left turn |
| Traces.WatchdogCancelsHeldTurn | raspberry-pi/car_control.py:114-130 | a left press during a clockwise spin gives a left turn, and a poll at least 200 ms after the wheel event stops all motors while left is still held |
| Traces.LeftPressDuringSpinPassesThroughBothWays | raspberry-pi/car_control.py:53-96 | after a wheel-up from construction, a left press ends in a left turn, but its first channel write leaves the right motor driven forward and in reverse at once |
| Traces.PollsUnderMiddleKeepOutputs | raspberry-pi/car_control.py:114-130 | while middle is held, any sequence of polls leaves the motor outputs and the button flags as they were |
| Traces.MiddleKeepsHeldTurn | raspberry-pi/car_control.py:114-130 | with middle held, a left press during a clockwise spin turns left, and a stale poll clears the spin flag but keeps the left turn with left still held |
| Traces.SpinUnderMiddleNeverStops | raspberry-pi/car_control.py:114-130 | a clockwise spin started while middle is held keeps its pattern after any sequence of polls, however late |
| Traces.MiddleReleaseStopsSpin | raspberry-pi/car_control.py:165-169 | a clockwise spin started while middle is held is stopped, all channels at zero, when middle is released |
| Traces.OppositeScrollKeepsDirection | raspberry-pi/car_control.py:89-112 | a wheel-down event during a clockwise spin keeps the clockwise pattern but takes its own time as the wheel time |

## Left out

- GPIO setup, PWM start and stop, and `gpio.cleanup` (lines 28-46 and 133-140) are hardware I/O. The four PWM channels are modelled as the four duty-cycle fields of `Outputs`.
- The pynput `Listener`, `control_with_mouse` and the `__main__` / `KeyboardInterrupt` handling (lines 184-200) only deliver events and manage the process.
- The watchdog thread, its `while True` loop and `time.sleep(0.1)` (lines 116-121, 186-188) are concurrency. One poll is `WatchdogStep` with an explicit `now`. Polling is a sequence of `Tick` events, each at most `gap` after the one before. `gap` is a parameter. The lemmas need no lower bound, so they also hold for the real loop, whose polls are at least 100 ms apart because of the sleep. The sleep plus the time of the check and of the scheduler has no bound in the source. The model interleaves events one at a time, so it does not cover a race between the two threads.
- SpinCancelledWithinOnePoll: the cancellation latency is bounded by the parameter `gap`, not by a fixed 300 ms. The source sleeps 100 ms after each check, so consecutive polls are at least, not at most, 100 ms apart, and their upper bound depends on scheduling.
- FirstLatePoll: bounded by the same parameter `gap`, for the same reason.
- Controller.Drive: a handler's four channel writes are one update of the state. The intermediate outputs are stated separately by `Motors.Writes`, which the handlers do not step through. Between writes the source passes through states such as (100, 100, 100, 0).
- `print` calls are logging only.
- Motors.ApplySensitivity: uses integer percent. The source computes `100 * (1 - 0.6)` in floating point, which writes a duty cycle within rounding error of 40. The model writes exactly 40.
- Traces.ScrollingKeepsSpinning: "the motors are not rewritten" is stated as unchanged outputs. The model does not count writes to the PWM channels.
- Wheel deltas are integers and time is integer milliseconds. Only the sign of `dy` and the difference `now - last` matter in the code.
