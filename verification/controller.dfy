/** The drive state machine of the car controller: three button flags, the
    spin flag with the time of the last wheel event, and the four motor
    outputs.  Each handler is a pure step from one state to the next.  Time
    is an integer number of milliseconds supplied by the caller.
 */
module Controller {
  import opened Motors

  /** A spin is cancelled once this many milliseconds pass without a wheel event. */
  const SpinTimeout: int := 200

  /** The mouse button of a click; `Other` stands for any further button
      the listener reports (side buttons), which has no flag of its own. */
  datatype Button = Left | Right | Middle | Other

  datatype State = State(
    left: bool,
    right: bool,
    middle: bool,
    spinActive: bool,
    lastWheel: int,
    out: Outputs)

  /** The three button flags are the same in both states. */
  predicate SameButtons(s: State, t: State) {
    s.left == t.left && s.right == t.right && s.middle == t.middle
  }

  /** The controller as constructed at time `t0`: nothing pressed, no spin,
      motors started at zero duty. */
  function Init(t0: int): (s: State)
    ensures !s.left && !s.right && !s.middle && !s.spinActive
    ensures s.lastWheel == t0
    ensures Decode(s.out) == Some(Idle)
  {
    State(false, false, false, false, t0, AllOff)
  }

  /** Writes the four duty cycles of a command; nothing else changes. */
  function Drive(s: State, c: Command): (r: State)
    ensures Decode(r.out) == Some(c)
    ensures r.(out := s.out) == s
  {
    DecodeApply(c);
    s.(out := Apply(c))
  }

  /** Stops all motors, unless the middle button is held. */
  function Stop(s: State): (r: State)
    ensures s.middle ==> r == s
    ensures !s.middle ==> r.out == AllOff && r.(out := s.out) == s
  {
    if !s.middle then Drive(s, Idle) else s
  }

  /** A wheel event asking for a spin: the spin pattern is written only when
      no spin is active yet; the wheel timestamp is refreshed either way. */
  function Spin(s: State, clockwise: bool, now: int): (r: State)
    ensures r.spinActive && r.lastWheel == now && SameButtons(s, r)
    ensures s.spinActive ==> r.out == s.out
    ensures !s.spinActive ==>
      Decode(r.out) == Some(if clockwise then SpinClockwise else SpinCounterClockwise)
  {
    var t := if s.spinActive then s
             else Drive(s.(spinActive := true),
                        if clockwise then SpinClockwise else SpinCounterClockwise);
    t.(lastWheel := now)
  }

  /** One poll of the spin watchdog at time `now`: a stale active spin is
      cleared and the motors are stopped (the stop itself is suppressed while
      the middle button is held); otherwise nothing happens. */
  function WatchdogStep(s: State, now: int): (r: State)
    ensures s.spinActive && now - s.lastWheel >= SpinTimeout ==>
      !r.spinActive && r.lastWheel == s.lastWheel && SameButtons(s, r) &&
      r.out == (if s.middle then s.out else AllOff)
    ensures !(s.spinActive && now - s.lastWheel >= SpinTimeout) ==> r == s
  {
    if s.spinActive && now - s.lastWheel >= SpinTimeout then
      Stop(s.(spinActive := false))
    else
      s
  }

  /** A mouse click: record the button's new state, then resolve the drive
      command from the flags and from whether this was a press or a release. */
  function OnClick(s: State, b: Button, pressed: bool): (r: State)
    // the clicked button's flag, and only that flag, takes the new state
    ensures r.left == (if b == Left then pressed else s.left)
    ensures r.right == (if b == Right then pressed else s.right)
    ensures r.middle == (if b == Middle then pressed else s.middle)
    // clicks leave the spin state alone
    ensures r.spinActive == s.spinActive && r.lastWheel == s.lastWheel
    // whichever click leaves both sides held means reverse
    ensures r.left && r.right ==> Decode(r.out) == Some(Reverse)
    // a single press
    ensures pressed && b == Left && !s.right ==> Decode(r.out) == Some(ForwardLeft)
    ensures pressed && b == Right && !s.left ==> Decode(r.out) == Some(ForwardRight)
    ensures pressed && b == Middle && !(s.left && s.right) ==> Decode(r.out) == Some(Forward)
    ensures pressed && b == Other && !(s.left && s.right) ==> r.out == s.out
    // a release: cruise on while the middle button is held, stop otherwise
    ensures !pressed && !(r.left && r.right) ==>
      Decode(r.out) == Some(if r.middle then Forward else Idle)
  {
    var t := match b
      case Left => s.(left := pressed)
      case Right => s.(right := pressed)
      case Middle => s.(middle := pressed)
      case Other => s;
    if t.left && t.right then Drive(t, Reverse)
    else if pressed then
      match b
      case Left => Drive(t, ForwardLeft)
      case Right => Drive(t, ForwardRight)
      case Middle => Drive(t, Forward)
      case Other => t
    else if !t.middle then Stop(t)
    else Drive(t, Forward)
  }

  /** A wheel event: scrolling up spins clockwise, down counter-clockwise,
      and a purely horizontal scroll does nothing. */
  function OnScroll(s: State, dy: int, now: int): (r: State)
    ensures SameButtons(s, r)
    ensures dy == 0 ==> r == s
    ensures dy != 0 ==> r.spinActive && r.lastWheel == now
    // an active spin is re-armed without rewriting the motors, in either direction
    ensures dy != 0 && s.spinActive ==> r.out == s.out
    ensures dy > 0 && !s.spinActive ==> Decode(r.out) == Some(SpinClockwise)
    ensures dy < 0 && !s.spinActive ==> Decode(r.out) == Some(SpinCounterClockwise)
  {
    if dy > 0 then Spin(s, true, now)
    else if dy < 0 then Spin(s, false, now)
    else s
  }
}
