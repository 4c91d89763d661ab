/** The motor side of the car controller: four PWM duty cycles, the drive
    commands that set them, and the turn-sensitivity scaling of the slower
    wheel.  Hardware access (GPIO setup, PWM start/stop) is not modelled:
    a command is the four duty-cycle values it writes.
 */
module Motors {

  /** The command an output pattern shows, when it shows one. */
  datatype Option<+T> = None | Some(value: T)

  /** Duty cycle of one PWM channel, in whole percent. */
  type Percent = p: int | 0 <= p <= 100

  /** Configured turn sensitivity, in percent of full speed. */
  const TurnSensitivity: int := 60

  /** Factor applied to the slower wheel of a forward turn, in percent:
      one minus the configured sensitivity. */
  const TurnFactor: int := 100 - TurnSensitivity

  /** The four channel duty cycles: right motor forward/reverse, left motor
      forward/reverse. */
  datatype Outputs = Outputs(rightForward: Percent, rightReverse: Percent,
                             leftForward: Percent, leftReverse: Percent)

  /** Every channel at zero: motors stopped. */
  const AllOff: Outputs := Outputs(0, 0, 0, 0)

  /** The intended motion that a group of four channel writes expresses. */
  datatype Command =
    | Idle
    | Forward
    | Reverse
    | ForwardLeft
    | ForwardRight
    | SpinClockwise
    | SpinCounterClockwise

  /** No motor is driven forward and in reverse at the same time. */
  predicate SideSafe(o: Outputs) {
    (o.rightForward == 0 || o.rightReverse == 0) &&
    (o.leftForward == 0 || o.leftReverse == 0)
  }

  /** Scales a speed by the turn factor, truncated to whole percent. */
  function ApplySensitivity(base: Percent): (r: Percent)
    ensures r <= base
    ensures r * 100 <= base * TurnFactor < r * 100 + 100
    ensures base == 100 ==> r == TurnFactor && 0 < r < 100
  {
    base * TurnFactor / 100
  }

  /** The four duty cycles a drive command writes. */
  function Apply(c: Command): (o: Outputs)
    ensures SideSafe(o)
    ensures o == AllOff <==> c == Idle
    ensures c == ForwardLeft ==> 0 < o.leftForward < o.rightForward == 100
    ensures c == ForwardRight ==> 0 < o.rightForward < o.leftForward == 100
    ensures (o.rightReverse > 0 && o.leftReverse > 0) <==> c == Reverse
    ensures (o.rightReverse > 0 && o.leftForward > 0) <==> c == SpinClockwise
    ensures (o.rightForward > 0 && o.leftReverse > 0) <==> c == SpinCounterClockwise
  {
    match c
    case Idle => AllOff
    case Forward => Outputs(100, 0, 100, 0)
    case Reverse => Outputs(0, 100, 0, 100)
    case ForwardLeft => Outputs(100, 0, ApplySensitivity(100), 0)
    case ForwardRight => Outputs(ApplySensitivity(100), 0, 100, 0)
    case SpinClockwise => Outputs(0, 100, 100, 0)
    case SpinCounterClockwise => Outputs(100, 0, 0, 100)
  }

  /** Recovers the command whose pattern the outputs show, if any: the
      seven rows of `Apply` read backwards (`ApplySensitivity(100)` is
      `TurnFactor`). */
  function Decode(o: Outputs): (r: Option<Command>)
    ensures r.Some? ==> Apply(r.value) == o
    ensures forall c :: Apply(c) == o ==> r == Some(c)
  {
    if o == AllOff then Some(Idle)
    else if o == Outputs(100, 0, 100, 0) then Some(Forward)
    else if o == Outputs(0, 100, 0, 100) then Some(Reverse)
    else if o == Outputs(100, 0, TurnFactor, 0) then Some(ForwardLeft)
    else if o == Outputs(TurnFactor, 0, 100, 0) then Some(ForwardRight)
    else if o == Outputs(0, 100, 100, 0) then Some(SpinClockwise)
    else if o == Outputs(100, 0, 0, 100) then Some(SpinCounterClockwise)
    else None
  }

  /** The outputs before, between and after the four duty-cycle writes of a
      command, which are issued one channel at a time: right forward, right
      reverse, left forward, left reverse. */
  function Writes(o: Outputs, c: Command): (w: seq<Outputs>)
    ensures |w| == 5 && w[0] == o && w[4] == Apply(c)
    // after the right motor's two writes, the right motor is as commanded and the left as before
    ensures w[2] == o.(rightForward := Apply(c).rightForward, rightReverse := Apply(c).rightReverse)
  {
    var n := Apply(c);
    var w1 := o.(rightForward := n.rightForward);
    var w2 := w1.(rightReverse := n.rightReverse);
    var w3 := w2.(leftForward := n.leftForward);
    [o, w1, w2, w3, w3.(leftReverse := n.leftReverse)]
  }

  /** Starting from safe outputs, a command's writes leave a motor driven
      both ways exactly when its forward channel is raised while the old
      reverse channel is still on, and only until the next write. */
  lemma TransientSafety(o: Outputs, c: Command)
    requires SideSafe(o)
    ensures SideSafe(Writes(o, c)[2]) && SideSafe(Writes(o, c)[4])
    ensures SideSafe(Writes(o, c)[1]) <==> !(Apply(c).rightForward > 0 && o.rightReverse > 0)
    ensures SideSafe(Writes(o, c)[3]) <==> !(Apply(c).leftForward > 0 && o.leftReverse > 0)
  {
  }

  /** Apply is injective: each command has its own output pattern. */
  lemma DecodeApply(c: Command)
    ensures Decode(Apply(c)) == Some(c)
  {
  }

  /** Every output pattern a command can produce keeps each side safe. */
  lemma DecodedIsSafe(o: Outputs)
    requires Decode(o).Some?
    ensures SideSafe(o)
  {
  }
}
