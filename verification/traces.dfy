/** Sequences of input events and watchdog polls driven through the
    controller, and the properties that hold over every such sequence.
 */
module Traces {
  import opened Motors
  import opened Controller

  /** One input to the state machine: a mouse click, a wheel event at time
      `now`, or a watchdog poll at time `now`. */
  datatype Event =
    | Click(button: Button, pressed: bool)
    | Scroll(dy: int, now: int)
    | Tick(now: int)

  function Step(s: State, e: Event): State {
    match e
    case Click(b, p) => OnClick(s, b, p)
    case Scroll(dy, now) => OnScroll(s, dy, now)
    case Tick(now) => WatchdogStep(s, now)
  }

  /** The state after handling the events in order. */
  function Run(s: State, es: seq<Event>): State
    decreases |es|
  {
    if |es| == 0 then s else Run(Step(s, es[0]), es[1..])
  }

  /** The outputs always show one of the drive command patterns. */
  predicate Inv(s: State) {
    Decode(s.out).Some?
  }

  lemma StepPreservesInv(s: State, e: Event)
    requires Inv(s)
    ensures Inv(Step(s, e))
  {
  }

  lemma {:induction false} RunAppend(s: State, a: seq<Event>, b: seq<Event>)
    ensures Run(s, a + b) == Run(Run(s, a), b)
    decreases |a|
  {
    if |a| > 0 {
      assert (a + b)[1..] == a[1..] + b;
      RunAppend(Step(s, a[0]), a[1..], b);
    } else {
      assert a + b == b;
    }
  }

  lemma RunSingle(s: State, e: Event)
    ensures Run(s, [e]) == Step(s, e)
  {
    assert [e][1..] == [];
  }

  lemma {:induction false} RunPreservesInv(s: State, es: seq<Event>)
    requires Inv(s)
    ensures Inv(Run(s, es))
    decreases |es|
  {
    if |es| > 0 {
      StepPreservesInv(s, es[0]);
      RunPreservesInv(Step(s, es[0]), es[1..]);
    }
  }

  /** From the initial all-zero outputs, after every click, wheel event and
      watchdog poll of any sequence, no motor is driven forward and in
      reverse at once.  (Within one handler the channel writes can pass
      through such a state: see `LeftPressDuringSpinPassesThroughBothWays`.) */
  lemma RunFromInitIsSafe(t0: int, es: seq<Event>)
    ensures SideSafe(Run(Init(t0), es).out)
  {
    RunPreservesInv(Init(t0), es);
    DecodedIsSafe(Run(Init(t0), es).out);
  }

  /** Clicks never touch the spin flag or the wheel timestamp. */
  lemma {:induction false} ClicksKeepSpinState(s: State, es: seq<Event>)
    requires forall i :: 0 <= i < |es| ==> es[i].Click?
    ensures Run(s, es).spinActive == s.spinActive
    ensures Run(s, es).lastWheel == s.lastWheel
    decreases |es|
  {
    if |es| > 0 {
      ClicksKeepSpinState(Step(s, es[0]), es[1..]);
    }
  }

  /** Wheel events and watchdog polls never touch the button flags. */
  lemma {:induction false} NonClicksKeepButtons(s: State, es: seq<Event>)
    requires forall i :: 0 <= i < |es| ==> !es[i].Click?
    ensures SameButtons(s, Run(s, es))
    decreases |es|
  {
    if |es| > 0 {
      NonClicksKeepButtons(Step(s, es[0]), es[1..]);
    }
  }

  /** Wheel events in either direction, with every watchdog poll in between
      coming before the timeout measured from the latest wheel event. */
  predicate KeepsAlive(last: int, es: seq<Event>)
    decreases |es|
  {
    |es| == 0 ||
    match es[0]
    case Scroll(dy, now) => dy != 0 && KeepsAlive(now, es[1..])
    case Tick(now) => now - last < SpinTimeout && KeepsAlive(last, es[1..])
    case Click(_, _) => false
  }

  /** A user who keeps scrolling keeps the spin alive indefinitely, and the
      motors are never rewritten, even when the direction is reversed. */
  lemma {:induction false} ScrollingKeepsSpinning(s: State, es: seq<Event>)
    requires s.spinActive && KeepsAlive(s.lastWheel, es)
    ensures Run(s, es).spinActive
    ensures Run(s, es).out == s.out
    ensures SameButtons(s, Run(s, es))
    decreases |es|
  {
    if |es| > 0 {
      ScrollingKeepsSpinning(Step(s, es[0]), es[1..]);
    }
  }

  predicate AllTicks(es: seq<Event>) {
    forall i :: 0 <= i < |es| ==> es[i].Tick?
  }

  /** Watchdog polls, each at most `gap` after the one before: the 100 ms
      sleep plus the time the check and the scheduler take.  No
      lower bound is needed, so the lemmas below also cover polls closer
      together than the sleep. */
  predicate Polling(es: seq<Event>, gap: int) {
    AllTicks(es) &&
    forall i :: 0 < i < |es| ==> es[i].now <= es[i - 1].now + gap
  }

  /** Polls that all come before the timeout of an active spin, or any polls
      while no spin is active, change nothing. */
  lemma {:induction false} EarlyPollsChangeNothing(s: State, es: seq<Event>)
    requires AllTicks(es)
    requires forall i :: 0 <= i < |es| ==> s.spinActive ==> es[i].now - s.lastWheel < SpinTimeout
    ensures Run(s, es) == s
    decreases |es|
  {
    if |es| > 0 {
      assert Step(s, es[0]) == s;
      EarlyPollsChangeNothing(s, es[1..]);
    }
  }

  /** Finds the first poll at or after `deadline`.  Polls at most `gap`
      apart that start before `deadline + gap` reach it less than `gap` late. */
  lemma {:induction false} FirstLatePoll(es: seq<Event>, deadline: int, gap: int) returns (k: nat)
    requires Polling(es, gap) && |es| > 0
    requires es[0].now < deadline + gap
    requires es[|es| - 1].now >= deadline
    ensures k < |es|
    ensures deadline <= es[k].now < deadline + gap
    ensures forall i :: 0 <= i < k ==> es[i].now < deadline
  {
    k := 0;
    while es[k].now < deadline
      invariant k < |es|
      invariant es[k].now < deadline + gap
      invariant forall i :: 0 <= i < k ==> es[i].now < deadline
      decreases |es| - k
    {
      k := k + 1;
    }
  }

  /** A spin left alone is cancelled by the first watchdog poll at or after
      the timeout, which comes less than one poll gap after it; earlier
      polls do nothing and later ones find nothing to do.  The motors end
      stopped unless the middle button is held. */
  lemma SpinCancelledWithinOnePoll(s: State, es: seq<Event>, gap: int) returns (k: nat)
    requires s.spinActive
    requires Polling(es, gap) && |es| > 0
    requires es[0].now < s.lastWheel + SpinTimeout + gap
    requires es[|es| - 1].now >= s.lastWheel + SpinTimeout
    ensures k < |es|
    ensures s.lastWheel + SpinTimeout <= es[k].now < s.lastWheel + SpinTimeout + gap
    ensures Run(s, es[..k]) == s
    ensures !Run(s, es[..k + 1]).spinActive
    ensures Run(s, es) == Run(s, es[..k + 1])
    ensures !Run(s, es).spinActive && SameButtons(s, Run(s, es))
    ensures Run(s, es).out == (if s.middle then s.out else AllOff)
  {
    k := FirstLatePoll(es, s.lastWheel + SpinTimeout, gap);
    EarlyPollsChangeNothing(s, es[..k]);
    var t := WatchdogStep(s, es[k].now);
    assert es[..k + 1] == es[..k] + [es[k]];
    RunAppend(s, es[..k], [es[k]]);
    assert Run(s, es[..k + 1]) == t;
    EarlyPollsChangeNothing(t, es[k + 1..]);
    assert es == es[..k + 1] + es[k + 1..];
    RunAppend(s, es[..k + 1], es[k + 1..]);
  }

  /** Holding the middle button through a press and release of the left
      one ends driving straight forward, from any state. */
  lemma CruiseSurvivesNestedPress(s: State)
    ensures Decode(Run(s, [Click(Middle, true), Click(Left, true), Click(Left, false)]).out)
            == Some(Forward)
  {
  }

  /** Pressing left then right reverses; releasing right while left is
      still held stops the car rather than resuming the left turn. */
  lemma ReleaseFromReverseStops(t0: int)
    ensures Decode(Run(Init(t0), [Click(Left, true), Click(Right, true)]).out) == Some(Reverse)
    ensures Decode(Run(Init(t0), [Click(Left, true), Click(Right, true), Click(Right, false)]).out)
            == Some(Idle)
  {
  }

  /** Scrolling down during a clockwise spin keeps spinning clockwise. */
  lemma OppositeScrollKeepsDirection(s: State, t1: int, t2: int)
    requires !s.spinActive
    ensures Decode(Run(s, [Scroll(1, t1), Scroll(-1, t2)]).out) == Some(SpinClockwise)
    ensures Run(s, [Scroll(1, t1), Scroll(-1, t2)]).lastWheel == t2
  {
    var es := [Scroll(1, t1), Scroll(-1, t2)];
    assert Run(s, es) == Run(OnScroll(s, 1, t1), es[1..]);
  }

  /** The watchdog also cancels a turn whose button is still held: a left
      press during a clockwise spin turns left, and the next stale poll
      stops the car although left is still pressed. */
  lemma WatchdogCancelsHeldTurn(t0: int, t1: int, t2: int)
    requires t2 - t1 >= SpinTimeout
    ensures Decode(Run(Init(t0), [Scroll(1, t1), Click(Left, true)]).out) == Some(ForwardLeft)
    ensures Run(Init(t0), [Scroll(1, t1), Click(Left, true), Tick(t2)]).left
    ensures Run(Init(t0), [Scroll(1, t1), Click(Left, true), Tick(t2)]).out == AllOff
  {
    var s1 := OnScroll(Init(t0), 1, t1);
    var s2 := OnClick(s1, Left, true);
    var s3 := WatchdogStep(s2, t2);
    RunAppend(Init(t0), [Scroll(1, t1)], [Click(Left, true)]);
    RunAppend(Init(t0), [Scroll(1, t1), Click(Left, true)], [Tick(t2)]);
    assert [Scroll(1, t1)] + [Click(Left, true)] == [Scroll(1, t1), Click(Left, true)];
    assert [Scroll(1, t1), Click(Left, true)] + [Tick(t2)] == [Scroll(1, t1), Click(Left, true), Tick(t2)];
    RunSingle(Init(t0), Scroll(1, t1));
    RunSingle(s1, Click(Left, true));
    RunSingle(s2, Tick(t2));
  }

  /** A left press during a clockwise spin rewrites the motors one channel
      at a time; after its first write the right motor has both its
      forward and its reverse channel at full duty. */
  lemma LeftPressDuringSpinPassesThroughBothWays(t0: int, t1: int)
    ensures Decode(Run(Init(t0), [Scroll(1, t1)]).out) == Some(SpinClockwise)
    ensures Decode(OnClick(Run(Init(t0), [Scroll(1, t1)]), Left, true).out) == Some(ForwardLeft)
    ensures !SideSafe(Writes(Run(Init(t0), [Scroll(1, t1)]).out, ForwardLeft)[1])
  {
  }

  /** While the middle button is held, watchdog polls never change the
      motors or the buttons: a stale spin only loses its flag. */
  lemma {:induction false} PollsUnderMiddleKeepOutputs(s: State, es: seq<Event>)
    requires s.middle && AllTicks(es)
    ensures Run(s, es).out == s.out
    ensures SameButtons(s, Run(s, es))
    decreases |es|
  {
    if |es| > 0 {
      PollsUnderMiddleKeepOutputs(Step(s, es[0]), es[1..]);
    }
  }

  /** With middle held, a left press during a clockwise spin turns left,
      and a stale poll clears the spin flag but keeps the left turn. */
  lemma MiddleKeepsHeldTurn(t0: int, t1: int, t2: int)
    requires t2 - t1 >= SpinTimeout
    ensures var r := Run(Init(t0), [Click(Middle, true), Scroll(1, t1), Click(Left, true), Tick(t2)]);
      r.left && !r.spinActive && Decode(r.out) == Some(ForwardLeft)
  {
    var es := [Click(Middle, true), Scroll(1, t1), Click(Left, true), Tick(t2)];
    var s1 := OnClick(Init(t0), Middle, true);
    var s2 := OnScroll(s1, 1, t1);
    var s3 := OnClick(s2, Left, true);
    RunSingle(Init(t0), es[0]);
    RunSingle(s1, es[1]);
    RunSingle(s2, es[2]);
    RunSingle(s3, es[3]);
    RunAppend(Init(t0), [es[0]], [es[1]]);
    RunAppend(Init(t0), [es[0], es[1]], [es[2]]);
    RunAppend(Init(t0), [es[0], es[1], es[2]], [es[3]]);
    assert [es[0]] + [es[1]] == [es[0], es[1]];
    assert [es[0], es[1]] + [es[2]] == [es[0], es[1], es[2]];
    assert [es[0], es[1], es[2]] + [es[3]] == es;
  }

  /** A spin started while the middle button is held is never stopped by
      the watchdog, however many polls follow and however late they are. */
  lemma SpinUnderMiddleNeverStops(t0: int, t1: int, es: seq<Event>)
    requires AllTicks(es)
    ensures Decode(Run(Init(t0), [Click(Middle, true), Scroll(1, t1)] + es).out) == Some(SpinClockwise)
  {
    var s1 := OnClick(Init(t0), Middle, true);
    var s2 := OnScroll(s1, 1, t1);
    RunSingle(Init(t0), Click(Middle, true));
    RunSingle(s1, Scroll(1, t1));
    RunAppend(Init(t0), [Click(Middle, true)], [Scroll(1, t1)]);
    assert [Click(Middle, true)] + [Scroll(1, t1)] == [Click(Middle, true), Scroll(1, t1)];
    RunAppend(Init(t0), [Click(Middle, true), Scroll(1, t1)], es);
    PollsUnderMiddleKeepOutputs(s2, es);
  }

  /** Only the watchdog leaves a spin under middle running: releasing
      middle stops it. */
  lemma MiddleReleaseStopsSpin(t0: int, t1: int)
    ensures Run(Init(t0), [Click(Middle, true), Scroll(1, t1), Click(Middle, false)]).out == AllOff
  {
    var es := [Click(Middle, true), Scroll(1, t1), Click(Middle, false)];
    var s1 := OnClick(Init(t0), Middle, true);
    var s2 := OnScroll(s1, 1, t1);
    RunSingle(Init(t0), es[0]);
    RunSingle(s1, es[1]);
    RunSingle(s2, es[2]);
    RunAppend(Init(t0), [es[0]], [es[1]]);
    RunAppend(Init(t0), [es[0], es[1]], [es[2]]);
    assert [es[0]] + [es[1]] == [es[0], es[1]];
    assert [es[0], es[1]] + [es[2]] == es;
  }
}
