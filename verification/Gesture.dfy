/**
The gesture detector of one GPIO: the value-level transition, and the class
whose methods carry it out field by field.

Times are milliseconds of a u64 clock. The detector only compares saturating
differences of them, so no width has to be modelled.
*/
module Gesture {
  import opened Wrappers
  import opened Time
  import opened Messages

  const MAX_EVENTS_PER_SAMPLE: nat := 16

  datatype Timing = Timing(debounce: nat, doubleClick: nat, longPress: nat)

  datatype DetectorState = DetectorState(
    stable: bool,
    candidate: bool,
    candidateSince: nat,
    pressedSince: Option<nat>,
    longPressEmitted: bool,
    pendingClickSince: Option<nat>,
    secondClickInProgress: bool)

  function Initial(active: bool, now: nat): DetectorState {
    DetectorState(active, active, now, if active then Some(now) else None, false, None, false)
  }

  /** The first third of a sample: an outlived pending click is reported. */
  function Expire(d: DetectorState, active: bool, now: nat, tm: Timing): (DetectorState, seq<InputEvent>) {
    if d.pendingClickSince.Some?
       && Elapsed(now, d.pendingClickSince.value) > tm.doubleClick
       && !(active && d.candidate != d.stable && d.candidate
            && Elapsed(d.candidateSince, d.pendingClickSince.value) <= tm.doubleClick)
    then (d.(pendingClickSince := None, secondClickInProgress := false), [Click])
    else (d, [])
  }

  /** The second third: the raw level is debounced and edges are committed. */
  function Settle(d: DetectorState, active: bool, now: nat, tm: Timing): (DetectorState, seq<InputEvent>) {
    if active != d.candidate then
      (d.(candidate := active, candidateSince := now), [])
    else if d.candidate == d.stable || Elapsed(now, d.candidateSince) < tm.debounce then
      (d, [])
    else if d.candidate then
      var second := d.pendingClickSince.Some?
                    && Elapsed(d.candidateSince, d.pendingClickSince.value) <= tm.doubleClick;
      (d.(stable := true, pressedSince := Some(now), longPressEmitted := false, secondClickInProgress := second,
          pendingClickSince := if second then None else d.pendingClickSince),
       [OffToOn])
    else if d.longPressEmitted then
      (d.(stable := false, pressedSince := None, secondClickInProgress := false), [OnToOff])
    else if d.secondClickInProgress then
      (d.(stable := false, pressedSince := None, secondClickInProgress := false, pendingClickSince := None),
       [OnToOff, DoubleClick])
    else
      (d.(stable := false, pressedSince := None, pendingClickSince := Some(now)), [OnToOff])
  }

  /** The last third: a press held to the threshold is reported once. */
  function Hold(d: DetectorState, now: nat, tm: Timing): (DetectorState, seq<InputEvent>) {
    if d.stable && !d.longPressEmitted && d.pressedSince.Some?
       && Elapsed(now, d.pressedSince.value) >= tm.longPress
    then (d.(longPressEmitted := true), [LongPress])
    else (d, [])
  }

  /** One sample. */
  function Step(d: DetectorState, active: bool, now: nat, tm: Timing): (DetectorState, seq<InputEvent>) {
    var (d1, e1) := Expire(d, active, now, tm);
    var (d2, e2) := Settle(d1, active, now, tm);
    var (d3, e3) := Hold(d2, now, tm);
    (d3, e1 + e2 + e3)
  }

  /** A sample can never report more than a click, an edge with its gesture, and a long press. */
  lemma StepEmitsAtMostThree(d: DetectorState, active: bool, now: nat, tm: Timing)
    ensures |Step(d, active, now, tm).1| <= 3
  {
    var (d1, e1) := Expire(d, active, now, tm);
    var (d2, e2) := Settle(d1, active, now, tm);
    if e2 == [OnToOff, DoubleClick] {
      assert !d2.stable;
    }
  }

  /** What a bounded vector holds after events were pushed, the overflow silently dropped. */
  function Pushed(items: seq<InputEvent>, events: seq<InputEvent>): seq<InputEvent> {
    var all := items + events;
    if |all| <= MAX_EVENTS_PER_SAMPLE then all else all[..MAX_EVENTS_PER_SAMPLE]
  }

  /** The fixed-capacity output vector a sample is reported into. */
  class EventVec {
    var items: seq<InputEvent>

    ghost predicate Valid()
      reads this
    {
      |items| <= MAX_EVENTS_PER_SAMPLE
    }

    constructor ()
      ensures Valid() && items == []
    {
      items := [];
    }

    method Push(event: InputEvent)
      requires Valid()
      modifies this
      ensures Valid() && items == Pushed(old(items), [event])
    {
      if |items| < MAX_EVENTS_PER_SAMPLE {
        items := items + [event];
      } else {
        assert (items + [event])[..MAX_EVENTS_PER_SAMPLE] == items;
      }
    }
  }

  class GestureDetector {
    var stable: bool
    var candidate: bool
    var candidateSince: nat
    var pressedSince: Option<nat>
    var longPressEmitted: bool
    var pendingClickSince: Option<nat>
    var secondClickInProgress: bool

    ghost function State(): DetectorState
      reads this
    {
      DetectorState(stable, candidate, candidateSince, pressedSince, longPressEmitted,
                    pendingClickSince, secondClickInProgress)
    }

    constructor ()
      ensures State() == Initial(false, 0)
    {
      stable, candidate, candidateSince, pressedSince := false, false, 0, None;
      longPressEmitted, pendingClickSince, secondClickInProgress := false, None, false;
    }

    method Initialize(active: bool, now: nat)
      modifies this
      ensures State() == Initial(active, now)
    {
      stable := active;
      candidate := active;
      candidateSince := now;
      pressedSince := if active then Some(now) else None;
      longPressEmitted := false;
      pendingClickSince := None;
      secondClickInProgress := false;
    }

    /** The pending-click deadline, read before the new level is looked at. */
    method ExpirePending(active: bool, now: nat, tm: Timing, output: EventVec)
      requires output.Valid()
      modifies this, output
      ensures output.Valid()
      ensures State() == Expire(old(State()), active, now, tm).0
      ensures output.items == Pushed(old(output.items), Expire(old(State()), active, now, tm).1)
    {
      if pendingClickSince.Some? {
        var since := pendingClickSince.value;
        var secondPressStartedInWindow :=
          active && candidate != stable && candidate && Elapsed(candidateSince, since) <= tm.doubleClick;
        if Elapsed(now, since) > tm.doubleClick && !secondPressStartedInWindow {
          output.Push(Click);
          pendingClickSince := None;
          secondClickInProgress := false;
        }
      }
    }

    /** The debounce of the raw level and the edge it may commit. */
    method Debounce(active: bool, now: nat, tm: Timing, output: EventVec)
      requires output.Valid()
      modifies this, output
      ensures output.Valid()
      ensures State() == Settle(old(State()), active, now, tm).0
      ensures output.items == Pushed(old(output.items), Settle(old(State()), active, now, tm).1)
    {
      ghost var items0 := output.items;
      if active != candidate {
        candidate := active;
        candidateSince := now;
      } else if candidate != stable && Elapsed(now, candidateSince) >= tm.debounce {
        stable := candidate;
        if stable {
          output.Push(OffToOn);
          pressedSince := Some(now);
          longPressEmitted := false;
          secondClickInProgress :=
            pendingClickSince.Some? && Elapsed(candidateSince, pendingClickSince.value) <= tm.doubleClick;
          if secondClickInProgress {
            pendingClickSince := None;
          }
        } else {
          output.Push(OnToOff);
          if longPressEmitted {
            pressedSince := None;
            secondClickInProgress := false;
          } else if secondClickInProgress {
            output.Push(DoubleClick);
            PushedTwice(items0, [OnToOff], [DoubleClick]);
            pendingClickSince := None;
            secondClickInProgress := false;
            pressedSince := None;
          } else {
            pendingClickSince := Some(now);
            pressedSince := None;
          }
        }
      }
    }

    /** The long-press deadline of the press now held. */
    method ReportLongPress(now: nat, tm: Timing, output: EventVec)
      requires output.Valid()
      modifies this, output
      ensures output.Valid()
      ensures State() == Hold(old(State()), now, tm).0
      ensures output.items == Pushed(old(output.items), Hold(old(State()), now, tm).1)
    {
      if stable && !longPressEmitted && pressedSince.Some?
         && Elapsed(now, pressedSince.value) >= tm.longPress {
        output.Push(LongPress);
        longPressEmitted := true;
      }
    }

    method Update(active: bool, now: nat, tm: Timing, output: EventVec)
      requires output.Valid()
      modifies this, output
      ensures output.Valid()
      ensures State() == Step(old(State()), active, now, tm).0
      ensures output.items == Pushed(old(output.items), Step(old(State()), active, now, tm).1)
    {
      ghost var d0, items0 := State(), output.items;
      ExpirePending(active, now, tm, output);
      ghost var d1, e1 := State(), Expire(d0, active, now, tm).1;
      Debounce(active, now, tm, output);
      ghost var d2, e2 := State(), Settle(d1, active, now, tm).1;
      ReportLongPress(now, tm, output);
      PushedTwice(items0, e1, e2);
      PushedTwice(items0, e1 + e2, Hold(d2, now, tm).1);
    }
  }

  lemma PushedTwice(items: seq<InputEvent>, a: seq<InputEvent>, b: seq<InputEvent>)
    requires |items| <= MAX_EVENTS_PER_SAMPLE
    ensures Pushed(Pushed(items, a), b) == Pushed(items, a + b)
  {
    assert items + a + b == items + (a + b);
  }
}
