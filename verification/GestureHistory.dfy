/**
The offline reading of a whole sampling history.

A history is the initial reading followed by the samples. From it alone the
debounced level, the presses and the full transcript of events are defined,
without reference to the detector's fields. The main theorem says that the
detector, run online over the history, reports exactly that transcript.
*/
module GestureHistory {
  import opened Wrappers
  import opened Messages
  import opened Gesture

  datatype Sample = Sample(active: bool, at: nat)

  type History = h: seq<Sample> | |h| > 0 witness [Sample(false, 0)]

  function Last(h: History): Sample { h[|h| - 1] }

  function Front(h: History): History
    requires |h| > 1
  {
    h[..|h| - 1]
  }

  ghost predicate Chronological(h: History) {
    forall i, j :: 0 <= i <= j < |h| ==> h[i].at <= h[j].at
  }

  /** The detector after the history, with everything it reported. */
  function Run(h: History, tm: Timing): (DetectorState, seq<InputEvent>) {
    if |h| == 1 then (Initial(h[0].active, h[0].at), [])
    else
      var (d, out) := Run(Front(h), tm);
      var (d', events) := Step(d, Last(h).active, Last(h).at, tm);
      (d', out + events)
  }

  // ---- Debounced level ---------------------------------------------------

  /** The raw level has not moved since reading j. */
  ghost predicate SteadyFrom(h: History, j: nat) {
    j < |h| && forall k :: j <= k < |h| ==> h[k].active == Last(h).active
  }

  /** Some reading lies at least the debounce time back and the raw level never moved since. */
  ghost predicate QuietSince(h: History, j: nat, debounce: nat) {
    j < |h| - 1 && SteadyFrom(h, j) && Last(h).at - h[j].at >= debounce
  }

  ghost predicate Settled(h: History, debounce: nat) {
    exists j: nat :: QuietSince(h, j, debounce)
  }

  /** The last level that settled. */
  ghost function Level(h: History, debounce: nat): bool {
    if |h| == 1 then h[0].active
    else if Settled(h, debounce) then Last(h).active
    else Level(Front(h), debounce)
  }

  /** When the raw level took its present value. */
  function RunStart(h: History): nat {
    if |h| == 1 || Last(h).active != Last(Front(h)).active then Last(h).at else RunStart(Front(h))
  }

  // ---- Presses -----------------------------------------------------------

  /**
  A debounced press: its physical start, its commit, the latest sample that still
  saw it held, and its release. The press found by the initial reading is `initial`.
  */
  datatype Press = Press(initial: bool, start: nat, commit: nat, held: Option<nat>, released: Option<nat>)

  ghost function Presses(h: History, debounce: nat): (ps: seq<Press>)
    ensures Level(h, debounce) ==> |ps| > 0
  {
    var at := Last(h).at;
    if |h| == 1 then
      if h[0].active then [Press(true, at, at, None, None)] else []
    else
      var ps := Presses(Front(h), debounce);
      var was, now := Level(Front(h), debounce), Level(h, debounce);
      if !was && now then ps + [Press(false, RunStart(h), at, Some(at), None)]
      else if was && now then ps[|ps| - 1 := ps[|ps| - 1].(held := Some(at))]
      else if was && !now then ps[|ps| - 1 := ps[|ps| - 1].(released := Some(at))]
      else ps
  }

  /** A press is long when a sample saw it still held at the threshold. */
  predicate IsLong(p: Press, tm: Timing) {
    p.held.Some? && p.held.value - p.commit >= tm.longPress
  }

  /** The release that may still open a double click: that of a short press that closed none itself. */
  function OpenRelease(ps: seq<Press>, tm: Timing): Option<nat>
    decreases |ps|, 0
  {
    if ps == [] || IsLong(ps[|ps| - 1], tm) || IsSecond(ps, tm) then None
    else ps[|ps| - 1].released
  }

  /** The last press started, physically, within the interval of an open release. */
  predicate IsSecond(ps: seq<Press>, tm: Timing)
    requires ps != []
    decreases |ps| - 1, 1
  {
    var open := OpenRelease(ps[..|ps| - 1], tm);
    open.Some? && ps[|ps| - 1].start <= open.value + tm.doubleClick
  }

  // ---- Transcript --------------------------------------------------------

  /** What one press reports between its commit and its release. */
  function PressEvents(p: Press, second: bool, tm: Timing): seq<InputEvent> {
    (if p.initial then [] else [OffToOn])
    + (if IsLong(p, tm) then [LongPress] else [])
    + (if p.released.Some? then [OnToOff] else [])
    + (if p.released.Some? && second && !IsLong(p, tm) then [DoubleClick] else [])
  }

  /** All presses in order; an open release that the next press misses was a click. */
  function AllPressEvents(ps: seq<Press>, tm: Timing): seq<InputEvent> {
    if ps == [] then []
    else
      var before := ps[..|ps| - 1];
      AllPressEvents(before, tm)
      + (if OpenRelease(before, tm).Some? && !IsSecond(ps, tm) then [Click] else [])
      + PressEvents(ps[|ps| - 1], IsSecond(ps, tm), tm)
  }

  /** The interval after a release is over and no press begun within it is still being made. */
  predicate Lapsed(h: History, release: nat, tm: Timing) {
    && Last(h).at > release + tm.doubleClick
    && !(Last(h).active && RunStart(h) <= release + tm.doubleClick)
  }

  ghost function Transcript(h: History, tm: Timing): seq<InputEvent> {
    var ps := Presses(h, tm.debounce);
    var open := OpenRelease(ps, tm);
    AllPressEvents(ps, tm) + (if open.Some? && Lapsed(h, open.value, tm) then [Click] else [])
  }

  // ---- The correspondence ------------------------------------------------

  /** How the detector's fields read the history. */
  ghost predicate Reads(d: DetectorState, h: History, tm: Timing) {
    var ps := Presses(h, tm.debounce);
    var open := OpenRelease(ps, tm);
    && d.stable == Level(h, tm.debounce)
    && d.candidate == Last(h).active
    && d.candidateSince == RunStart(h)
    && (if d.stable then
          var p := ps[|ps| - 1];
          && p.released.None?
          && p.commit <= Last(h).at
          && (p.held.Some? ==> p.commit <= p.held.value <= Last(h).at)
          && d.pressedSince == Some(p.commit)
          && d.longPressEmitted == IsLong(p, tm)
          && d.secondClickInProgress == IsSecond(ps, tm)
          && d.pendingClickSince.None?
        else
          && d.pressedSince.None?
          && !d.secondClickInProgress
          && (open.Some? ==> open.value <= Last(h).at)
          && (ps != [] ==> ps[|ps| - 1].released.Some?)
          && d.pendingClickSince == (if open.Some? && !Lapsed(h, open.value, tm) then open else None))
  }

  lemma {:induction false} RunStartIsStart(h: History)
    requires Chronological(h)
    ensures RunStart(h) <= Last(h).at
    ensures exists j: nat :: SteadyFrom(h, j) && h[j].at == RunStart(h)
    ensures forall j: nat :: SteadyFrom(h, j) ==> RunStart(h) <= h[j].at
  {
    var n := |h| - 1;
    assert SteadyFrom(h, n);
    if n > 0 && h[n].active == h[n - 1].active {
      var f := Front(h);
      RunStartIsStart(f);
      var j: nat :| SteadyFrom(f, j) && f[j].at == RunStart(f);
      SteadyExtends(h, j);
      forall j: nat | SteadyFrom(h, j)
        ensures RunStart(h) <= h[j].at
      {
        if j < n { SteadyExtends(h, j); }
      }
    } else if n > 0 {
      forall j: nat | SteadyFrom(h, j)
        ensures j == n
      {
        assert h[if j < n then n - 1 else n].active == h[n].active;
      }
    }
  }

  lemma SteadyExtends(h: History, j: nat)
    requires |h| > 1 && j < |h| - 1
    ensures SteadyFrom(h, j) <==> SteadyFrom(Front(h), j) && Last(h).active == Last(Front(h)).active
  {
    var f := Front(h);
    if SteadyFrom(h, j) {
      assert h[|h| - 2].active == Last(h).active;
    }
    if SteadyFrom(f, j) && Last(h).active == Last(f).active {
      forall k | j <= k < |h| ensures h[k].active == Last(h).active {
        if k < |f| { assert f[k] == h[k]; }
      }
    }
  }

  /** Settling is decided by the start of the current run of equal readings. */
  lemma SettledByRunStart(h: History, debounce: nat)
    requires Chronological(h) && |h| > 1
    ensures Settled(h, debounce) <==>
      Last(h).active == Last(Front(h)).active && Last(h).at - RunStart(h) >= debounce
  {
    var f := Front(h);
    RunStartIsStart(h);
    if Settled(h, debounce) {
      var j: nat :| QuietSince(h, j, debounce);
      SteadyExtends(h, j);
    }
    if Last(h).active == Last(f).active && Last(h).at - RunStart(h) >= debounce {
      RunStartIsStart(f);
      var j: nat :| SteadyFrom(f, j) && f[j].at == RunStart(f);
      SteadyExtends(h, j);
      assert QuietSince(h, j, debounce);
    }
  }

  // ---- One sample, by what it does to the last press ------------------------

  lemma PressAdded(ps: seq<Press>, p: Press, tm: Timing)
    requires !p.initial && p.released.None?
    ensures var ps' := ps + [p];
      var open := OpenRelease(ps, tm);
      && OpenRelease(ps', tm).None?
      && IsSecond(ps', tm) == (open.Some? && p.start <= open.value + tm.doubleClick)
      && AllPressEvents(ps', tm)
         == AllPressEvents(ps, tm) + (if open.Some? && !IsSecond(ps', tm) then [Click] else [])
            + [OffToOn] + (if IsLong(p, tm) then [LongPress] else [])
  {
    assert (ps + [p])[..|ps|] == ps;
  }

  lemma PressHeld(ps: seq<Press>, at: nat, tm: Timing)
    requires ps != [] && ps[|ps| - 1].released.None?
    requires ps[|ps| - 1].held.Some? ==> ps[|ps| - 1].held.value <= at
    ensures var p := ps[|ps| - 1];
      var ps' := ps[|ps| - 1 := p.(held := Some(at))];
      && OpenRelease(ps, tm).None? && OpenRelease(ps', tm).None?
      && IsSecond(ps', tm) == IsSecond(ps, tm)
      && IsLong(ps'[|ps| - 1], tm) == (IsLong(p, tm) || at - p.commit >= tm.longPress)
      && AllPressEvents(ps', tm) == AllPressEvents(ps, tm)
           + if IsLong(ps'[|ps| - 1], tm) && !IsLong(p, tm) then [LongPress] else []
  {
    var ps' := ps[|ps| - 1 := ps[|ps| - 1].(held := Some(at))];
    assert ps'[..|ps| - 1] == ps[..|ps| - 1];
  }

  lemma PressReleased(ps: seq<Press>, at: nat, tm: Timing)
    requires ps != [] && ps[|ps| - 1].released.None?
    ensures var p := ps[|ps| - 1];
      var ps' := ps[|ps| - 1 := p.(released := Some(at))];
      && OpenRelease(ps, tm).None?
      && OpenRelease(ps', tm) == (if IsLong(p, tm) || IsSecond(ps, tm) then None else Some(at))
      && AllPressEvents(ps', tm) == AllPressEvents(ps, tm) + [OnToOff]
           + if IsSecond(ps, tm) && !IsLong(p, tm) then [DoubleClick] else []
  {
    var ps' := ps[|ps| - 1 := ps[|ps| - 1].(released := Some(at))];
    assert ps'[..|ps| - 1] == ps[..|ps| - 1];
  }

  // ---- One sample, by what it does to the debounced level -----------------

  /** The detector's fields read the history, and its reports are the transcript. */
  ghost predicate Agrees(h: History, tm: Timing) {
    Reads(Run(h, tm).0, h, tm) && Run(h, tm).1 == Transcript(h, tm)
  }

  lemma {:induction false} IdleStep(h: History, tm: Timing)
    requires |h| > 1 && Chronological(h) && Agrees(Front(h), tm)
    requires !Level(Front(h), tm.debounce) && !Level(h, tm.debounce)
    ensures Agrees(h, tm)
  {
    hide OpenRelease, IsSecond, AllPressEvents, IsLong, PressEvents, SteadyFrom, QuietSince;
    var f := Front(h);
    SettledByRunStart(h, tm.debounce);
    RunStartIsStart(f);
    assert Presses(h, tm.debounce) == Presses(f, tm.debounce);
  }

  lemma {:induction false} RiseStep(h: History, tm: Timing)
    requires |h| > 1 && Chronological(h) && Agrees(Front(h), tm)
    requires !Level(Front(h), tm.debounce) && Level(h, tm.debounce)
    ensures Agrees(h, tm)
  {
    hide OpenRelease, IsSecond, AllPressEvents, PressEvents, SteadyFrom, QuietSince;
    var f := Front(h);
    SettledByRunStart(h, tm.debounce);
    RunStartIsStart(f);
    PressAdded(Presses(f, tm.debounce), Press(false, RunStart(h), Last(h).at, Some(Last(h).at), None), tm);
  }

  lemma {:induction false} HeldStep(h: History, tm: Timing)
    requires |h| > 1 && Chronological(h) && Agrees(Front(h), tm)
    requires Level(Front(h), tm.debounce) && Level(h, tm.debounce)
    ensures Agrees(h, tm)
  {
    hide OpenRelease, IsSecond, AllPressEvents, IsLong, PressEvents, SteadyFrom, QuietSince;
    SettledByRunStart(h, tm.debounce);
    assert Last(Front(h)).at <= Last(h).at;
    PressHeld(Presses(Front(h), tm.debounce), Last(h).at, tm);
  }

  lemma {:induction false} FallStep(h: History, tm: Timing)
    requires |h| > 1 && Chronological(h) && Agrees(Front(h), tm)
    requires Level(Front(h), tm.debounce) && !Level(h, tm.debounce)
    ensures Agrees(h, tm)
  {
    hide OpenRelease, IsSecond, AllPressEvents, IsLong, PressEvents, SteadyFrom, QuietSince;
    SettledByRunStart(h, tm.debounce);
    assert Last(Front(h)).at <= Last(h).at;
    PressReleased(Presses(Front(h), tm.debounce), Last(h).at, tm);
  }

  lemma {:induction false} DetectorReadsHistory(h: History, tm: Timing)
    requires Chronological(h)
    ensures Agrees(h, tm)
  {
    if |h| == 1 {
      var ps := Presses(h, tm.debounce);
      assert ps != [] ==> ps[..|ps| - 1] == [] && !IsSecond(ps, tm);
      assert AllPressEvents(ps, tm) == [];
    } else {
      var f := Front(h);
      DetectorReadsHistory(f, tm);
      match (Level(f, tm.debounce), Level(h, tm.debounce))
      case (false, false) => IdleStep(h, tm);
      case (false, true) => RiseStep(h, tm);
      case (true, true) => HeldStep(h, tm);
      case (true, false) => FallStep(h, tm);
    }
  }

  /** The main theorem: online detection equals the offline reading of the whole history. */
  lemma OnlineEqualsOffline(h: History, tm: Timing)
    requires Chronological(h)
    ensures Run(h, tm).1 == Transcript(h, tm)
  {
    DetectorReadsHistory(h, tm);
  }

  // ---- Consequences ------------------------------------------------------

  function SampleEvents(h: History, tm: Timing): seq<InputEvent>
    requires |h| > 1
  {
    Step(Run(Front(h), tm).0, Last(h).active, Last(h).at, tm).1
  }

  /** At most one press is undecided, and no deadline has passed it by. */
  lemma NoDeadlineUnnoticed(h: History, tm: Timing)
    requires Chronological(h) && |h| > 1
    ensures var d := Run(h, tm).0;
      && !(d.pendingClickSince.Some? && d.pressedSince.Some?)
      && (d.pendingClickSince.Some? ==>
            Last(h).at <= d.pendingClickSince.value + tm.doubleClick
            || (Last(h).active && RunStart(h) <= d.pendingClickSince.value + tm.doubleClick))
      && (d.pressedSince.Some? && !d.longPressEmitted ==> Last(h).at - d.pressedSince.value < tm.longPress)
  {
    DetectorReadsHistory(h, tm);
    if Level(h, tm.debounce) {
      DetectorReadsHistory(Front(h), tm);
      assert Presses(h, tm.debounce)[|Presses(h, tm.debounce)| - 1].held == Some(Last(h).at);
    }
  }

  /** An edge is reported exactly when the debounced level moves, and then a quiet window precedes it. */
  lemma EdgesAreDebounced(h: History, tm: Timing)
    requires Chronological(h) && |h| > 1
    ensures OffToOn in SampleEvents(h, tm) <==> !Level(Front(h), tm.debounce) && Level(h, tm.debounce)
    ensures OnToOff in SampleEvents(h, tm) <==> Level(Front(h), tm.debounce) && !Level(h, tm.debounce)
    ensures OffToOn in SampleEvents(h, tm) || OnToOff in SampleEvents(h, tm) ==>
      exists j: nat :: QuietSince(h, j, tm.debounce)
  {
    DetectorReadsHistory(h, tm);
    DetectorReadsHistory(Front(h), tm);
  }

  /** Follows the edges of a report; None when two edges of one direction meet. */
  function FollowEdges(level: bool, events: seq<InputEvent>): Option<bool> {
    if events == [] then Some(level)
    else
      var before := FollowEdges(level, events[..|events| - 1]);
      match (before, events[|events| - 1])
      case (Some(false), OffToOn) => Some(true)
      case (Some(true), OnToOff) => Some(false)
      case (_, OffToOn) => None
      case (_, OnToOff) => None
      case (_, _) => before
  }

  lemma {:induction false} FollowEdgesConcat(level: bool, a: seq<InputEvent>, b: seq<InputEvent>)
    requires FollowEdges(level, a).Some?
    ensures FollowEdges(level, a + b) == FollowEdges(FollowEdges(level, a).value, b)
  {
    if b == [] {
      assert a + b == a;
    } else {
      FollowEdgesConcat(level, a, b[..|b| - 1]);
      assert (a + b)[..|a + b| - 1] == a + b[..|b| - 1];
    }
  }

  lemma ThirdsFollowEdges(d: DetectorState, active: bool, now: nat, tm: Timing)
    ensures FollowEdges(d.stable, Expire(d, active, now, tm).1) == Some(Expire(d, active, now, tm).0.stable)
    ensures FollowEdges(d.stable, Hold(d, now, tm).1) == Some(Hold(d, now, tm).0.stable)
  {}

  lemma SettleFollowsEdges(d: DetectorState, active: bool, now: nat, tm: Timing)
    ensures FollowEdges(d.stable, Settle(d, active, now, tm).1) == Some(Settle(d, active, now, tm).0.stable)
  {
    var e := Settle(d, active, now, tm).1;
    if |e| == 2 {
      assert e[..1] == [OnToOff];
      assert FollowEdges(d.stable, [OnToOff]) == Some(false);
    }
  }

  lemma StepFollowsEdges(d: DetectorState, active: bool, now: nat, tm: Timing)
    ensures var (d', events) := Step(d, active, now, tm);
      FollowEdges(d.stable, events) == Some(d'.stable)
  {
    hide Expire, Settle, Hold, FollowEdges;
    var (d1, e1) := Expire(d, active, now, tm);
    var (d2, e2) := Settle(d1, active, now, tm);
    var (_, e3) := Hold(d2, now, tm);
    ThirdsFollowEdges(d, active, now, tm);
    SettleFollowsEdges(d1, active, now, tm);
    ThirdsFollowEdges(d2, active, now, tm);
    FollowEdgesConcat(d.stable, e1, e2);
    FollowEdgesConcat(d.stable, e1 + e2, e3);
  }

  /** Edges strictly alternate from the initial level and end at the debounced level. */
  lemma {:induction false} EdgesAlternate(h: History, tm: Timing)
    requires Chronological(h)
    ensures FollowEdges(h[0].active, Run(h, tm).1) == Some(Level(h, tm.debounce))
  {
    DetectorReadsHistory(h, tm);
    if |h| > 1 {
      DetectorReadsHistory(Front(h), tm);
      EdgesAlternate(Front(h), tm);
      StepFollowsEdges(Run(Front(h), tm).0, Last(h).active, Last(h).at, tm);
      FollowEdgesConcat(h[0].active, Run(Front(h), tm).1, SampleEvents(h, tm));
    }
  }

  /** With fixed timings a sample reports at most two events. */
  lemma AtMostTwoEvents(h: History, tm: Timing)
    requires Chronological(h) && |h| > 1
    ensures |SampleEvents(h, tm)| <= 2
  {
    DetectorReadsHistory(Front(h), tm);
    RunStartIsStart(Front(h));
  }

  // ---- The press ledger, for runs whose timings may change ----------------

  datatype TimedSample = TimedSample(active: bool, at: nat, tm: Timing)

  datatype Ledger = Ledger(state: DetectorState, events: seq<InputEvent>, swallowed: nat)

  /** A run whose timings may differ from sample to sample. */
  function TimedRun(first: Sample, xs: seq<TimedSample>): Ledger {
    if xs == [] then Ledger(Initial(first.active, first.at), [], 0)
    else
      var before := TimedRun(first, xs[..|xs| - 1]);
      var x := xs[|xs| - 1];
      var (d, events) := Step(before.state, x.active, x.at, x.tm);
      Ledger(d, before.events + events, before.swallowed + Swallowed(d, events))
  }

  /** A long press reached on a second press takes the pending first click with it. */
  function Swallowed(d: DetectorState, events: seq<InputEvent>): nat {
    if LongPress in events && d.secondClickInProgress then 1 else 0
  }

  function Count(event: InputEvent, events: seq<InputEvent>): nat { multiset(events)[event] }

  function Bit(b: bool): int { if b then 1 else 0 }

  /** Released presses the detector still owes a report for, less the held press it has already reported. */
  function Owed(d: DetectorState): int {
    Bit(d.pendingClickSince.Some?)
    + Bit(d.secondClickInProgress && !d.longPressEmitted)
    - Bit(d.stable && d.longPressEmitted)
  }

  ghost predicate Coherent(d: DetectorState, now: nat) {
    && d.stable == d.pressedSince.Some?
    && (d.stable ==> d.pendingClickSince.None?)
    && (d.secondClickInProgress ==> d.stable)
    && d.candidateSince <= now
  }

  function Balance(e: seq<InputEvent>): int {
    Count(OnToOff, e) - Count(Click, e) - 2 * Count(DoubleClick, e) - Count(LongPress, e)
  }

  lemma BalanceConcat(a: seq<InputEvent>, b: seq<InputEvent>)
    ensures Balance(a + b) == Balance(a) + Balance(b)
  {
    assert multiset(a + b) == multiset(a) + multiset(b);
  }

  lemma ExpireBalances(d: DetectorState, before: nat, x: TimedSample)
    requires Coherent(d, before) && before <= x.at
    ensures var (d1, e1) := Expire(d, x.active, x.at, x.tm);
      Coherent(d1, x.at) && LongPress !in e1 && Balance(e1) + Owed(d) == Owed(d1)
  {}

  /** A click still pending when a press commits was left by Expire, so the press is a second one. */
  lemma SettleBalances(d: DetectorState, before: nat, x: TimedSample)
    requires Coherent(d, before) && before <= x.at
    ensures var d1 := Expire(d, x.active, x.at, x.tm).0;
      var (d2, e2) := Settle(d1, x.active, x.at, x.tm);
      Coherent(d2, x.at) && LongPress !in e2 && Balance(e2) + Owed(d1) == Owed(d2)
  {}

  lemma HoldBalances(d: DetectorState, x: TimedSample)
    requires Coherent(d, x.at)
    ensures var (d3, e3) := Hold(d, x.at, x.tm);
      Coherent(d3, x.at) && Balance(e3) + Owed(d) == Swallowed(d3, e3) + Owed(d3)
  {}

  lemma StepBalances(d: DetectorState, before: nat, x: TimedSample)
    requires Coherent(d, before) && before <= x.at
    ensures var (d', e) := Step(d, x.active, x.at, x.tm);
      Coherent(d', x.at) && Balance(e) + Owed(d) == Swallowed(d', e) + Owed(d')
  {
    hide Expire, Settle, Hold, Balance, Owed, Coherent;
    var (d1, e1) := Expire(d, x.active, x.at, x.tm);
    var (d2, e2) := Settle(d1, x.active, x.at, x.tm);
    var (d3, e3) := Hold(d2, x.at, x.tm);
    ExpireBalances(d, before, x);
    SettleBalances(d, before, x);
    HoldBalances(d2, x);
    BalanceConcat(e1, e2);
    BalanceConcat(e1 + e2, e3);
    assert LongPress in e1 + e2 + e3 <==> LongPress in e3;
  }

  function Latest(first: Sample, xs: seq<TimedSample>): nat {
    if xs == [] then first.at else xs[|xs| - 1].at
  }

  /** Every release is accounted for once: no press is both a click and half a double click. */
  lemma {:induction false} PressLedger(first: Sample, xs: seq<TimedSample>)
    requires forall i, j :: 0 <= i <= j < |xs| ==> first.at <= xs[i].at <= xs[j].at
    ensures var l := TimedRun(first, xs);
      && Coherent(l.state, Latest(first, xs))
      && Count(OnToOff, l.events)
         == Count(Click, l.events) + 2 * Count(DoubleClick, l.events) + Count(LongPress, l.events)
            + l.swallowed + Owed(l.state)
  {
    if xs != [] {
      var init := xs[..|xs| - 1];
      PressLedger(first, init);
      var before, x := TimedRun(first, init), xs[|xs| - 1];
      StepBalances(before.state, Latest(first, init), x);
      BalanceConcat(before.events, Step(before.state, x.active, x.at, x.tm).1);
    }
  }
}
