/** From the whole controller down to the offline reading of one GPIO. */
module InputTheorems {
  import opened Wrappers
  import opened Messages
  import opened Gesture
  import H = GestureHistory
  import opened InputTypes
  import opened Controller

  /** A GPIO's own inputs as the firmware makes them: one initial reading, then samples. */
  predicate Sampling(xs: seq<Input>, gpio: nat) {
    && |xs| > 0 && xs[0].Init?
    && (forall i :: 0 <= i < |xs| ==> Concerns(xs[i], gpio))
    && (forall i :: 0 < i < |xs| ==> xs[i].Level?)
  }

  function HistoryOf(ch: Channel, xs: seq<Input>): (h: H.History)
    requires Sampling(xs, ch.gpio)
    ensures |h| == |xs|
    ensures forall i :: 0 <= i < |xs| ==> (h[i].active <==> xs[i].rawHigh == ch.activeHigh) && h[i].at == xs[i].now
  {
    seq(|xs|, i requires 0 <= i < |xs| => H.Sample(Active(ch, xs[i].rawHigh), xs[i].now))
  }

  function InputEventsOf(events: seq<DetectedInputEvent>): seq<InputEvent> {
    seq(|events|, i requires 0 <= i < |events| => events[i].inputEvent)
  }

  /** All events reported by a sequence of calls. */
  function EventsIn(outs: seq<Output>): seq<InputEvent> {
    if outs == [] then []
    else
      var out := outs[|outs| - 1];
      EventsIn(outs[..|outs| - 1])
      + if out.Reported? && out.result.Ok? then InputEventsOf(out.result.value.inputEvents) else []
  }

  /** All actions triggered by a sequence of calls. */
  function ActionsIn(outs: seq<Output>): seq<ActionId> {
    if outs == [] then []
    else
      var out := outs[|outs| - 1];
      ActionsIn(outs[..|outs| - 1]) + if out.Reported? && out.result.Ok? then out.result.value.actions else []
  }

  lemma NoEvents(mappings: seq<InputMapping>, gpio: nat)
    ensures AllActions(mappings, gpio, []) == []
  {}

  lemma AllActionsSnoc(mappings: seq<InputMapping>, gpio: nat, events: seq<InputEvent>, event: InputEvent)
    ensures AllActions(mappings, gpio, events + [event])
         == AllActions(mappings, gpio, events) + ActionsFor(mappings, gpio, event)
  {
    hide ActionsFor;
    assert (events + [event])[..|events|] == events;
  }

  lemma {:induction false} AllActionsConcat(
    mappings: seq<InputMapping>, gpio: nat, a: seq<InputEvent>, b: seq<InputEvent>)
    ensures AllActions(mappings, gpio, a + b) == AllActions(mappings, gpio, a) + AllActions(mappings, gpio, b)
  {
    hide *;
    if b == [] {
      NoEvents(mappings, gpio);
      assert a + b == a;
    } else {
      var init, last := b[..|b| - 1], b[|b| - 1];
      AllActionsConcat(mappings, gpio, a, init);
      AllActionsSnoc(mappings, gpio, a + init, last);
      AllActionsSnoc(mappings, gpio, init, last);
      assert b == init + [last] && a + b == a + init + [last];
    }
  }

  /** One sample of a single-GPIO controller: the detector's step, its events, and their actions. */
  lemma SoloSample(c: ControllerState, sample: Input)
    requires c.Valid() && |c.channels| == 1 && sample.Level? && sample.gpio == c.channels[0].gpio
    ensures var ch := c.channels[0];
      var (d, events) := Step(ch.state, Active(ch, sample.rawHigh), sample.now, c.TimingOf(ch));
      var (c', out) := Call(c, sample);
      && c' == c.(channels := [ch.(state := d)])
      && out.Reported? && out.result.Ok?
      && InputEventsOf(out.result.value.inputEvents) == events
      && out.result.value.actions == AllActions(c.mappings, ch.gpio, events)
  {
    hide Step, ActionsFor, AllActions;
    var ch := c.channels[0];
    assert IndexOf(c.channels, sample.gpio) == Some(0);
    var (ch', events) := StepChannel(ch, sample.rawHigh, sample.now, c.TimingOf(ch));
    ReportFits(c.mappings, sample.gpio, events);
    assert InputEventsOf(Detected(sample.gpio, events)) == events;
    assert c.channels[0 := ch'] == [ch'];
  }

  lemma SoloStart(c: ControllerState, first: Input)
    requires c.Valid() && |c.channels| == 1 && first.Init? && first.gpio == c.channels[0].gpio
    ensures var ch := c.channels[0];
      Call(c, first) == (c.(channels := [ch.(state := Initial(Active(ch, first.rawHigh), first.now))]), Nothing)
  {
    var ch := c.channels[0];
    assert IndexOf(c.channels, first.gpio) == Some(0);
    assert c.channels[0 := ch.(state := Initial(Active(ch, first.rawHigh), first.now))]
        == [ch.(state := Initial(Active(ch, first.rawHigh), first.now))];
  }

  lemma OutputsSnoc(outs: seq<Output>, out: Output)
    requires out.Reported? && out.result.Ok?
    ensures EventsIn(outs + [out]) == EventsIn(outs) + InputEventsOf(out.result.value.inputEvents)
    ensures ActionsIn(outs + [out]) == ActionsIn(outs) + out.result.value.actions
  {
    assert (outs + [out])[..|outs|] == outs;
  }

  lemma HistorySnoc(ch: Channel, xs: seq<Input>)
    requires Sampling(xs, ch.gpio) && |xs| > 1
    ensures var init, last := xs[..|xs| - 1], xs[|xs| - 1];
      && Sampling(init, ch.gpio) && last.Level? && last.gpio == ch.gpio
      && H.Front(HistoryOf(ch, xs)) == HistoryOf(ch, init)
      && H.Last(HistoryOf(ch, xs)) == H.Sample(Active(ch, last.rawHigh), last.now)
  {}

  /** What a single-GPIO controller made of its inputs is what its detector made of their history. */
  ghost predicate RunsSolo(c: ControllerState, xs: seq<Input>)
    requires |c.channels| == 1 && Sampling(xs, c.channels[0].gpio)
  {
    var ch := c.channels[0];
    var (c', outs) := RunAll(c, xs);
    var (d, events) := H.Run(HistoryOf(ch, xs), c.TimingOf(ch));
    && c' == c.(channels := [ch.(state := d)])
    && EventsIn(outs) == events
    && ActionsIn(outs) == AllActions(c.mappings, ch.gpio, events)
  }

  lemma SoloSnoc(c: ControllerState, xs: seq<Input>)
    requires c.Valid() && |c.channels| == 1 && Sampling(xs, c.channels[0].gpio) && |xs| > 1
    requires Sampling(xs[..|xs| - 1], c.channels[0].gpio) && RunsSolo(c, xs[..|xs| - 1])
    ensures RunsSolo(c, xs)
  {
    hide Step, ActionsFor, AllActions, Call, HistoryOf, EventsIn, ActionsIn, Sampling;
    var ch := c.channels[0];
    var init, last := xs[..|xs| - 1], xs[|xs| - 1];
    HistorySnoc(ch, xs);
    var (before, outs) := RunAll(c, init);
    assert before.Valid();
    SoloSample(before, last);
    OutputsSnoc(outs, Call(before, last).1);
    AllActionsConcat(c.mappings, ch.gpio, EventsIn(outs), InputEventsOf(Call(before, last).1.result.value.inputEvents));
  }

  lemma SoloFirst(c: ControllerState, xs: seq<Input>)
    requires c.Valid() && |c.channels| == 1 && Sampling(xs, c.channels[0].gpio) && |xs| == 1
    ensures RunsSolo(c, xs)
  {
    hide AllActions, Call;
    SoloStart(c, xs[0]);
    NoEvents(c.mappings, c.channels[0].gpio);
    assert RunAll(c, xs[..0]) == (c, []);
    assert RunAll(c, xs).1 == [Nothing];
    assert EventsIn([Nothing][..0]) == [] && ActionsIn([Nothing][..0]) == [];
  }

  lemma {:induction false} SoloRun(c: ControllerState, xs: seq<Input>)
    requires c.Valid() && |c.channels| == 1 && Sampling(xs, c.channels[0].gpio)
    ensures RunsSolo(c, xs)
  {
    hide Step, ActionsFor, AllActions, Call;
    if |xs| == 1 {
      SoloFirst(c, xs);
    } else {
      HistorySnoc(c.channels[0], xs);
      hide RunsSolo;
      SoloRun(c, xs[..|xs| - 1]);
      SoloSnoc(c, xs);
    }
  }

  /**
  However the samples of all GPIOs interleave, the events the controller reports for
  one GPIO are the offline transcript of that GPIO's own readings, and the actions it
  triggers are the enabled mappings of that transcript, in order.
  */
  lemma InterleavedRunEqualsOffline(c: ControllerState, i: nat, inputs: seq<Input>)
    requires c.Valid() && i < |c.channels|
    requires Sampling(Only(inputs, c.channels[i].gpio), c.channels[i].gpio)
    requires H.Chronological(HistoryOf(c.channels[i], Only(inputs, c.channels[i].gpio)))
    ensures var ch := c.channels[i];
      |RunAll(c, inputs).1| == |inputs|
      && EventsIn(OutputsOf(inputs, RunAll(c, inputs).1, ch.gpio))
         == H.Transcript(HistoryOf(ch, Only(inputs, ch.gpio)), c.TimingOf(ch))
      && ActionsIn(OutputsOf(inputs, RunAll(c, inputs).1, ch.gpio))
         == AllActions(c.mappings, ch.gpio, H.Transcript(HistoryOf(ch, Only(inputs, ch.gpio)), c.TimingOf(ch)))
  {
    var ch := c.channels[i];
    var own := Only(inputs, ch.gpio);
    ProductOfDetectors(c, i, inputs);
    SoloRun(Alone(c, i), own);
    H.OnlineEqualsOffline(HistoryOf(ch, own), c.TimingOf(ch));
  }

  // ---- The press ledger of one GPIO of a controller -----------------------------------

  /** A GPIO's own inputs, with changes of the timings among its samples. */
  predicate TimedSampling(xs: seq<Input>, gpio: nat) {
    && |xs| > 0 && xs[0].Init?
    && (forall i :: 0 <= i < |xs| ==> Concerns(xs[i], gpio))
    && (forall i :: 0 < i < |xs| ==> !xs[i].Init?)
  }

  /** The double-click interval and the long-press threshold in force after some inputs. */
  function InForce(doubleClick: nat, longPress: nat, xs: seq<Input>): (nat, nat) {
    if xs == [] then (doubleClick, longPress)
    else
      match xs[|xs| - 1]
      case SetTiming(dc, lp) => (dc, lp)
      case _ => InForce(doubleClick, longPress, xs[..|xs| - 1])
  }

  /** The samples after the initial reading, each with the timings in force. */
  function SamplesOf(c: ControllerState, ch: Channel, xs: seq<Input>): seq<H.TimedSample> {
    if |xs| <= 1 then []
    else
      var init := xs[..|xs| - 1];
      var (dc, lp) := InForce(c.doubleClickIntervalMs, c.longPressThresholdMs, init);
      match xs[|xs| - 1]
      case Level(_, rawHigh, now) =>
        SamplesOf(c, ch, init) + [H.TimedSample(Active(ch, rawHigh), now, Timing(ch.debounceMs, dc, lp))]
      case _ => SamplesOf(c, ch, init)
  }

  /** Every level read after the first input is one sample, active by the polarity of the channel. */
  lemma SamplesReadLevels(c: ControllerState, ch: Channel, xs: seq<Input>, gpio: nat, rawHigh: bool, now: nat)
    requires xs != []
    ensures var (dc, lp) := InForce(c.doubleClickIntervalMs, c.longPressThresholdMs, xs);
      SamplesOf(c, ch, xs + [Level(gpio, rawHigh, now)])
      == SamplesOf(c, ch, xs) + [H.TimedSample(rawHigh == ch.activeHigh, now, Timing(ch.debounceMs, dc, lp))]
  {
    var all := xs + [Level(gpio, rawHigh, now)];
    assert all[..|all| - 1] == xs;
  }

  function FirstSample(ch: Channel, xs: seq<Input>): (first: H.Sample)
    requires TimedSampling(xs, ch.gpio)
    ensures (first.active <==> xs[0].rawHigh == ch.activeHigh) && first.at == xs[0].now
  {
    H.Sample(Active(ch, xs[0].rawHigh), xs[0].now)
  }

  /** The detector of a single-channel controller runs over its timed samples. */
  ghost predicate RunsOver(c: ControllerState, xs: seq<Input>)
    requires |c.channels| == 1 && TimedSampling(xs, c.channels[0].gpio)
  {
    var ch := c.channels[0];
    var (c', outs) := RunAll(c, xs);
    var ledger := H.TimedRun(FirstSample(ch, xs), SamplesOf(c, ch, xs));
    && c'.mappings == c.mappings && c'.channels == [ch.(state := ledger.state)]
    && (c'.doubleClickIntervalMs, c'.longPressThresholdMs)
       == InForce(c.doubleClickIntervalMs, c.longPressThresholdMs, xs)
    && EventsIn(outs) == ledger.events
  }

  lemma FirstRunsOver(c: ControllerState, xs: seq<Input>)
    requires |c.channels| == 1 && TimedSampling(xs, c.channels[0].gpio) && |xs| == 1
    ensures RunsOver(c, xs)
  {
    hide Step;
    var ch := c.channels[0];
    assert IndexOf(c.channels, xs[0].gpio) == Some(0);
    assert RunAll(c, xs[..0]) == (c, []) && InForce(c.doubleClickIntervalMs, c.longPressThresholdMs, xs[..0])
        == (c.doubleClickIntervalMs, c.longPressThresholdMs);
    var started := ch.(state := Initial(Active(ch, xs[0].rawHigh), xs[0].now));
    assert c.channels[0 := started] == [started];
    assert Call(c, xs[0]) == (c.(channels := [started]), Nothing);
    assert xs[..|xs| - 1] == [] && [] + [Nothing] == [Nothing];
    assert RunAll(c, []) == (c, []);
    assert RunAll(c, xs) == (c.(channels := [started]), [Nothing]);
    assert EventsIn([Nothing]) == [] by { assert [Nothing][..0] == []; }
  }

  /** One more level read by the only channel. */
  lemma LevelRunsOver(c: ControllerState, gpio: nat, rawHigh: bool, now: nat)
    requires c.Valid() && |c.channels| == 1 && c.channels[0].gpio == gpio
    ensures var ch := c.channels[0];
      var (c', out) := Call(c, Level(gpio, rawHigh, now));
      var (d, events) := Step(ch.state, Active(ch, rawHigh), now, c.TimingOf(ch));
      && c' == c.(channels := [ch.(state := d)])
      && out.Reported? && out.result.Ok? && InputEventsOf(out.result.value.inputEvents) == events
  {
    hide Step, ActionsFor, AllActions;
    assert IndexOf(c.channels, gpio) == Some(0);
    var ch := c.channels[0];
    var (ch', events) := StepChannel(ch, rawHigh, now, c.TimingOf(ch));
    ReportFits(c.mappings, gpio, events);
    var out := Call(c, Level(gpio, rawHigh, now)).1;
    assert InputEventsOf(out.result.value.inputEvents) == events;
    assert c.channels[0 := ch'] == [ch'];
  }

  lemma {:induction false} SoloLedger(c: ControllerState, xs: seq<Input>)
    requires c.Valid() && |c.channels| == 1 && TimedSampling(xs, c.channels[0].gpio)
    ensures RunsOver(c, xs)
  {
    hide Step, Call;
    if |xs| == 1 {
      FirstRunsOver(c, xs);
    } else {
      var ch := c.channels[0];
      var init, last := xs[..|xs| - 1], xs[|xs| - 1];
      SoloLedger(c, init);
      var (before, outs) := RunAll(c, init);
      var out := Call(before, last).1;
      assert (outs + [out])[..|outs|] == outs;
      if last.Level? {
        LevelRunsOver(before, last.gpio, last.rawHigh, last.now);
        var samples := SamplesOf(c, ch, xs);
        assert samples[..|samples| - 1] == SamplesOf(c, ch, init);
      } else {
        TimingOnly(before, last);
      }
    }
  }

  lemma TimingOnly(c: ControllerState, input: Input)
    requires input.SetTiming?
    ensures Call(c, input) == (c.(doubleClickIntervalMs := input.doubleClickIntervalMs,
                                  longPressThresholdMs := input.longPressThresholdMs), Nothing)
  {}

  /**
  The exact press ledger of one GPIO over any interleaved run of the whole controller, with timings that change on
  the way: every release it reported is a click, half a double click, a long press, swallowed by one, or still owed.
  */
  lemma ControllerPressLedger(c: ControllerState, i: nat, inputs: seq<Input>)
    requires c.Valid() && i < |c.channels|
    requires TimedSampling(Only(inputs, c.channels[i].gpio), c.channels[i].gpio)
    requires var ch := c.channels[i];
      var xs := Only(inputs, ch.gpio);
      var samples := SamplesOf(c, ch, xs);
      forall k, l :: 0 <= k <= l < |samples| ==> xs[0].now <= samples[k].at <= samples[l].at
    ensures var ch := c.channels[i];
      var xs := Only(inputs, ch.gpio);
      var (c', outs) := RunAll(c, inputs);
      && |outs| == |inputs| && |c'.channels| == |c.channels|
      && var events := EventsIn(OutputsOf(inputs, outs, ch.gpio));
         H.Count(OnToOff, events)
         == H.Count(Click, events) + 2 * H.Count(DoubleClick, events) + H.Count(LongPress, events)
            + H.TimedRun(FirstSample(ch, xs), SamplesOf(c, ch, xs)).swallowed + H.Owed(c'.channels[i].state)
  {
    var ch := c.channels[i];
    var xs := Only(inputs, ch.gpio);
    ProductOfDetectors(c, i, inputs);
    hide RunAll, Only, OutputsOf, H.TimedRun, H.Owed, EventsIn, SamplesOf, InForce;
    SoloLedger(Alone(c, i), xs);
    SamplesOfAlone(c, i, xs);
    H.PressLedger(FirstSample(ch, xs), SamplesOf(c, ch, xs));
  }

  lemma {:induction false} SamplesOfAlone(c: ControllerState, i: nat, xs: seq<Input>)
    requires i < |c.channels|
    ensures SamplesOf(Alone(c, i), c.channels[i], xs) == SamplesOf(c, c.channels[i], xs)
  {
    if |xs| > 1 {
      SamplesOfAlone(c, i, xs[..|xs| - 1]);
    }
  }
}
