/** Configuration records of the node's inputs. */
module InputTypes {
  import opened Messages

  const MAX_INPUT_CHANNELS: nat := 32

  datatype GpioInputConfig = GpioInputConfig(gpio: nat, activeHigh: bool, debounceMs: nat)

  datatype InputMapping = InputMapping(gpio: nat, inputEvent: InputEvent, actionId: ActionId, enabled: bool)

  datatype InputConfig = InputConfig(
    gpioInputs: seq<GpioInputConfig>,
    mappings: seq<InputMapping>,
    doubleClickIntervalMs: nat,
    longPressThresholdMs: nat)

  datatype DetectedInputEvent = DetectedInputEvent(gpio: nat, inputEvent: InputEvent)

  datatype SampleResult = SampleResult(inputEvents: seq<DetectedInputEvent>, actions: seq<ActionId>)

  datatype InputConfigError =
    | TooManyInputs
    | DuplicateGpio(gpio: nat)
    | MappingReferencesUnknownGpio(gpio: nat)
    | DuplicateMapping(gpio: nat, inputEvent: InputEvent)

  datatype InputProcessError = UnknownGpio(gpio: nat) | TooManyEvents

  ghost predicate DistinctGpios(inputs: seq<GpioInputConfig>) {
    forall i, j :: 0 <= i < j < |inputs| ==> inputs[i].gpio != inputs[j].gpio
  }

  ghost predicate Configures(inputs: seq<GpioInputConfig>, gpio: nat) {
    exists i :: 0 <= i < |inputs| && inputs[i].gpio == gpio
  }

  predicate SameKey(a: InputMapping, b: InputMapping) {
    a.gpio == b.gpio && a.inputEvent == b.inputEvent
  }

  ghost predicate DistinctMappings(mappings: seq<InputMapping>) {
    forall i, j :: 0 <= i < j < |mappings| ==> !SameKey(mappings[i], mappings[j])
  }

  /** The configurations the controller accepts. */
  ghost predicate WellFormed(config: InputConfig) {
    && |config.gpioInputs| <= MAX_INPUT_CHANNELS
    && DistinctGpios(config.gpioInputs)
    && (forall m :: m in config.mappings ==> Configures(config.gpioInputs, m.gpio))
    && DistinctMappings(config.mappings)
  }

  /** The defect an error names is really there. */
  ghost predicate Explains(error: InputConfigError, config: InputConfig) {
    match error
    case TooManyInputs => |config.gpioInputs| > MAX_INPUT_CHANNELS
    case DuplicateGpio(g) =>
      exists i, j :: 0 <= i < j < |config.gpioInputs| && config.gpioInputs[i].gpio == config.gpioInputs[j].gpio == g
    case MappingReferencesUnknownGpio(g) =>
      && !Configures(config.gpioInputs, g)
      && exists m :: m in config.mappings && m.gpio == g
    case DuplicateMapping(g, e) =>
      exists i, j :: 0 <= i < j < |config.mappings| && SameKey(config.mappings[i], config.mappings[j])
                     && config.mappings[i].gpio == g && config.mappings[i].inputEvent == e
  }
}

/** The controller of all configured GPIOs: one detector per GPIO, one mapping table. */
module Controller {
  import opened Wrappers
  import opened Messages
  import opened Gesture
  import opened InputTypes

  // ---- Values ------------------------------------------------------------

  datatype Channel = Channel(gpio: nat, activeHigh: bool, debounceMs: nat, state: DetectorState)

  datatype ControllerState = ControllerState(
    mappings: seq<InputMapping>,
    doubleClickIntervalMs: nat,
    longPressThresholdMs: nat,
    channels: seq<Channel>)
  {
    function TimingOf(ch: Channel): Timing {
      Timing(ch.debounceMs, doubleClickIntervalMs, longPressThresholdMs)
    }

    ghost predicate Valid() {
      && (forall i, j :: 0 <= i < j < |channels| ==> channels[i].gpio != channels[j].gpio)
      && DistinctMappings(mappings)
    }
  }

  function IndexOf(channels: seq<Channel>, gpio: nat): (r: Option<nat>)
    ensures r.Some? ==> r.value < |channels| && channels[r.value].gpio == gpio
    ensures r.Some? ==> forall i :: 0 <= i < r.value ==> channels[i].gpio != gpio
    ensures r.None? ==> forall i :: 0 <= i < |channels| ==> channels[i].gpio != gpio
  {
    if channels == [] then None
    else
      var before := IndexOf(channels[..|channels| - 1], gpio);
      if before.Some? then before
      else if channels[|channels| - 1].gpio == gpio then Some(|channels| - 1) else None
  }

  /** An input is active when its level is the one its polarity names. */
  function Active(ch: Channel, rawHigh: bool): (active: bool)
    ensures active <==> rawHigh == ch.activeHigh
  {
    if ch.activeHigh then rawHigh else !rawHigh
  }

  function Detected(gpio: nat, events: seq<InputEvent>): (r: seq<DetectedInputEvent>)
    ensures |r| == |events|
    ensures forall i :: 0 <= i < |r| ==> r[i] == DetectedInputEvent(gpio, events[i])
  {
    seq(|events|, i requires 0 <= i < |events| => DetectedInputEvent(gpio, events[i]))
  }

  /** The enabled mappings of one event, in table order. */
  function ActionsFor(mappings: seq<InputMapping>, gpio: nat, event: InputEvent): seq<ActionId> {
    if mappings == [] then []
    else
      var m := mappings[|mappings| - 1];
      ActionsFor(mappings[..|mappings| - 1], gpio, event)
      + if m.enabled && m.gpio == gpio && m.inputEvent == event then [m.actionId] else []
  }

  function AllActions(mappings: seq<InputMapping>, gpio: nat, events: seq<InputEvent>): seq<ActionId> {
    if events == [] then []
    else AllActions(mappings, gpio, events[..|events| - 1]) + ActionsFor(mappings, gpio, events[|events| - 1])
  }

  /** The report of a sample: refused when either vector would overflow. */
  function Report(mappings: seq<InputMapping>, gpio: nat, events: seq<InputEvent>)
    : Result<SampleResult, InputProcessError>
  {
    var actions := AllActions(mappings, gpio, events);
    if |events| > MAX_EVENTS_PER_SAMPLE || |actions| > MAX_EVENTS_PER_SAMPLE then Err(TooManyEvents)
    else Ok(SampleResult(Detected(gpio, events), actions))
  }

  function StepChannel(ch: Channel, rawHigh: bool, now: nat, tm: Timing): (r: (Channel, seq<InputEvent>))
    ensures r.0.gpio == ch.gpio
    ensures |r.1| <= 3
  {
    StepEmitsAtMostThree(ch.state, Active(ch, rawHigh), now, tm);
    var (d, events) := Step(ch.state, Active(ch, rawHigh), now, tm);
    (ch.(state := d), events)
  }

  datatype Input =
    | Init(gpio: nat, rawHigh: bool, now: nat)
    | Level(gpio: nat, rawHigh: bool, now: nat)
    | SetTiming(doubleClickIntervalMs: nat, longPressThresholdMs: nat)

  datatype Output = Nothing | Unknown(gpio: nat) | Reported(gpio: nat, result: Result<SampleResult, InputProcessError>)

  /** One call on the controller. */
  function Call(c: ControllerState, input: Input): (ControllerState, Output) {
    match input
    case SetTiming(dc, lp) => (c.(doubleClickIntervalMs := dc, longPressThresholdMs := lp), Nothing)
    case Init(gpio, rawHigh, now) =>
      (match IndexOf(c.channels, gpio)
       case None => (c, Unknown(gpio))
       case Some(i) =>
         var ch := c.channels[i];
         (c.(channels := c.channels[i := ch.(state := Initial(Active(ch, rawHigh), now))]), Nothing))
    case Level(gpio, rawHigh, now) =>
      (match IndexOf(c.channels, gpio)
       case None => (c, Reported(gpio, Err(UnknownGpio(gpio))))
       case Some(i) =>
         var ch := c.channels[i];
         var (ch', events) := StepChannel(ch, rawHigh, now, c.TimingOf(ch));
         (c.(channels := c.channels[i := ch']), Reported(gpio, Report(c.mappings, gpio, events))))
  }

  // ---- TooManyEvents is unreachable ---------------------------------------

  lemma {:induction false} AtMostOneAction(mappings: seq<InputMapping>, gpio: nat, event: InputEvent)
    requires DistinctMappings(mappings)
    ensures |ActionsFor(mappings, gpio, event)| <= 1
    ensures (forall m :: m in mappings ==> m.gpio != gpio || m.inputEvent != event) ==>
      ActionsFor(mappings, gpio, event) == []
  {
    if mappings != [] {
      var init, m := mappings[..|mappings| - 1], mappings[|mappings| - 1];
      AtMostOneAction(init, gpio, event);
      if m.gpio == gpio && m.inputEvent == event {
        forall x | x in init ensures x.gpio != gpio || x.inputEvent != event {
          var i :| 0 <= i < |init| && init[i] == x;
          assert !SameKey(mappings[i], mappings[|mappings| - 1]);
        }
      }
    }
  }

  /** What an event of a GPIO triggers, read off the table: every enabled mapping of it, and no other. */
  lemma {:induction false} ActionsOfEnabled(mappings: seq<InputMapping>, gpio: nat, event: InputEvent)
    ensures forall a :: a in ActionsFor(mappings, gpio, event) <==>
      exists m :: m in mappings && m.enabled && m.gpio == gpio && m.inputEvent == event && m.actionId == a
  {
    if mappings != [] {
      var init, last := mappings[..|mappings| - 1], mappings[|mappings| - 1];
      ActionsOfEnabled(init, gpio, event);
      assert mappings == init + [last];
    }
  }

  /** The events of a sample trigger exactly the enabled mappings of that GPIO and one of these events. */
  lemma {:induction false} AllActionsOfEnabled(mappings: seq<InputMapping>, gpio: nat, events: seq<InputEvent>)
    ensures forall a :: a in AllActions(mappings, gpio, events) <==>
      exists m :: m in mappings && m.enabled && m.gpio == gpio && m.inputEvent in events && m.actionId == a
  {
    hide ActionsFor;
    if events != [] {
      var init, last := events[..|events| - 1], events[|events| - 1];
      AllActionsOfEnabled(mappings, gpio, init);
      ActionsOfEnabled(mappings, gpio, last);
      assert events == init + [last];
    }
  }

  /** With distinct mappings an event triggers the action of its one mapping if that is enabled, and nothing else. */
  lemma ExactlyTheMappedAction(mappings: seq<InputMapping>, m: InputMapping)
    requires DistinctMappings(mappings) && m in mappings
    ensures ActionsFor(mappings, m.gpio, m.inputEvent) == if m.enabled then [m.actionId] else []
  {
    var actions := ActionsFor(mappings, m.gpio, m.inputEvent);
    AtMostOneAction(mappings, m.gpio, m.inputEvent);
    ActionsOfEnabled(mappings, m.gpio, m.inputEvent);
    hide ActionsFor;
    forall x | x in mappings && x.gpio == m.gpio && x.inputEvent == m.inputEvent ensures x == m {
      var i :| 0 <= i < |mappings| && mappings[i] == x;
      var j :| 0 <= j < |mappings| && mappings[j] == m;
      assert SameKey(mappings[i], mappings[j]) && SameKey(mappings[j], mappings[i]);
      assert i == j;
    }
    assert m.enabled ==> m.actionId in actions;
    assert actions == [] || actions[0] in actions;
  }

  lemma {:induction false} AtMostAsManyActions(mappings: seq<InputMapping>, gpio: nat, events: seq<InputEvent>)
    requires DistinctMappings(mappings)
    ensures |AllActions(mappings, gpio, events)| <= |events|
  {
    if events != [] {
      AtMostAsManyActions(mappings, gpio, events[..|events| - 1]);
      AtMostOneAction(mappings, gpio, events[|events| - 1]);
    }
  }

  lemma ReportFits(mappings: seq<InputMapping>, gpio: nat, events: seq<InputEvent>)
    requires DistinctMappings(mappings) && |events| <= 3
    ensures Report(mappings, gpio, events).Ok?
  {
    AtMostAsManyActions(mappings, gpio, events);
  }

  /** No sample of a well-formed controller is refused, whatever the clock and the timings do. */
  lemma TooManyEventsUnreachable(c: ControllerState, gpio: nat, rawHigh: bool, now: nat)
    requires c.Valid()
    ensures Call(c, Level(gpio, rawHigh, now)).1 != Reported(gpio, Err(TooManyEvents))
  {
    var i := IndexOf(c.channels, gpio);
    if i.Some? {
      var ch := c.channels[i.value];
      var events := StepChannel(ch, rawHigh, now, c.TimingOf(ch)).1;
      ReportFits(c.mappings, gpio, events);
    }
  }

  // ---- The product of independent detectors --------------------------------

  function RunAll(c: ControllerState, inputs: seq<Input>): (ControllerState, seq<Output>) {
    if inputs == [] then (c, [])
    else
      var (c', outs) := RunAll(c, inputs[..|inputs| - 1]);
      var (c'', out) := Call(c', inputs[|inputs| - 1]);
      (c'', outs + [out])
  }

  /** The inputs that one GPIO's detector gets to see. */
  predicate Concerns(input: Input, gpio: nat) {
    input.SetTiming? || input.gpio == gpio
  }

  function Only(inputs: seq<Input>, gpio: nat): seq<Input> {
    if inputs == [] then []
    else
      Only(inputs[..|inputs| - 1], gpio)
      + if Concerns(inputs[|inputs| - 1], gpio) then [inputs[|inputs| - 1]] else []
  }

  /** The outputs of the calls that concern one GPIO. */
  function OutputsOf(inputs: seq<Input>, outs: seq<Output>, gpio: nat): seq<Output>
    requires |inputs| == |outs|
  {
    if inputs == [] then []
    else
      var n := |inputs| - 1;
      OutputsOf(inputs[..n], outs[..n], gpio) + if Concerns(inputs[n], gpio) then [outs[n]] else []
  }

  function Alone(c: ControllerState, i: nat): ControllerState
    requires i < |c.channels|
  {
    c.(channels := [c.channels[i]])
  }

  lemma CallOnOneChannel(c: ControllerState, i: nat, input: Input)
    requires c.Valid() && i < |c.channels|
    ensures var (c', out) := Call(c, input);
      && c'.Valid() && |c'.channels| == |c.channels|
      && c'.channels[i].gpio == c.channels[i].gpio
      && (if Concerns(input, c.channels[i].gpio) then Call(Alone(c, i), input) == (Alone(c', i), out)
          else Alone(c', i) == Alone(c, i))
  {
    var one := Alone(c, i).channels;
    if !input.SetTiming? && input.gpio == c.channels[i].gpio {
      assert IndexOf(c.channels, input.gpio) == Some(i);
      assert IndexOf(one, input.gpio) == Some(0);
      var ch := Call(c, input).0.channels[i];
      assert one[0 := ch] == [ch];
    }
  }

  /** Over any interleaving, a GPIO behaves as if its detector were alone and fed only its own inputs. */
  lemma {:induction false} ProductOfDetectors(c: ControllerState, i: nat, inputs: seq<Input>)
    requires c.Valid() && i < |c.channels|
    ensures var gpio := c.channels[i].gpio;
      var (c', outs) := RunAll(c, inputs);
      && c'.Valid() && |c'.channels| == |c.channels| && |outs| == |inputs| && c'.channels[i].gpio == gpio
      && RunAll(Alone(c, i), Only(inputs, gpio)) == (Alone(c', i), OutputsOf(inputs, outs, gpio))
  {
    if inputs != [] {
      var gpio := c.channels[i].gpio;
      var init, last := inputs[..|inputs| - 1], inputs[|inputs| - 1];
      ProductOfDetectors(c, i, init);
      var (before, outs) := RunAll(c, init);
      var (after, out) := Call(before, last);
      CallOnOneChannel(before, i, last);
      assert (outs + [out])[..|inputs| - 1] == outs;
      if Concerns(last, gpio) {
        assert Only(inputs, gpio)[..|Only(inputs, gpio)| - 1] == Only(init, gpio);
      } else {
        assert Only(inputs, gpio) == Only(init, gpio);
        assert OutputsOf(inputs, outs + [out], gpio) == OutputsOf(init, outs, gpio);
      }
    }
  }

  // ---- The controller in place ---------------------------------------------

  datatype RuntimeInput = RuntimeInput(gpio: nat, activeHigh: bool, debounceMs: nat, detector: GestureDetector)

  /** The detectors of a controller, pairwise distinct objects. */
  ghost predicate Own(inputs: seq<RuntimeInput>, detectors: set<GestureDetector>) {
    && (forall i :: 0 <= i < |inputs| ==> inputs[i].detector in detectors)
    && (forall i, j :: 0 <= i < j < |inputs| ==> inputs[i].detector != inputs[j].detector)
  }

  ghost function ChannelsOf(inputs: seq<RuntimeInput>, detectors: set<GestureDetector>): (cs: seq<Channel>)
    requires Own(inputs, detectors)
    reads detectors
    ensures |cs| == |inputs|
    ensures forall i :: 0 <= i < |cs| ==>
      cs[i] == Channel(inputs[i].gpio, inputs[i].activeHigh, inputs[i].debounceMs, inputs[i].detector.State())
  {
    seq(|inputs|, i requires 0 <= i < |inputs| && Own(inputs, detectors) reads detectors =>
      Channel(inputs[i].gpio, inputs[i].activeHigh, inputs[i].debounceMs, inputs[i].detector.State()))
  }

  class InputController {
    const mappings: seq<InputMapping>
    var doubleClickIntervalMs: nat
    var longPressThresholdMs: nat
    const inputs: seq<RuntimeInput>
    ghost const detectors: set<GestureDetector>

    ghost predicate Valid() {
      && Own(inputs, detectors)
      && |inputs| <= MAX_INPUT_CHANNELS
      && (forall i, j :: 0 <= i < j < |inputs| ==> inputs[i].gpio != inputs[j].gpio)
      && DistinctMappings(mappings)
    }

    ghost function State(): (c: ControllerState)
      requires Valid()
      reads this, detectors
      ensures c.Valid()
    {
      ControllerState(mappings, doubleClickIntervalMs, longPressThresholdMs, ChannelsOf(inputs, detectors))
    }

    constructor (mappings: seq<InputMapping>, doubleClick: nat, longPress: nat, inputs: seq<RuntimeInput>,
                 ghost detectors: set<GestureDetector>)
      ensures this.mappings == mappings && this.inputs == inputs && this.detectors == detectors
      ensures doubleClickIntervalMs == doubleClick && longPressThresholdMs == longPress
    {
      this.mappings, this.inputs, this.detectors := mappings, inputs, detectors;
      doubleClickIntervalMs, longPressThresholdMs := doubleClick, longPress;
    }

    static method New(config: InputConfig) returns (r: Result<InputController, InputConfigError>)
      ensures r.Ok? <==> WellFormed(config)
      ensures r.Ok? ==>
        var c := r.value;
        && fresh(c) && fresh(c.detectors) && c.Valid()
        && c.mappings == config.mappings
        && c.doubleClickIntervalMs == config.doubleClickIntervalMs
        && c.longPressThresholdMs == config.longPressThresholdMs
        && |c.inputs| == |config.gpioInputs|
        && forall i :: 0 <= i < |c.inputs| ==>
             var g := config.gpioInputs[i];
             c.State().channels[i] == Channel(g.gpio, g.activeHigh, g.debounceMs, Initial(false, 0))
      ensures r.Err? ==> Explains(r.error, config)
    {
      var inputs: seq<RuntimeInput> := [];
      ghost var detectors: set<GestureDetector> := {};
      var i := 0;
      while i < |config.gpioInputs|
        invariant i <= |config.gpioInputs| && |inputs| == i <= MAX_INPUT_CHANNELS
        invariant fresh(detectors) && Own(inputs, detectors)
        invariant DistinctGpios(config.gpioInputs[..i])
        invariant forall k :: 0 <= k < i ==>
          var g := config.gpioInputs[k];
          && inputs[k].gpio == g.gpio && inputs[k].activeHigh == g.activeHigh && inputs[k].debounceMs == g.debounceMs
          && inputs[k].detector.State() == Initial(false, 0)
      {
        var g := config.gpioInputs[i];
        var known := HasGpio(inputs, g.gpio);
        if known {
          return Err(DuplicateGpio(g.gpio));
        }
        if |inputs| == MAX_INPUT_CHANNELS {
          return Err(TooManyInputs);
        }
        var detector := new GestureDetector();
        inputs := inputs + [RuntimeInput(g.gpio, g.activeHigh, g.debounceMs, detector)];
        detectors := detectors + {detector};
        i := i + 1;
      }
      assert config.gpioInputs[..i] == config.gpioInputs;

      var refused := CheckMappings(config, inputs);
      if refused.Some? {
        return Err(refused.value);
      }
      var c := new InputController(config.mappings, config.doubleClickIntervalMs, config.longPressThresholdMs,
                                   inputs, detectors);
      r := Ok(c);
    }

    /** The mapping table must name configured GPIOs only, and no GPIO and event twice. */
    static method CheckMappings(config: InputConfig, inputs: seq<RuntimeInput>)
      returns (error: Option<InputConfigError>)
      requires |inputs| == |config.gpioInputs|
      requires forall i :: 0 <= i < |inputs| ==> inputs[i].gpio == config.gpioInputs[i].gpio
      ensures error.None? <==> && (forall m :: m in config.mappings ==> Configures(config.gpioInputs, m.gpio))
                               && DistinctMappings(config.mappings)
      ensures error.Some? ==> Explains(error.value, config)
    {
      var index := 0;
      while index < |config.mappings|
        invariant index <= |config.mappings|
        invariant forall k :: 0 <= k < index ==> Configures(config.gpioInputs, config.mappings[k].gpio)
        invariant forall k, l :: 0 <= k < index && k < l < |config.mappings| ==>
          !SameKey(config.mappings[k], config.mappings[l])
      {
        var m := config.mappings[index];
        var known := HasGpio(inputs, m.gpio);
        if !known {
          assert m in config.mappings;
          return Some(MappingReferencesUnknownGpio(m.gpio));
        }
        var k :| 0 <= k < |inputs| && inputs[k].gpio == m.gpio;
        assert config.gpioInputs[k].gpio == m.gpio;
        var other := index + 1;
        while other < |config.mappings|
          invariant index < other <= |config.mappings|
          invariant forall l :: index < l < other ==> !SameKey(m, config.mappings[l])
        {
          if SameKey(m, config.mappings[other]) {
            return Some(DuplicateMapping(m.gpio, m.inputEvent));
          }
          other := other + 1;
        }
        index := index + 1;
      }
      return None;
    }

    static method HasGpio(inputs: seq<RuntimeInput>, gpio: nat) returns (found: bool)
      ensures found <==> exists i :: 0 <= i < |inputs| && inputs[i].gpio == gpio
    {
      for i := 0 to |inputs|
        invariant forall k :: 0 <= k < i ==> inputs[k].gpio != gpio
      {
        if inputs[i].gpio == gpio {
          return true;
        }
      }
      return false;
    }

    method SetGestureTiming(doubleClick: nat, longPress: nat)
      requires Valid()
      modifies this
      ensures Valid() && State() == Call(old(State()), SetTiming(doubleClick, longPress)).0
    {
      doubleClickIntervalMs := doubleClick;
      longPressThresholdMs := longPress;
    }

    method Find(gpio: nat) returns (index: Option<nat>)
      requires Valid()
      ensures index == IndexOf(State().channels, gpio)
    {
      for i := 0 to |inputs|
        invariant forall k :: 0 <= k < i ==> inputs[k].gpio != gpio
      {
        if inputs[i].gpio == gpio {
          assert State().channels[i].gpio == gpio;
          return Some(i);
        }
      }
      return None;
    }

    method Initialize(gpio: nat, rawHigh: bool, now: nat) returns (r: Result<(), InputProcessError>)
      requires Valid()
      modifies detectors
      ensures Valid() && State() == Call(old(State()), Init(gpio, rawHigh, now)).0
      ensures r == if Call(old(State()), Init(gpio, rawHigh, now)).1 == Nothing then Ok(()) else Err(UnknownGpio(gpio))
      ensures r.Ok? <==> exists i :: 0 <= i < |inputs| && inputs[i].gpio == gpio
      ensures forall i :: 0 <= i < |inputs| && inputs[i].gpio == gpio ==>
        State().channels[i].state == Initial(rawHigh == inputs[i].activeHigh, now)
    {
      var index := Find(gpio);
      if index.None? {
        return Err(UnknownGpio(gpio));
      }
      var input := inputs[index.value];
      input.detector.Initialize(if input.activeHigh then rawHigh else !rawHigh, now);
      assert State().channels == Call(old(State()), Init(gpio, rawHigh, now)).0.channels;
      return Ok(());
    }

    method Update(gpio: nat, rawHigh: bool, now: nat) returns (r: Result<SampleResult, InputProcessError>)
      requires Valid()
      modifies detectors
      ensures Valid() && State() == Call(old(State()), Level(gpio, rawHigh, now)).0
      ensures Reported(gpio, r) == Call(old(State()), Level(gpio, rawHigh, now)).1
      ensures forall i :: 0 <= i < |inputs| && inputs[i].gpio == gpio ==>
        var tm := Timing(inputs[i].debounceMs, doubleClickIntervalMs, longPressThresholdMs);
        State().channels[i].state == Step(old(State().channels[i].state), rawHigh == inputs[i].activeHigh, now, tm).0
    {
      hide Report, Step, IndexOf;
      var index := Find(gpio);
      if index.None? {
        return Err(UnknownGpio(gpio));
      }
      var input := inputs[index.value];
      var active := if input.activeHigh then rawHigh else !rawHigh;
      var tm := Timing(input.debounceMs, doubleClickIntervalMs, longPressThresholdMs);
      var detected := new EventVec();
      ghost var channel := State().channels[index.value];
      input.detector.Update(active, now, tm, detected);
      assert detected.items == StepChannel(channel, rawHigh, now, tm).1;
      assert State().channels == old(State()).channels[index.value := StepChannel(channel, rawHigh, now, tm).0];
      r := Resolve(mappings, gpio, detected.items);
    }

    /** Looks every detected event up in the mapping table. */
    static method Resolve(mappings: seq<InputMapping>, gpio: nat, detected: seq<InputEvent>)
      returns (r: Result<SampleResult, InputProcessError>)
      ensures r == Report(mappings, gpio, detected)
    {
      hide ActionsFor;
      var inputEvents: seq<DetectedInputEvent> := [];
      var actions: seq<ActionId> := [];
      var i := 0;
      while i < |detected|
        invariant i <= |detected| && i <= MAX_EVENTS_PER_SAMPLE
        invariant inputEvents == Detected(gpio, detected[..i])
        invariant actions == AllActions(mappings, gpio, detected[..i]) && |actions| <= MAX_EVENTS_PER_SAMPLE
      {
        if |inputEvents| == MAX_EVENTS_PER_SAMPLE {
          return Err(TooManyEvents);
        }
        inputEvents := inputEvents + [DetectedInputEvent(gpio, detected[i])];
        assert detected[..i + 1][..i] == detected[..i];
        var more := Append(mappings, gpio, detected[i], actions);
        if more.None? {
          AllActionsGrow(mappings, gpio, detected, i + 1);
          return Err(TooManyEvents);
        }
        actions := more.value;
        i := i + 1;
      }
      assert detected[..i] == detected;
      r := Ok(SampleResult(inputEvents, actions));
    }

    /** Appends the actions of one event, unless the bounded vector overflows. */
    static method Append(mappings: seq<InputMapping>, gpio: nat, event: InputEvent, before: seq<ActionId>)
      returns (r: Option<seq<ActionId>>)
      requires |before| <= MAX_EVENTS_PER_SAMPLE
      ensures var all := before + ActionsFor(mappings, gpio, event);
        r == if |all| <= MAX_EVENTS_PER_SAMPLE then Some(all) else None
    {
      var actions := before;
      for k := 0 to |mappings|
        invariant actions == before + ActionsFor(mappings[..k], gpio, event)
        invariant |actions| <= MAX_EVENTS_PER_SAMPLE
      {
        var m := mappings[k];
        assert mappings[..k + 1][..k] == mappings[..k];
        if m.enabled && m.gpio == gpio && m.inputEvent == event {
          if |actions| == MAX_EVENTS_PER_SAMPLE {
            ActionsGrow(mappings, k + 1, gpio, event);
            return None;
          }
          actions := actions + [m.actionId];
        }
      }
      assert mappings[..|mappings|] == mappings;
      r := Some(actions);
    }
  }

  lemma {:induction false} ActionsGrow(mappings: seq<InputMapping>, k: nat, gpio: nat, event: InputEvent)
    requires k <= |mappings|
    ensures |ActionsFor(mappings[..k], gpio, event)| <= |ActionsFor(mappings, gpio, event)|
    decreases |mappings| - k
  {
    if k == |mappings| {
      assert mappings[..k] == mappings;
    } else {
      assert mappings[..k + 1][..k] == mappings[..k];
      ActionsGrow(mappings, k + 1, gpio, event);
    }
  }

  lemma {:induction false} AllActionsGrow(mappings: seq<InputMapping>, gpio: nat, events: seq<InputEvent>, k: nat)
    requires k <= |events|
    ensures |AllActions(mappings, gpio, events[..k])| <= |AllActions(mappings, gpio, events)|
    decreases |events| - k
  {
    if k == |events| {
      assert events[..k] == events;
    } else {
      assert events[..k + 1][..k] == events[..k];
      AllActionsGrow(mappings, gpio, events, k + 1);
    }
  }
}
