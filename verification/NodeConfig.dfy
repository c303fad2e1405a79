/** Dotted-decimal addresses as the node parses them. */
module Ipv4 {
  import opened Wrappers

  type Octets = o: seq<nat> | |o| == 4 && forall i :: 0 <= i < 4 ==> o[i] < 256 witness [0, 0, 0, 0]

  /** The parts between dots; there is always at least one. */
  function SplitDots(s: string): (parts: seq<string>)
    ensures |parts| > 0
  {
    if s == "" then [""]
    else
      var parts := SplitDots(s[..|s| - 1]);
      var c := s[|s| - 1];
      if c == '.' then parts + [""] else parts[|parts| - 1 := parts[|parts| - 1] + [c]]
  }

  /** Decimal digits whose value never leaves a u8. */
  function ParseDigits(s: string): (v: Option<nat>)
    ensures v.Some? ==> v.value < 256
  {
    if s == "" then Some(0)
    else
      var before := ParseDigits(s[..|s| - 1]);
      var c := s[|s| - 1];
      if before.Some? && '0' <= c <= '9' && before.value * 10 + (c - '0') as nat < 256
      then Some(before.value * 10 + (c - '0') as nat) else None
  }

  /** `u8::from_str`: one leading plus sign is let pass, and so are leading zeros. */
  function ParseU8(s: string): (v: Option<nat>)
    ensures v.Some? ==> v.value < 256
  {
    var digits := if |s| > 1 && s[0] == '+' then s[1..] else s;
    if digits == "" then None else ParseDigits(digits)
  }

  predicate AllDigits(s: string) {
    forall i :: 0 <= i < |s| ==> '0' <= s[i] <= '9'
  }

  /** The number that decimal digits stand for. */
  function DecimalValue(s: string): nat
    requires AllDigits(s)
  {
    if s == "" then 0 else DecimalValue(s[..|s| - 1]) * 10 + (s[|s| - 1] - '0') as nat
  }

  lemma {:induction false} DigitsExactly(s: string)
    ensures ParseDigits(s).Some? <==> AllDigits(s) && DecimalValue(s) < 256
    ensures ParseDigits(s).Some? ==> ParseDigits(s).value == DecimalValue(s)
  {
    if s != "" {
      var init := s[..|s| - 1];
      DigitsExactly(init);
      assert AllDigits(s) <==> AllDigits(init) && '0' <= s[|s| - 1] <= '9' by {
        assert forall i :: 0 <= i < |init| ==> init[i] == s[i];
      }
    }
  }

  /** A part is accepted exactly when it is digits, at least one and perhaps after a plus sign, of a value below 256. */
  lemma U8Exactly(s: string)
    ensures var digits := if |s| > 1 && s[0] == '+' then s[1..] else s;
      ParseU8(s) == if digits != "" && AllDigits(digits) && DecimalValue(digits) < 256
                    then Some(DecimalValue(digits)) else None
  {
    DigitsExactly(if |s| > 1 && s[0] == '+' then s[1..] else s);
  }

  ghost predicate ParsesTo(s: string, o: Octets) {
    var parts := SplitDots(s);
    |parts| == 4 && forall i :: 0 <= i < 4 ==> ParseU8(parts[i]) == Some(o[i])
  }

  /** The loop over the parts; its only store is in range. */
  method ParseIpv4(value: string) returns (r: Option<Octets>)
    ensures r.Some? ==> ParsesTo(value, r.value)
    ensures r.None? ==> forall o :: !ParsesTo(value, o)
  {
    var octets: seq<nat> := [0, 0, 0, 0];
    var count := 0;
    var parts := SplitDots(value);
    for i := 0 to |parts|
      invariant count == i <= 4 && |octets| == 4
      invariant forall k :: 0 <= k < 4 ==> octets[k] < 256
      invariant forall k :: 0 <= k < i ==> ParseU8(parts[k]) == Some(octets[k])
    {
      if count == 4 || parts[i] == "" {
        return None;
      }
      var octet := ParseU8(parts[i]);
      if octet.None? {
        return None;
      }
      octets := octets[count := octet.value];
      count := count + 1;
    }
    r := if count == 4 then Some(octets) else None;
  }

  predicate Parses(value: string) {
    var parts := SplitDots(value);
    |parts| == 4 && forall i :: 0 <= i < 4 ==> ParseU8(parts[i]).Some?
  }

  lemma ParsesIffSome(value: string)
    ensures Parses(value) <==> exists o :: ParsesTo(value, o)
  {
    if Parses(value) {
      var parts := SplitDots(value);
      var o: Octets :=
        [ParseU8(parts[0]).value, ParseU8(parts[1]).value, ParseU8(parts[2]).value, ParseU8(parts[3]).value];
      assert ParsesTo(value, o);
    }
  }

  // ---- Rendering and the round trip --------------------------------------------------

  function Decimal(n: nat): (s: string)
    ensures |s| > 0 && '0' <= s[0] <= '9'
  {
    var digit := '0' + (n % 10) as char;
    if n < 10 then [digit] else Decimal(n / 10) + [digit]
  }

  function Render(o: Octets): string {
    Decimal(o[0]) + "." + Decimal(o[1]) + "." + Decimal(o[2]) + "." + Decimal(o[3])
  }

  lemma {:induction false} DecimalRoundTrip(n: nat)
    requires n < 256
    ensures ParseDigits(Decimal(n)) == Some(n)
    ensures '.' !in Decimal(n)
    ensures |Decimal(n)| <= (if n < 10 then 1 else if n < 100 then 2 else 3)
  {
    var s := Decimal(n);
    if n >= 10 {
      DecimalRoundTrip(n / 10);
      assert s[..|s| - 1] == Decimal(n / 10);
    } else {
      assert s[..|s| - 1] == "";
    }
  }

  lemma OctetRoundTrip(n: nat)
    requires n < 256
    ensures ParseU8(Decimal(n)) == Some(n)
  {
    DecimalRoundTrip(n);
  }

  lemma {:induction false} SplitDotFree(s: string, more: string)
    requires '.' !in more
    ensures var parts := SplitDots(s);
      SplitDots(s + more) == parts[|parts| - 1 := parts[|parts| - 1] + more]
  {
    var parts := SplitDots(s);
    var last := parts[|parts| - 1];
    if more == "" {
      assert s + more == s && last + more == last;
    } else {
      var init := more[..|more| - 1];
      SplitDotFree(s, init);
      assert (s + more)[..|s + more| - 1] == s + init;
      assert last + init + [more[|more| - 1]] == last + more;
    }
  }

  lemma SplitDot(s: string, part: string)
    requires '.' !in part
    ensures SplitDots(s + "." + part) == SplitDots(s) + [part]
  {
    assert (s + ".")[..|s + "."| - 1] == s;
    SplitDotFree(s + ".", part);
    assert "" + part == part;
  }

  lemma SplitFour(a: string, b: string, c: string, d: string)
    requires '.' !in a && '.' !in b && '.' !in c && '.' !in d
    ensures SplitDots(a + "." + b + "." + c + "." + d) == [a, b, c, d]
  {
    hide SplitDots;
    assert SplitDots("") == [""] by { EmptySplit(); }
    SplitDotFree("", a);
    assert "" + a == a && [""][0 := a] == [a];
    SplitDot(a, b);
    SplitDot(a + "." + b, c);
    SplitDot(a + "." + b + "." + c, d);
    assert [a] + [b] + [c] + [d] == [a, b, c, d];
  }

  lemma EmptySplit()
    ensures SplitDots("") == [""]
  {}

  /** Every rendering parses back to its octets and fits the fifteen bytes of a stored address. */
  lemma RenderRoundTrip(o: Octets)
    ensures ParsesTo(Render(o), o)
    ensures |Render(o)| <= 15
  {
    hide SplitDots, ParseDigits, ParseU8, Decimal;
    forall i | 0 <= i < 4
      ensures '.' !in Decimal(o[i]) && |Decimal(o[i])| <= 3 && ParseU8(Decimal(o[i])) == Some(o[i])
    {
      DecimalRoundTrip(o[i]);
      OctetRoundTrip(o[i]);
    }
    SplitFour(Decimal(o[0]), Decimal(o[1]), Decimal(o[2]), Decimal(o[3]));
  }
}

/** The persisted node configuration and its validation. */
module NodeConfig {
  import opened Wrappers
  import opened Messages
  import opened Ipv4
  import opened Gesture
  import opened InputTypes
  import Controller

  const SUPPORTED_GPIO_PINS: seq<nat> :=
    [0, 1, 2, 3, 4, 5, 6, 7, 8, 9, 10, 11, 12, 13, 14, 15, 16, 17, 18, 19, 20, 21, 22, 26, 27, 28]

  predicate Supported(gpio: nat) {
    gpio in SUPPORTED_GPIO_PINS
  }

  const MAX_PERSISTED_GPIO_INPUTS: nat := 10
  const MAX_PERSISTED_INPUT_MAPPINGS: nat := 32

  datatype NetworkMode = Dhcp | Static

  datatype StaticIpv4Config = StaticIpv4Config(ipAddress: string, prefixLength: nat, gateway: string, dns: string)

  datatype PersistedNodeConfig = PersistedNodeConfig(
    deviceId: DeviceId,
    ssid: string,
    password: string,
    mode: NetworkMode,
    staticIpv4: Option<StaticIpv4Config>,
    gpioInputs: seq<GpioInputConfig>,
    inputMappings: seq<InputMapping>,
    doubleClickIntervalMs: nat,
    longPressThresholdMs: nat,
    ackTimeoutMs: nat,
    eventRetryCount: nat,
    heartbeatIntervalSec: nat)

  /** The capacities of the vectors the configuration is held in. */
  predicate Fits(c: PersistedNodeConfig) {
    |c.gpioInputs| <= MAX_PERSISTED_GPIO_INPUTS && |c.inputMappings| <= MAX_PERSISTED_INPUT_MAPPINGS
  }

  datatype ConfigValidationError =
    | EmptyDeviceId
    | UnsupportedGpio(gpio: nat)
    | RepeatedGpio(gpio: nat)
    | UnknownMappingGpio(gpio: nat)
    | RepeatedMapping(gpio: nat, inputEvent: InputEvent)
    | ZeroDebounce(gpio: nat)
    | ZeroDoubleClickInterval
    | ZeroLongPressThreshold
    | ZeroAckTimeout
    | ZeroHeartbeatInterval
    | EmptyWifiSsid
    | MissingStaticIpv4
    | InvalidPrefixLength(length: nat)
    | InvalidIpv4

  ghost predicate NetworkValid(c: PersistedNodeConfig) {
    c.mode.Static? ==>
      && c.staticIpv4.Some?
      && c.staticIpv4.value.prefixLength <= 32
      && Parses(c.staticIpv4.value.ipAddress) && Parses(c.staticIpv4.value.gateway) && Parses(c.staticIpv4.value.dns)
  }

  ghost predicate InputsValid(c: PersistedNodeConfig) {
    && (forall i :: 0 <= i < |c.gpioInputs| ==>
          Supported(c.gpioInputs[i].gpio) && c.gpioInputs[i].debounceMs != 0)
    && DistinctGpios(c.gpioInputs)
    && (forall m :: m in c.inputMappings ==> Configures(c.gpioInputs, m.gpio))
    && DistinctMappings(c.inputMappings)
  }

  /** What `validate` accepts. */
  ghost predicate ValidConfig(c: PersistedNodeConfig) {
    && c.deviceId != "" && c.ssid != ""
    && NetworkValid(c) && InputsValid(c)
    && c.doubleClickIntervalMs != 0 && c.longPressThresholdMs != 0
    && c.ackTimeoutMs != 0 && c.heartbeatIntervalSec != 0
  }

  /** The defect an error names is really there. */
  ghost predicate Has(c: PersistedNodeConfig, e: ConfigValidationError) {
    var inputs, mappings := c.gpioInputs, c.inputMappings;
    match e
    case EmptyDeviceId => c.deviceId == ""
    case EmptyWifiSsid => c.ssid == ""
    case MissingStaticIpv4 => c.mode.Static? && c.staticIpv4.None?
    case InvalidPrefixLength(n) => c.mode.Static? && c.staticIpv4.Some? && c.staticIpv4.value.prefixLength == n > 32
    case InvalidIpv4 =>
      && c.mode.Static? && c.staticIpv4.Some?
      && var v4 := c.staticIpv4.value;
         !(Parses(v4.ipAddress) && Parses(v4.gateway) && Parses(v4.dns))
    case UnsupportedGpio(g) => !Supported(g) && Configures(inputs, g)
    case RepeatedGpio(g) => exists i, j :: 0 <= i < j < |inputs| && inputs[i].gpio == inputs[j].gpio == g
    case ZeroDebounce(g) => exists i :: 0 <= i < |inputs| && inputs[i].gpio == g && inputs[i].debounceMs == 0
    case ZeroDoubleClickInterval => c.doubleClickIntervalMs == 0
    case ZeroLongPressThreshold => c.longPressThresholdMs == 0
    case ZeroAckTimeout => c.ackTimeoutMs == 0
    case ZeroHeartbeatInterval => c.heartbeatIntervalSec == 0
    case UnknownMappingGpio(g) => !Configures(inputs, g) && exists m :: m in mappings && m.gpio == g
    case RepeatedMapping(g, event) =>
      exists i, j :: 0 <= i < j < |mappings| && SameKey(mappings[i], mappings[j])
                     && mappings[i].gpio == g && mappings[i].inputEvent == event
  }

  method ValidateNetwork(c: PersistedNodeConfig) returns (r: Result<(), ConfigValidationError>)
    ensures r.Ok? <==> NetworkValid(c)
    ensures r.Err? ==> Has(c, r.error)
  {
    if c.mode.Dhcp? {
      return Ok(());
    }
    if c.staticIpv4.None? {
      return Err(MissingStaticIpv4);
    }
    var s := c.staticIpv4.value;
    if s.prefixLength > 32 {
      return Err(InvalidPrefixLength(s.prefixLength));
    }
    ParsesIffSome(s.ipAddress);
    ParsesIffSome(s.gateway);
    ParsesIffSome(s.dns);
    var ip := ParseIpv4(s.ipAddress);
    var gateway := ParseIpv4(s.gateway);
    var dns := ParseIpv4(s.dns);
    if ip.None? || gateway.None? || dns.None? {
      return Err(InvalidIpv4);
    }
    return Ok(());
  }

  /** How often a GPIO is configured. */
  method CountGpio(inputs: seq<GpioInputConfig>, gpio: nat) returns (count: nat)
    ensures count > 1 <==> exists i, j :: 0 <= i < j < |inputs| && inputs[i].gpio == inputs[j].gpio == gpio
    ensures count > 0 <==> Configures(inputs, gpio)
  {
    count := 0;
    for k := 0 to |inputs|
      invariant count == 0 <==> forall i :: 0 <= i < k ==> inputs[i].gpio != gpio
      invariant count > 1 <==> exists i, j :: 0 <= i < j < k && inputs[i].gpio == inputs[j].gpio == gpio
    {
      if inputs[k].gpio == gpio {
        count := count + 1;
      }
    }
  }

  method ValidateInputs(c: PersistedNodeConfig) returns (r: Result<(), ConfigValidationError>)
    ensures r.Ok? <==> && DistinctGpios(c.gpioInputs)
                       && forall i :: 0 <= i < |c.gpioInputs| ==>
                            Supported(c.gpioInputs[i].gpio) && c.gpioInputs[i].debounceMs != 0
    ensures r.Err? ==> Has(c, r.error)
  {
    hide Supported;
    for k := 0 to |c.gpioInputs|
      invariant forall i :: 0 <= i < k ==>
        Supported(c.gpioInputs[i].gpio) && c.gpioInputs[i].debounceMs != 0
      invariant forall i, j :: 0 <= i < k && i < j < |c.gpioInputs| ==> c.gpioInputs[i].gpio != c.gpioInputs[j].gpio
    {
      var input := c.gpioInputs[k];
      if !Supported(input.gpio) {
        return Err(UnsupportedGpio(input.gpio));
      }
      var count := CountGpio(c.gpioInputs, input.gpio);
      if count > 1 {
        return Err(RepeatedGpio(input.gpio));
      }
      if input.debounceMs == 0 {
        return Err(ZeroDebounce(input.gpio));
      }
    }
    return Ok(());
  }

  method ValidateMappings(c: PersistedNodeConfig) returns (r: Result<(), ConfigValidationError>)
    ensures r.Ok? <==> && (forall m :: m in c.inputMappings ==> Configures(c.gpioInputs, m.gpio))
                       && DistinctMappings(c.inputMappings)
    ensures r.Err? ==> Has(c, r.error)
  {
    for k := 0 to |c.inputMappings|
      invariant forall i :: 0 <= i < k ==> Configures(c.gpioInputs, c.inputMappings[i].gpio)
      invariant forall i, j :: 0 <= i < k && i < j < |c.inputMappings| ==>
        !SameKey(c.inputMappings[i], c.inputMappings[j])
    {
      var m := c.inputMappings[k];
      var count := CountGpio(c.gpioInputs, m.gpio);
      if count == 0 {
        assert m in c.inputMappings;
        return Err(UnknownMappingGpio(m.gpio));
      }
      for other := k + 1 to |c.inputMappings|
        invariant forall j :: k < j < other ==> !SameKey(m, c.inputMappings[j])
      {
        if SameKey(m, c.inputMappings[other]) {
          return Err(RepeatedMapping(m.gpio, m.inputEvent));
        }
      }
    }
    return Ok(());
  }

  method Validate(c: PersistedNodeConfig) returns (r: Result<(), ConfigValidationError>)
    ensures r.Ok? <==> ValidConfig(c)
    ensures r.Err? ==> Has(c, r.error)
  {
    if c.deviceId == "" { return Err(EmptyDeviceId); }
    if c.ssid == "" { return Err(EmptyWifiSsid); }
    r := ValidateNetwork(c);
    if r.Err? { return; }
    r := ValidateInputs(c);
    if r.Err? { return; }
    if c.doubleClickIntervalMs == 0 { return Err(ZeroDoubleClickInterval); }
    if c.longPressThresholdMs == 0 { return Err(ZeroLongPressThreshold); }
    if c.ackTimeoutMs == 0 { return Err(ZeroAckTimeout); }
    if c.heartbeatIntervalSec == 0 { return Err(ZeroHeartbeatInterval); }
    r := ValidateMappings(c);
  }

  function InputConfigOf(c: PersistedNodeConfig): InputConfig {
    InputConfig(c.gpioInputs, c.inputMappings, c.doubleClickIntervalMs, c.longPressThresholdMs)
  }

  /** A validated configuration is one the input controller accepts. */
  lemma ValidConfigIsWellFormed(c: PersistedNodeConfig)
    requires ValidConfig(c) && Fits(c)
    ensures WellFormed(InputConfigOf(c))
  {}

  /** The firmware's start-up: after validation the controller is always built. */
  method StartInputs(c: PersistedNodeConfig) returns (controller: Option<Controller.InputController>)
    requires Fits(c)
    ensures controller.Some? <== ValidConfig(c)
    ensures controller.Some? ==>
      var k := controller.value;
      && k.Valid() && k.mappings == c.inputMappings
      && k.doubleClickIntervalMs == c.doubleClickIntervalMs && k.longPressThresholdMs == c.longPressThresholdMs
      && |k.inputs| == |c.gpioInputs|
      && forall i :: 0 <= i < |k.inputs| ==>
           var g := c.gpioInputs[i];
           k.State().channels[i] == Controller.Channel(g.gpio, g.activeHigh, g.debounceMs, Initial(false, 0))
  {
    var built := Controller.InputController.New(InputConfigOf(c));
    controller := if built.Ok? then Some(built.value) else None;
  }

  datatype NetworkSetup = DhcpSetup | StaticSetup(address: Octets, prefixLength: nat, gateway: Octets, dns: Octets)

  /** Every `expect` of the start-up has its value once the configuration was validated. */
  method NetworkConfig(c: PersistedNodeConfig) returns (setup: NetworkSetup)
    requires ValidConfig(c)
    ensures setup.DhcpSetup? <==> c.mode.Dhcp?
    ensures setup.StaticSetup? ==>
      && setup.prefixLength == c.staticIpv4.value.prefixLength <= 32
      && ParsesTo(c.staticIpv4.value.ipAddress, setup.address)
      && ParsesTo(c.staticIpv4.value.gateway, setup.gateway)
      && ParsesTo(c.staticIpv4.value.dns, setup.dns)
  {
    if c.mode.Dhcp? {
      return DhcpSetup;
    }
    var s := c.staticIpv4.value;
    ParsesIffSome(s.ipAddress);
    ParsesIffSome(s.gateway);
    ParsesIffSome(s.dns);
    var ip := ParseIpv4(s.ipAddress);
    var gateway := ParseIpv4(s.gateway);
    var dns := ParseIpv4(s.dns);
    setup := StaticSetup(ip.value, s.prefixLength, gateway.value, dns.value);
  }
}
