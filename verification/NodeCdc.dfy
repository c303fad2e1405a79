/** The configuration commands of the node's serial endpoint. */
module NodeCdc {
  import opened Wrappers
  import opened Messages
  import opened InputTypes
  import opened NodeConfig
  import opened FlashRecord
  import opened ConfigStore

  datatype NetworkConfig = NetworkConfig(mode: NetworkMode, staticIpv4: Option<StaticIpv4Config>)

  datatype WifiConfig = WifiConfig(ssid: string, password: string)

  /** A request names each setting or leaves it out. */
  datatype NodeCdcParams = NodeCdcParams(
    deviceId: Option<DeviceId>,
    wifi: Option<WifiConfig>,
    network: Option<NetworkConfig>,
    gpioInputs: Option<seq<GpioInputConfig>>,
    inputMappings: Option<seq<InputMapping>>,
    doubleClickIntervalMs: Option<nat>,
    longPressThresholdMs: Option<nat>,
    ackTimeoutMs: Option<nat>,
    eventRetryCount: Option<nat>,
    heartbeatIntervalSec: Option<nat>)
  {
    predicate Complete() {
      && deviceId.Some? && wifi.Some? && network.Some? && gpioInputs.Some? && inputMappings.Some?
      && doubleClickIntervalMs.Some? && longPressThresholdMs.Some? && ackTimeoutMs.Some?
      && eventRetryCount.Some? && heartbeatIntervalSec.Some?
    }

    predicate Bounded() {
      && (gpioInputs.Some? ==> |gpioInputs.value| <= MAX_PERSISTED_GPIO_INPUTS)
      && (inputMappings.Some? ==> |inputMappings.value| <= MAX_PERSISTED_INPUT_MAPPINGS)
    }
  }

  /** The parameters name every setting of the configuration, each by its own field. */
  ghost predicate Carry(params: NodeCdcParams, c: PersistedNodeConfig) {
    && params.deviceId == Some(c.deviceId)
    && params.wifi.Some? && params.wifi.value.ssid == c.ssid && params.wifi.value.password == c.password
    && params.network.Some? && params.network.value.mode == c.mode && params.network.value.staticIpv4 == c.staticIpv4
    && params.gpioInputs == Some(c.gpioInputs) && params.inputMappings == Some(c.inputMappings)
    && params.doubleClickIntervalMs == Some(c.doubleClickIntervalMs)
    && params.longPressThresholdMs == Some(c.longPressThresholdMs)
    && params.ackTimeoutMs == Some(c.ackTimeoutMs)
    && params.eventRetryCount == Some(c.eventRetryCount)
    && params.heartbeatIntervalSec == Some(c.heartbeatIntervalSec)
  }

  /** What `get_config` answers. */
  function ParamsOf(c: PersistedNodeConfig): (params: NodeCdcParams)
    ensures Carry(params, c) && params.Complete()
    ensures Fits(c) ==> params.Bounded()
  {
    NodeCdcParams(
      Some(c.deviceId), Some(WifiConfig(c.ssid, c.password)), Some(NetworkConfig(c.mode, c.staticIpv4)),
      Some(c.gpioInputs), Some(c.inputMappings), Some(c.doubleClickIntervalMs), Some(c.longPressThresholdMs),
      Some(c.ackTimeoutMs), Some(c.eventRetryCount), Some(c.heartbeatIntervalSec))
  }

  lemma CarryOne(params: NodeCdcParams, c: PersistedNodeConfig, d: PersistedNodeConfig)
    requires Carry(params, c) && Carry(params, d)
    ensures c == d
  {}

  datatype CdcErrorCode = InvalidParameter | InvalidConfiguration | SaveFailed

  /** Accepts exactly the parameters of a valid configuration, and gives that configuration back. */
  method IntoConfig(params: NodeCdcParams) returns (r: Result<PersistedNodeConfig, CdcErrorCode>)
    requires params.Bounded()
    ensures r.Ok? ==> ValidConfig(r.value) && Fits(r.value) && Carry(params, r.value)
    ensures r.Ok? <==> exists c :: ValidConfig(c) && Carry(params, c)
    ensures r == Err(InvalidParameter) <==> !params.Complete()
    ensures r.Err? ==> r.error != SaveFailed
  {
    hide ValidConfig;
    if !params.Complete() {
      return Err(InvalidParameter);
    }
    var config := PersistedNodeConfig(
      params.deviceId.value, params.wifi.value.ssid, params.wifi.value.password,
      params.network.value.mode, params.network.value.staticIpv4,
      params.gpioInputs.value, params.inputMappings.value,
      params.doubleClickIntervalMs.value, params.longPressThresholdMs.value,
      params.ackTimeoutMs.value, params.eventRetryCount.value, params.heartbeatIntervalSec.value);
    assert Carry(params, config);
    forall c | Carry(params, c) ensures c == config { CarryOne(params, c, config); }
    hide Carry;
    var valid := Validate(config);
    r := if valid.Ok? then Ok(config) else Err(InvalidConfiguration);
  }

  class NodeCdcHandler {
    const manager: ConfigManager

    constructor (manager: ConfigManager)
      ensures this.manager == manager
    {
      this.manager := manager;
    }

    /**
    `set_config`: incomplete or invalid parameters are refused and change nothing; valid ones are one set, which is
    answered by success exactly when it is reported, and then is the running configuration and, unless the cells were
    garbled, what the next boot finds.
    */
    method SetConfig(params: NodeCdcParams, device: Device) returns (r: Result<(), CdcErrorCode>)
      requires manager.Valid() && params.Bounded() && device.Possible()
      modifies manager`config, manager.storage.region
      ensures manager.Valid()
      ensures r == Err(InvalidParameter) <==> !params.Complete()
      ensures r == Err(InvalidConfiguration) <==>
        params.Complete() && !exists c :: ValidConfig(c) && Carry(params, c)
      ensures r.Ok? <==> exists c :: ValidConfig(c) && Carry(params, c) && Reported(manager.codec, c, device)
      ensures r.Ok? ==> Carry(params, manager.config) && ValidConfig(manager.config)
      ensures r.Ok? && manager.codec.Lawful() && device.Faithful() ==>
        forall defaults :: Boot(manager.codec, defaults, manager.storage.region[..], true) == manager.config
      ensures r.Err? ==> manager.config == old(manager.config)
      ensures r.Err? && r.error != SaveFailed ==> manager.State() == old(manager.State())
      ensures forall c, defaults :: ValidConfig(c) && Carry(params, c) ==>
        Fits(c) && Apply(manager.codec, defaults, old(manager.State()), Set(c, device)).0 == manager.State()
    {
      hide ValidConfig, Write, Carry, Boot, Reported;
      var config := IntoConfig(params);
      if config.Err? {
        return Err(config.error);
      }
      var c := config.value;
      forall d | Carry(params, d) ensures d == c { CarryOne(params, c, d); }
      assert manager.State() == old(manager.State());
      var saved := manager.SetConfig(c, device);
      forall defaults
        ensures (manager.State(), ReplyOf(saved))
             == Apply(manager.codec, defaults, old(manager.State()), Set(c, device))
        ensures saved.Ok? <==> Reported(manager.codec, c, device)
        ensures saved.Ok? && manager.codec.Lawful() && device.Faithful() ==>
          Boot(manager.codec, defaults, manager.storage.region[..], true) == c
      {
        ReportedIff(manager.codec, defaults, old(manager.State()), c, device);
        if saved.Ok? && manager.codec.Lawful() && device.Faithful() {
          ReportedSetSurvivesIff(manager.codec, defaults, old(manager.State()), c, device);
        }
      }
      assert (manager.State(), ReplyOf(saved)) == Apply(manager.codec, c, old(manager.State()), Set(c, device));
      r := if saved.Ok? then Ok(()) else Err(SaveFailed);
    }

    /** `factory_reset` clears the record and keeps the running configuration. */
    method FactoryReset(erase: EraseOutcome) returns (r: Result<(), CdcErrorCode>)
      requires manager.Valid() && (erase.EraseFails? ==> IsRegion(erase.left))
      modifies manager.storage.region
      ensures manager.Valid() && manager.config == old(manager.config)
      ensures manager.storage.region[..] == AfterErase(old(manager.storage.region[..]), erase)
      ensures r == if erase.Erased? then Ok(()) else Err(SaveFailed)
    {
      var reset := manager.FactoryReset(erase);
      assert (manager.State(), ReplyOf(reset))
          == Apply(manager.codec, manager.config, old(manager.State()), Reset(erase));
      r := if reset.Ok? then Ok(()) else Err(SaveFailed);
    }
  }
}
