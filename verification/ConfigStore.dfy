/** The node's configuration manager over the flash record. */
module ConfigStore {
  import opened Wrappers
  import opened Bytes
  import opened NodeConfig
  import opened FlashRecord
  import InputTypes

  const CONFIG_STORAGE_FORMAT_VERSION: nat := 2

  datatype StorageEnvelope = StorageEnvelope(version: nat, config: PersistedNodeConfig)

  /** The JSON text of an envelope; either direction may refuse. */
  datatype ConfigCodec = ConfigCodec(
    encode: StorageEnvelope -> Option<seq<Byte>>,
    decode: seq<Byte> -> Option<StorageEnvelope>)
  {
    ghost predicate Lawful() {
      && (forall e :: encode(e).Some? ==>
          |encode(e).value| <= CONFIG_STORAGE_SIZE && decode(encode(e).value) == Some(e))
      && (forall bytes :: decode(bytes).Some? ==> Fits(decode(bytes).value.config))
    }
  }

  function Encoded(codec: ConfigCodec, c: PersistedNodeConfig): Option<seq<Byte>> {
    codec.encode(StorageEnvelope(CONFIG_STORAGE_FORMAT_VERSION, c))
  }

  /** The configurations that reach the flash. */
  ghost predicate Savable(codec: ConfigCodec, c: PersistedNodeConfig) {
    ValidConfig(c) && Encoded(codec, c).Some? && 1 <= |Encoded(codec, c).value| <= MAX_RECORD
  }

  /** What stored bytes mean; anything but a valid record of this version means the defaults. */
  ghost function Loaded(codec: ConfigCodec, defaults: PersistedNodeConfig, data: seq<Byte>): PersistedNodeConfig {
    var record := if data == [] then None else codec.decode(data);
    if record.Some? && record.value.version == CONFIG_STORAGE_FORMAT_VERSION && ValidConfig(record.value.config)
    then record.value.config else defaults
  }

  ghost function Boot(codec: ConfigCodec, defaults: PersistedNodeConfig, region: seq<Byte>, readable: bool)
    : PersistedNodeConfig
    requires IsRegion(region)
  {
    if readable then Loaded(codec, defaults, Stored(region, CONFIG_STORAGE_SIZE)) else defaults
  }

  // ---- Runs --------------------------------------------------------------------------

  datatype NodeState = NodeState(region: seq<Byte>, config: PersistedNodeConfig)

  datatype Op =
    | Set(config: PersistedNodeConfig, device: Device)
    | Reset(erase: EraseOutcome)
    | Reboot(readable: bool)
  {
    /** What the device and the bounded vectors rule out. */
    predicate Possible() {
      match this
      case Set(c, device) => Fits(c) && device.Possible()
      case Reset(erase) => erase.EraseFails? ==> IsRegion(erase.left)
      case Reboot(_) => true
    }
  }

  datatype ManagerError =
    | InvalidConfig(defect: ConfigValidationError)
    | Storage(error: FlashStorageError)
    | Serialization

  /** A reply without the defect that a refusal names. */
  datatype Reply = Done | Invalid | Failed(error: FlashStorageError) | Unencodable

  function ReplyOf(r: Result<(), ManagerError>): Reply {
    match r
    case Ok(_) => Done
    case Err(InvalidConfig(_)) => Invalid
    case Err(Storage(e)) => Failed(e)
    case Err(Serialization) => Unencodable
  }

  ghost function Apply(codec: ConfigCodec, defaults: PersistedNodeConfig, s: NodeState, op: Op)
    : (r: (NodeState, Reply))
    requires IsRegion(s.region) && op.Possible()
    ensures IsRegion(r.0.region)
  {
    match op
    case Set(c, device) =>
      if !ValidConfig(c) then (s, Invalid)
      else if Encoded(codec, c).None? then (s, Unencodable)
      else
        var (region, written) := Write(s.region, Encoded(codec, c).value, device);
        if written.Err? then (s.(region := region), Failed(written.error))
        else (NodeState(region, c), Done)
    case Reset(erase) =>
      (s.(region := AfterErase(s.region, erase)), if erase.Erased? then Done else Failed(Flash))
    case Reboot(readable) => (s.(config := Boot(codec, defaults, s.region, readable)), Done)
  }

  ghost function Run(codec: ConfigCodec, defaults: PersistedNodeConfig, s: NodeState, ops: seq<Op>): (r: NodeState)
    requires IsRegion(s.region) && forall op :: op in ops ==> op.Possible()
    ensures IsRegion(r.region)
  {
    if ops == [] then s
    else Apply(codec, defaults, Run(codec, defaults, s, ops[..|ops| - 1]), ops[|ops| - 1]).0
  }

  lemma {:induction false} RunConcat(codec: ConfigCodec, defaults: PersistedNodeConfig, s: NodeState, a: seq<Op>,
      b: seq<Op>)
    requires IsRegion(s.region) && forall op :: op in a + b ==> op.Possible()
    ensures (forall op :: op in a ==> op.Possible()) && (forall op :: op in b ==> op.Possible())
    ensures Run(codec, defaults, s, a + b) == Run(codec, defaults, Run(codec, defaults, s, a), b)
  {
    forall op | op in a || op in b ensures op.Possible() {
      assert op in a + b;
    }
    if b == [] {
      assert a + b == a;
    } else {
      var init := b[..|b| - 1];
      assert (a + b)[..|a + b| - 1] == a + init;
      RunConcat(codec, defaults, s, a, init);
    }
  }

  ghost predicate Usable(c: PersistedNodeConfig) {
    ValidConfig(c) && Fits(c)
  }

  /** Whatever the flash holds and however its operations fail, the active configuration is always one that
      validation accepts, and the inputs always start on it. */
  lemma {:induction false} ActiveConfigAlwaysUsable(codec: ConfigCodec, defaults: PersistedNodeConfig, s: NodeState,
      ops: seq<Op>)
    requires codec.Lawful() && Usable(defaults) && Usable(s.config)
    requires IsRegion(s.region) && forall op :: op in ops ==> op.Possible()
    ensures Usable(Run(codec, defaults, s, ops).config)
    ensures InputTypes.WellFormed(InputConfigOf(Run(codec, defaults, s, ops).config))
  {
    hide ValidConfig, Fits, InputTypes.WellFormed, Write;
    if ops != [] {
      ActiveConfigAlwaysUsable(codec, defaults, s, ops[..|ops| - 1]);
      var before := Run(codec, defaults, s, ops[..|ops| - 1]);
      var op := ops[|ops| - 1];
      assert op in ops;
      assert Usable(Apply(codec, defaults, before, op).0.config);
    }
    ValidConfigIsWellFormed(Run(codec, defaults, s, ops).config);
  }

  /** An operation that may move the active configuration. */
  ghost predicate Moves(codec: ConfigCodec, defaults: PersistedNodeConfig, s: NodeState, op: Op)
    requires IsRegion(s.region) && op.Possible()
  {
    op.Reboot? || (op.Set? && Apply(codec, defaults, s, op).1.Done?)
  }

  /** Failed sets and resets leave the active configuration alone, over any run of them. */
  lemma {:induction false} OnlySuccessMovesTheConfig(codec: ConfigCodec, defaults: PersistedNodeConfig, s: NodeState,
      ops: seq<Op>)
    requires IsRegion(s.region) && forall op :: op in ops ==> op.Possible()
    requires forall k :: 0 <= k < |ops| ==> !Moves(codec, defaults, Run(codec, defaults, s, ops[..k]), ops[k])
    ensures Run(codec, defaults, s, ops).config == s.config
  {
    if ops != [] {
      var init := ops[..|ops| - 1];
      forall k | 0 <= k < |init| ensures !Moves(codec, defaults, Run(codec, defaults, s, init[..k]), init[k]) {
        assert init[..k] == ops[..k] && init[k] == ops[k];
      }
      OnlySuccessMovesTheConfig(codec, defaults, s, init);
      assert !Moves(codec, defaults, Run(codec, defaults, s, ops[..|ops| - 1]), ops[|ops| - 1]);
    }
  }

  // ---- Survival ------------------------------------------------------------------------

  /** On a device that does what it says, a set succeeds exactly when the configuration is savable and the
      check can be read; the record is stored even when that last read fails. */
  lemma FaithfulSet(codec: ConfigCodec, defaults: PersistedNodeConfig, s: NodeState, c: PersistedNodeConfig,
      device: Device)
    requires codec.Lawful() && IsRegion(s.region) && Fits(c) && device.Possible() && device.Faithful()
    ensures var (after, result) := Apply(codec, defaults, s, Set(c, device));
      && (result.Done? <==> Savable(codec, c) && device.readable)
      && Boot(codec, defaults, after.region, true) ==
         if Savable(codec, c) then c else Boot(codec, defaults, s.region, true)
  {
    hide ValidConfig, Stored, Header, Image;
    if Savable(codec, c) {
      var data := Encoded(codec, c).value;
      RecordRoundTrip(data, CONFIG_STORAGE_SIZE);
      assert Image(data)[..CONFIG_RECORD_HEADER_SIZE] == Header(|data|) by { ImageHeader(data); }
    }
  }

  lemma ImageHeader(data: seq<Byte>)
    requires |data| <= MAX_RECORD
    ensures Image(data)[..CONFIG_RECORD_HEADER_SIZE] == Header(|data|)
  {}

  /** An operation that reaches the flash cells. */
  ghost predicate Touches(codec: ConfigCodec, op: Op) {
    op.Reset? || (op.Set? && Savable(codec, op.config))
  }

  lemma {:induction false} UntouchedRegion(codec: ConfigCodec, defaults: PersistedNodeConfig, s: NodeState,
      ops: seq<Op>)
    requires IsRegion(s.region) && forall op :: op in ops ==> op.Possible() && !Touches(codec, op)
    ensures Run(codec, defaults, s, ops).region == s.region
  {
    hide ValidConfig;
    if ops != [] {
      UntouchedRegion(codec, defaults, s, ops[..|ops| - 1]);
      assert ops[|ops| - 1] in ops;
    }
  }

  /** After any history, a faithful set is what every later readable boot finds, until the next write or clear. */
  lemma SetSurvives(codec: ConfigCodec, defaults: PersistedNodeConfig, s: NodeState, before: seq<Op>,
                    c: PersistedNodeConfig, device: Device, after: seq<Op>)
    requires codec.Lawful() && IsRegion(s.region)
    requires forall op :: op in before ==> op.Possible()
    requires forall op :: op in after ==> op.Possible() && !Touches(codec, op)
    requires Fits(c) && device.Possible() && device.Faithful() && Savable(codec, c)
    ensures var ops := before + [Set(c, device)] + after + [Reboot(true)];
      (forall op :: op in ops ==> op.Possible()) && Run(codec, defaults, s, ops).config == c
  {
    hide ValidConfig, Stored, Write, Fits, Savable;
    var written, settled := before + [Set(c, device)], before + [Set(c, device)] + after;
    var ops := settled + [Reboot(true)];
    forall op | op in ops ensures op.Possible() {}
    forall op | op in settled ensures op.Possible() {}
    assert ops[..|ops| - 1] == settled && written[..|written| - 1] == before;
    RunConcat(codec, defaults, s, written, after);
    FaithfulSet(codec, defaults, Run(codec, defaults, s, before), c, device);
    UntouchedRegion(codec, defaults, Run(codec, defaults, s, written), after);
  }

  /** A successful reset keeps the running configuration and boots into the defaults. */
  lemma ResetTakesEffectAtBoot(codec: ConfigCodec, defaults: PersistedNodeConfig, s: NodeState, readable: bool)
    requires IsRegion(s.region)
    ensures var ops := [Reset(Erased), Reboot(readable)];
      && Run(codec, defaults, s, ops[..1]).config == s.config
      && Run(codec, defaults, s, ops).config == defaults
  {
    var ops := [Reset(Erased), Reboot(readable)];
    assert ops[..1][..0] == [];
    BlankReadsAsNothing();
  }

  lemma BlankReadsAsNothing()
    ensures Stored(Blank(), CONFIG_STORAGE_SIZE) == []
  {
    hide *;
    if Stored(Blank(), CONFIG_STORAGE_SIZE) != [] {
      var data := Stored(Blank(), CONFIG_STORAGE_SIZE);
      ReadsExactly(Blank(), data, CONFIG_STORAGE_SIZE);
      HeaderStart(|data|);
      BlankByte();
      assert false;
    }
  }

  lemma HeaderStart(length: nat)
    ensures Header(length)[..6][0] == 0x47
  {}

  lemma BlankByte()
    ensures |Blank()| == CONFIG_STORAGE_SIZE && Blank()[0] == 0xff
  {}

  /** What a write that was not refused leaves where the record's body belongs. */
  function BodyLeft(data: seq<Byte>, device: Device): seq<Byte>
    requires |data| <= MAX_RECORD && device.Possible()
  {
    if device.program.Exact? then data else device.program.left[CONFIG_RECORD_HEADER_SIZE..][..|data|]
  }

  /** The configuration is savable, erasing and programming answer, and the header that is read back is the one
      written. */
  ghost predicate Reported(codec: ConfigCodec, c: PersistedNodeConfig, device: Device)
    requires device.Possible()
  {
    && Savable(codec, c) && device.erase.Erased? && device.readable && !device.program.ProgramFails?
    && (device.program.Garbled? ==>
          device.program.left[..CONFIG_RECORD_HEADER_SIZE] == Header(|Encoded(codec, c).value|))
  }

  /** Exactly when a set is reported as done. */
  lemma ReportedIff(codec: ConfigCodec, defaults: PersistedNodeConfig, s: NodeState, c: PersistedNodeConfig,
                    device: Device)
    requires IsRegion(s.region) && Fits(c) && device.Possible()
    ensures Apply(codec, defaults, s, Set(c, device)).1.Done? <==> Reported(codec, c, device)
  {
    hide ValidConfig, Stored, Header, Image, Blank;
    if Savable(codec, c) {
      ImageHeader(Encoded(codec, c).value);
    }
  }

  /** The next boot after a reported set reads the bytes left in the body, as many as were written. */
  lemma ReportedSetBoots(codec: ConfigCodec, defaults: PersistedNodeConfig, s: NodeState, c: PersistedNodeConfig,
                         device: Device)
    requires codec.Lawful() && IsRegion(s.region) && Fits(c) && device.Possible()
    requires Apply(codec, defaults, s, Set(c, device)).1.Done?
    ensures Savable(codec, c)
    ensures Boot(codec, defaults, Apply(codec, defaults, s, Set(c, device)).0.region, true)
         == Loaded(codec, defaults, BodyLeft(Encoded(codec, c).value, device))
  {
    ReportedIff(codec, defaults, s, c, device);
    hide ValidConfig, Stored, Header, Blank;
    var data := Encoded(codec, c).value;
    var region := Apply(codec, defaults, s, Set(c, device)).0.region;
    var body := BodyLeft(data, device);
    ImageHeader(data);
    assert region[..6] == region[..CONFIG_RECORD_HEADER_SIZE][..6];
    assert region[CONFIG_RECORD_HEADER_SIZE..CONFIG_RECORD_HEADER_SIZE + |data|] == body;
    ReadsExactly(region, body, CONFIG_STORAGE_SIZE);
  }

  /** The record that some bytes hold, if it is one of this version that passes validation. */
  ghost function ValidRecord(codec: ConfigCodec, body: seq<Byte>): Option<PersistedNodeConfig> {
    var record := codec.decode(body);
    if record.Some? && record.value.version == CONFIG_STORAGE_FORMAT_VERSION && ValidConfig(record.value.config)
    then Some(record.value.config) else None
  }

  /**
  A reported set is what the next boot finds exactly when the body left by the device still decodes to it, or to
  nothing valid while the defaults are the very configuration that was set. An exact write always qualifies.
  */
  lemma ReportedSetSurvivesIff(codec: ConfigCodec, defaults: PersistedNodeConfig, s: NodeState, c: PersistedNodeConfig,
                               device: Device)
    requires codec.Lawful() && IsRegion(s.region) && Fits(c) && device.Possible()
    requires Apply(codec, defaults, s, Set(c, device)).1.Done?
    ensures Savable(codec, c)
    ensures var record := ValidRecord(codec, BodyLeft(Encoded(codec, c).value, device));
      && (Boot(codec, defaults, Apply(codec, defaults, s, Set(c, device)).0.region, true) == c <==>
            if record.Some? then record.value == c else defaults == c)
      && (device.program.Exact? ==> record == Some(c))
  {
    ReportedSetBoots(codec, defaults, s, c, device);
    hide ValidConfig, Stored, Header, Image, Blank;
  }

  /** The check compares headers only: whatever garbled cells of the right length stand behind it, the set is
      reported, and the node boots into the valid record they happen to hold, or else into its defaults. */
  lemma GarbledBodyPassesTheCheck(codec: ConfigCodec, defaults: PersistedNodeConfig, s: NodeState,
                                  c: PersistedNodeConfig, junk: seq<Byte>)
    requires codec.Lawful() && IsRegion(s.region) && Fits(c) && Savable(codec, c)
    requires |junk| == |Encoded(codec, c).value|
    ensures var op := Set(c, Device(Erased, Garbled(Image(junk)), true));
      var (after, result) := Apply(codec, defaults, s, op);
      var booted := Boot(codec, defaults, after.region, true);
      && result == Done && after.config == c
      && (codec.decode(junk).None? ==> booted == defaults)
      && (forall d :: codec.decode(junk) == Some(StorageEnvelope(CONFIG_STORAGE_FORMAT_VERSION, d)) ==>
            booted == if ValidConfig(d) then d else defaults)
  {
    hide ValidConfig, Stored, Header, Image;
    ImageHeader(junk);
    RecordRoundTrip(junk, CONFIG_STORAGE_SIZE);
  }

  // ---- The manager in place ----------------------------------------------------------------

  class ConfigManager {
    const codec: ConfigCodec
    const storage: FlashConfigStorage
    var config: PersistedNodeConfig

    ghost predicate Valid()
      reads this, storage
    {
      storage.Valid()
    }

    ghost function State(): NodeState
      requires Valid()
      reads this, storage, storage.region
    {
      NodeState(storage.region[..], config)
    }

    constructor (codec: ConfigCodec, storage: FlashConfigStorage, defaults: PersistedNodeConfig, readable: bool)
      requires storage.Valid()
      ensures Valid() && this.storage == storage && this.codec == codec
      ensures storage.region[..] == old(storage.region[..])
      ensures config == Boot(codec, defaults, storage.region[..], readable)
    {
      this.codec, this.storage, this.config := codec, storage, defaults;
      new;
      var raw := new Byte[CONFIG_STORAGE_SIZE](i => 0);
      var used := storage.Read(raw, readable);
      assert storage.region[..] == old(storage.region[..]);
      if used.Ok? && used.value > 0 {
        assert raw[..used.value] == Stored(storage.region[..], CONFIG_STORAGE_SIZE);
        var record := codec.decode(raw[..used.value]);
        if record.Some? && record.value.version == CONFIG_STORAGE_FORMAT_VERSION {
          var valid := Validate(record.value.config);
          if valid.Ok? {
            config := record.value.config;
          }
        }
      }
    }

    method SetConfig(c: PersistedNodeConfig, device: Device) returns (r: Result<(), ManagerError>)
      requires Valid() && Fits(c) && device.Possible()
      modifies this`config, storage.region
      ensures Valid()
      ensures forall defaults :: (State(), ReplyOf(r)) == Apply(codec, defaults, old(State()), Set(c, device))
      ensures r.Err? && r.error.InvalidConfig? ==> Has(c, r.error.defect)
    {
      hide ValidConfig, Write;
      var valid := Validate(c);
      if valid.Err? {
        return Err(InvalidConfig(valid.error));
      }
      var raw := Encoded(codec, c);
      if raw.None? {
        return Err(Serialization);
      }
      var written := storage.Save(raw.value, device);
      if written.Err? {
        return Err(Storage(written.error));
      }
      config := c;
      r := Ok(());
    }

    method FactoryReset(erase: EraseOutcome) returns (r: Result<(), ManagerError>)
      requires Valid() && (erase.EraseFails? ==> IsRegion(erase.left))
      modifies storage.region
      ensures Valid()
      ensures forall defaults :: (State(), ReplyOf(r)) == Apply(codec, defaults, old(State()), Reset(erase))
    {
      var cleared := storage.Clear(erase);
      r := if cleared.Ok? then Ok(()) else Err(Storage(cleared.error));
    }
  }
}
