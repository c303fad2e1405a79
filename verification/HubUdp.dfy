/** The hub's processing of one received datagram. */
module HubUdp {
  import opened Wrappers
  import opened Text
  import opened Messages
  import opened HubTables
  import opened HubTransaction
  import opened HubLiveness
  import opened HubActions
  import Delivery

  /** The JSON codec as the hub uses it: decoding, and whether the bytes are text at all. */
  datatype Codec = Codec(decode: Payload -> Option<UdpMessage>, isText: Payload -> bool)

  datatype ActionStatus = Applied | Failed(error: ActionError) | SkippedDuplicate

  datatype Outcome =
    | Ignored
    | HelloAccepted(deviceId: DeviceId)
    | HeartbeatAccepted(deviceId: DeviceId)
    | EventAccepted(deviceId: DeviceId, eventId: string, duplicate: bool, status: ActionStatus, ack: UdpMessage)

  datatype ProcessingError =
    | InvalidMessage
    | InvalidDeviceId
    | InvalidEventId
    | DatabaseError
    | ActionValidation(error: ActionError)

  /** Which database access fails, if any, for a reason outside the schema. */
  datatype Fault = NoFault | InDeviceQuery | InLookup | InValidation | InInsertion | InExecution

  /** The hub as one value; `calls` records every call of the action handler. */
  datatype Hub = Hub(
    tables: Tables, devices: map<DeviceId, bool>, events: seq<EventRow>, liveness: Devices, values: Values,
    calls: seq<Delivery.Row>)

  function Engine(t: Tables, id: ActionId, failing: bool): Result<Plan, ActionError> {
    if failing then Err(DatabaseFailed) else ValidateEvent(t, id)
  }

  function Accepted(m: UdpMessage, duplicate: bool, status: ActionStatus): Outcome
    requires m.Event?
  {
    EventAccepted(m.deviceId, m.eventId, duplicate, status, Ack(m.deviceId, m.eventId))
  }

  function KeyOf(m: UdpMessage): Delivery.Key
    requires m.Event?
  {
    Delivery.Key(m.deviceId, m.eventId)
  }

  /** The call of the action handler for a row just stored. */
  function Handle(h: Hub, m: UdpMessage, fault: Fault): (Hub, ActionStatus)
    requires m.Event?
  {
    var called := h.(calls := h.calls + [Delivery.Row(KeyOf(m), m.actionId)]);
    match if fault.InExecution? then Err(DatabaseFailed) else ExecutionResult(h.tables, h.values, m.actionId)
    case Err(e) => (called, Failed(e))
    case Ok(after) => (called.(values := after), Applied)
  }

  /** An EVENT whose action was validated: the insert decides whether it is new. */
  function StoreAndHandle(codec: Codec, h: Hub, payload: Payload, m: UdpMessage, receivedAt: string, fault: Fault)
    : (Hub, Result<Outcome, ProcessingError>)
    requires m.Event?
  {
    if !codec.isText(payload) then (h, Err(InvalidMessage))
    else if fault.InInsertion? then (h, Err(DatabaseError))
    else if HasEvent(h.events, m.deviceId, m.eventId) then (h, Ok(Accepted(m, true, SkippedDuplicate)))
    else
      var stored := h.(events := h.events + [EventRow(receivedAt, m.deviceId, m.eventId, payload)]);
      var (handled, status) := Handle(stored, m, fault);
      (handled, Ok(Accepted(m, false, status)))
  }

  function ProcessEvent(codec: Codec, h: Hub, payload: Payload, m: UdpMessage, now: nat, receivedAt: string,
      fault: Fault)
    : (Hub, Result<Outcome, ProcessingError>)
    requires m.Event?
  {
    var observed := h.(liveness := Observed(h.liveness, m, now));
    if fault.InLookup? then (h, Err(DatabaseError))
    else if HasEvent(h.events, m.deviceId, m.eventId) then (observed, Ok(Accepted(m, true, SkippedDuplicate)))
    else match Engine(h.tables, m.actionId, fault.InValidation?)
         case Err(e) => (h, Err(ActionValidation(e)))
         case Ok(_) => StoreAndHandle(codec, observed, payload, m, receivedAt, fault)
  }

  function Process(codec: Codec, h: Hub, payload: Payload, now: nat, receivedAt: string, fault: Fault)
    : (Hub, Result<Outcome, ProcessingError>)
  {
    match codec.decode(payload)
    case None => (h, Err(InvalidMessage))
    case Some(m) =>
      if IsBlank(m.deviceId) then (h, Err(InvalidDeviceId))
      else if m.Event? && IsBlank(m.eventId) then (h, Err(InvalidEventId))
      else if m.deviceId !in h.liveness then (h, Ok(Ignored))
      else if fault.InDeviceQuery? then (h, Err(DatabaseError))
      else if !(m.deviceId in h.devices && h.devices[m.deviceId]) then (h, Ok(Ignored))
      else
        var observed := h.(liveness := Observed(h.liveness, m, now));
        match m
        case Ack(_, _) => (h, Ok(Ignored))
        case Event(_, _, _) => ProcessEvent(codec, h, payload, m, now, receivedAt, fault)
        case Hello(d) => (observed, Ok(HelloAccepted(d)))
        case Heartbeat(d) => (observed, Ok(HeartbeatAccepted(d)))
  }

  function EnabledDevices(devices: map<DeviceId, bool>): (enabled: set<DeviceId>)
    ensures forall d :: d in enabled <==> d in devices && devices[d]
  {
    set d | d in devices && devices[d] :: d
  }

  /** A hub that just started: it waits for exactly the devices enabled in the table, and holds no business state. */
  ghost predicate Started(h: Hub, startedAt: nat) {
    && (forall d :: d in h.liveness <==> d in h.devices && h.devices[d])
    && (forall d :: d in h.liveness ==> h.liveness[d] == DeviceState(InitialWait, startedAt, None))
    && h.values == map[]
  }

  class HubUdpProcessor {
    const codec: Codec
    const database: Connection
    const state: CommunicationStateManager
    const handler: ActionEngine
    ghost var calls: seq<Delivery.Row>

    ghost predicate Valid()
      reads this, database, handler
    {
      handler.database == database
    }

    ghost function View(): Hub
      reads this, database, state, handler.state
    {
      Hub(database.tables, database.devices, database.events, state.devices, handler.state.values, calls)
    }

    constructor (codec: Codec, database: Connection, startedAt: nat, offlineTimeout: nat)
      ensures Valid() && this.codec == codec && this.database == database
      ensures fresh(state) && fresh(handler) && fresh(handler.state)
      ensures View() == Hub(database.tables, database.devices, database.events,
                            InitialDevices(EnabledDevices(database.devices), startedAt), map[], [])
    {
      this.codec, this.database, calls := codec, database, [];
      state := new CommunicationStateManager(EnabledDevices(database.devices), startedAt, offlineTimeout);
      handler := new ActionEngine(database);
    }

    /** Lists the enabled devices first; the query may fail. */
    static method FromDatabase(codec: Codec, database: Connection, startedAt: nat, offlineTimeout: nat)
      returns (r: Option<HubUdpProcessor>)
      modifies database`executed
      ensures NoFaults(database.faults) ==> r.Some?
      ensures r.Some? ==>
        && fresh(r.value) && fresh(r.value.state) && fresh(r.value.handler) && fresh(r.value.handler.state)
        && r.value.Valid() && r.value.codec == codec && r.value.database == database
        && r.value.View() == Hub(database.tables, database.devices, database.events,
                                 InitialDevices(EnabledDevices(database.devices), startedAt), map[], [])
        && Started(r.value.View(), startedAt)
        && (forall d :: d in r.value.state.devices <==> d in database.devices && database.devices[d])
    {
      var listed := database.Query();
      if !listed {
        return None;
      }
      var processor := new HubUdpProcessor(codec, database, startedAt, offlineTimeout);
      r := Some(processor);
    }

    /** Processes a datagram as `Process` says, with at most one of its database accesses failing. */
    method ProcessDatagram(payload: Payload, now: nat, receivedAt: string)
      returns (r: Result<Outcome, ProcessingError>, ghost fault: Fault)
      requires Valid()
      modifies this`calls, database`events, database`executed, state, handler.state
      ensures Valid()
      ensures (View(), r) == Process(codec, old(View()), payload, now, receivedAt, fault)
      ensures NoFaults(database.faults) ==> fault == NoFault
    {
      fault := NoFault;
      var decoded := codec.decode(payload);
      if decoded.None? { return Err(InvalidMessage), fault; }
      var message := decoded.value;
      if IsBlank(message.deviceId) { return Err(InvalidDeviceId), fault; }
      if message.Event? && IsBlank(message.eventId) { return Err(InvalidEventId), fault; }
      if message.deviceId !in state.devices { return Ok(Ignored), fault; }
      var ok := database.Query();
      if !ok { return Err(DatabaseError), InDeviceQuery; }
      if !(message.deviceId in database.devices && database.devices[message.deviceId]) { return Ok(Ignored), fault; }
      if message.Ack? { return Ok(Ignored), fault; }

      if message.Event? {
        r, fault := AcceptEvent(payload, message, now, receivedAt);
        return;
      }
      var updated := state.ObserveMessage(message, now);
      if message.Hello? {
        r := Ok(HelloAccepted(message.deviceId));
      } else {
        r := Ok(HeartbeatAccepted(message.deviceId));
      }
    }

    method AcceptEvent(payload: Payload, m: UdpMessage, now: nat, receivedAt: string)
      returns (r: Result<Outcome, ProcessingError>, ghost fault: Fault)
      requires Valid() && m.Event? && m.deviceId in database.devices && !IsBlank(m.deviceId)
      modifies this`calls, database`events, database`executed, state, handler.state
      ensures Valid()
      ensures (View(), r) == ProcessEvent(codec, old(View()), payload, m, now, receivedAt, fault)
      ensures fault != InDeviceQuery
      ensures NoFaults(database.faults) ==> fault == NoFault
    {
      fault := NoFault;
      var ok := database.Query();
      if !ok { return Err(DatabaseError), InLookup; }
      if HasEvent(database.events, m.deviceId, m.eventId) {
        var seen := state.ObserveMessage(m, now);
        return Ok(EventAccepted(m.deviceId, m.eventId, true, SkippedDuplicate, Ack(m.deviceId, m.eventId))), fault;
      }
      var validated := handler.Validate(m.actionId);
      if validated.Err? {
        r := Err(ActionValidation(validated.error));
        fault := if validated.error.DatabaseFailed? then InValidation else NoFault;
        return;
      }
      var updated := state.ObserveMessage(m, now);
      r, fault := StoreEvent(payload, m, receivedAt);
    }

    /** The event is stored before its action runs; a failed action is still acknowledged. */
    method StoreEvent(payload: Payload, m: UdpMessage, receivedAt: string)
      returns (r: Result<Outcome, ProcessingError>, ghost fault: Fault)
      requires Valid() && m.Event? && m.deviceId in database.devices
      modifies this`calls, database`events, database`executed, handler.state
      ensures Valid()
      ensures (View(), r) == StoreAndHandle(codec, old(View()), payload, m, receivedAt, fault)
      ensures fault in {NoFault, InInsertion, InExecution}
      ensures NoFaults(database.faults) ==> fault == NoFault
    {
      fault := NoFault;
      if !codec.isText(payload) { return Err(InvalidMessage), fault; }
      var inserted := database.InsertEvent(EventRow(receivedAt, m.deviceId, m.eventId, payload));
      if inserted.None? { return Err(DatabaseError), InInsertion; }
      var ack := Ack(m.deviceId, m.eventId);
      if !inserted.value {
        return Ok(EventAccepted(m.deviceId, m.eventId, true, SkippedDuplicate, ack)), fault;
      }
      calls := calls + [Delivery.Row(KeyOf(m), m.actionId)];
      var executed := handler.Execute(m.actionId);
      fault := if executed == Err(DatabaseFailed) then InExecution else NoFault;
      var status := if executed.Ok? then Applied else Failed(executed.error);
      r := Ok(EventAccepted(m.deviceId, m.eventId, false, status, ack));
    }
  }
}
