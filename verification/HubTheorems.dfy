/** What datagram processing keeps over whole runs, and how it refines the delivery system. */
module HubTheorems {
  import opened Wrappers
  import opened Time
  import opened Messages
  import opened Ordering
  import opened Text
  import opened HubTables
  import opened HubTransaction
  import opened HubLiveness
  import opened HubActions
  import opened HubUdp
  import opened Delivery

  /** The action a stored row's payload carries. */
  function ActionOf(codec: Codec, row: EventRow): ActionId {
    match codec.decode(row.payload)
    case Some(Event(_, _, id)) => id
    case _ => 0
  }

  /** The business state as the left-to-right replay of event rows. */
  function Replay(codec: Codec, t: Tables, rows: seq<EventRow>): Values {
    if rows == [] then map[]
    else Executed(t, Replay(codec, t, rows[..|rows| - 1]), ActionOf(codec, rows[|rows| - 1]))
  }

  /** The value that executing an action gives a key, if its plan is valid, repeats nothing and writes the key. */
  function Effect(t: Tables, id: ActionId, k: ValueKey): Option<StateValue> {
    var plan := ValidateEvent(t, id);
    if plan.Ok? && FirstRepeat(plan.value.changes).None? then Written(plan.value.scope, plan.value.changes, k) else None
  }

  /** The value the last row that writes a key gives it. */
  function LastWrite(codec: Codec, t: Tables, rows: seq<EventRow>, k: ValueKey): Option<StateValue> {
    if rows == [] then None
    else
      var effect := Effect(t, ActionOf(codec, rows[|rows| - 1]), k);
      if effect.Some? then effect else LastWrite(codec, t, rows[..|rows| - 1], k)
  }

  /** Replay is last writer wins, key by key. */
  lemma {:induction false} LastWriterWins(codec: Codec, t: Tables, rows: seq<EventRow>, k: ValueKey)
    ensures ValueAt(Replay(codec, t, rows), k) == LastWrite(codec, t, rows, k)
  {
    if rows != [] {
      var init := rows[..|rows| - 1];
      LastWriterWins(codec, t, init, k);
      var plan := ValidateEvent(t, ActionOf(codec, rows[|rows| - 1]));
      if plan.Ok? {
        MergedValueAt(Replay(codec, t, init), plan.value.scope, plan.value.changes, k);
      }
    }
  }

  /** Row q, at p or later, writes the key, and no row after it does. */
  ghost predicate WritesLast(codec: Codec, t: Tables, rows: seq<EventRow>, k: ValueKey, p: nat, q: nat) {
    && p <= q < |rows| && Effect(t, ActionOf(codec, rows[q]), k).Some?
    && forall r :: q < r < |rows| ==> Effect(t, ActionOf(codec, rows[r]), k).None?
  }

  /** Once a row writes a key, the key holds what the last writer from there on gave it. */
  lemma {:induction false} LastWriteFrom(codec: Codec, t: Tables, rows: seq<EventRow>, k: ValueKey, p: nat)
    returns (q: nat)
    requires p < |rows| && Effect(t, ActionOf(codec, rows[p]), k).Some?
    ensures WritesLast(codec, t, rows, k, p, q)
    ensures LastWrite(codec, t, rows, k) == Effect(t, ActionOf(codec, rows[q]), k)
    decreases |rows|
  {
    hide Effect, ActionOf;
    var init, last := rows[..|rows| - 1], |rows| - 1;
    if Effect(t, ActionOf(codec, rows[last]), k).Some? {
      q := last;
    } else {
      q := LastWriteFrom(codec, t, init, k, p);
    }
  }

  // ---- One datagram ---------------------------------------------------------------------

  /** The datagram is a new event and is stored. */
  ghost predicate StoresRow(h: Hub, h': Hub, m: UdpMessage, row: EventRow)
  {
    && m.Event?
    && row.deviceId == m.deviceId && row.eventId == m.eventId
    && !HasEvent(h.events, m.deviceId, m.eventId)
    && h'.events == h.events + [row]
    && h'.calls == h.calls + [Row(Key(m.deviceId, m.eventId), m.actionId)]
  }

  /** The configuration is never touched, and no device is added or dropped. */
  lemma ConfigurationUntouched(codec: Codec, h: Hub, payload: Payload, now: nat, at: string, fault: Fault)
    ensures var h' := Process(codec, h, payload, now, at, fault).0;
      h'.tables == h.tables && h'.devices == h.devices && h'.liveness.Keys == h.liveness.Keys
  {
    hide ValidateEvent, ExecutionResult, HasEvent, IsBlank;
  }

  lemma AcceptedNamesItsEvent(codec: Codec, h: Hub, payload: Payload, now: nat, at: string, fault: Fault)
    ensures var r := Process(codec, h, payload, now, at, fault).1;
      r.Ok? && r.value.EventAccepted? ==>
        && codec.decode(payload) == Some(Event(r.value.deviceId, r.value.eventId, codec.decode(payload).value.actionId))
        && r.value.ack == Ack(r.value.deviceId, r.value.eventId)
        && r.value.duplicate == HasEvent(h.events, r.value.deviceId, r.value.eventId)
  {
    hide ValidateEvent, ExecutionResult, HasEvent, IsBlank, Observed;
  }

  /** A row is stored and the handler called for it exactly when a non-duplicate ACK is returned. */
  lemma StoredCalledAcknowledged(codec: Codec, h: Hub, payload: Payload, now: nat, at: string, fault: Fault)
    ensures var (h', r) := Process(codec, h, payload, now, at, fault);
      if r.Ok? && r.value.EventAccepted? && !r.value.duplicate
      then StoresRow(h, h', codec.decode(payload).value, EventRow(at, r.value.deviceId, r.value.eventId, payload))
      else h'.events == h.events && h'.calls == h.calls && h'.values == h.values
  {
    hide ValidateEvent, ExecutionResult, HasEvent, IsBlank, Observed;
  }

  /** An ACK always answers a stored row. */
  lemma AcksAnswerRows(codec: Codec, h: Hub, payload: Payload, now: nat, at: string, fault: Fault)
    ensures var (h', r) := Process(codec, h, payload, now, at, fault);
      r.Ok? && r.value.EventAccepted? ==> HasEvent(h'.events, r.value.deviceId, r.value.eventId)
  {
    var (h', r) := Process(codec, h, payload, now, at, fault);
    StoredCalledAcknowledged(codec, h, payload, now, at, fault);
    AcceptedNamesItsEvent(codec, h, payload, now, at, fault);
    hide Process;
    if r.Ok? && r.value.EventAccepted? && !r.value.duplicate {
      assert h'.events[|h.events|] == EventRow(at, r.value.deviceId, r.value.eventId, payload);
    }
  }

  /** A device the hub knows since its start and that is still enabled in the table. */
  predicate Managed(h: Hub, d: DeviceId) {
    d in h.liveness && d in h.devices && h.devices[d]
  }

  /** A message whose identifiers are not blank. */
  predicate Identified(m: UdpMessage) {
    !IsBlank(m.deviceId) && (m.Event? ==> !IsBlank(m.eventId))
  }

  /** The datagram is an EVENT of a managed device, new to the table, with an action that can be executed. */
  predicate Fresh(codec: Codec, h: Hub, payload: Payload) {
    var m := codec.decode(payload);
    && m.Some? && m.value.Event? && Identified(m.value) && Managed(h, m.value.deviceId)
    && !HasEvent(h.events, m.value.deviceId, m.value.eventId)
    && ValidateEvent(h.tables, m.value.actionId).Ok? && codec.isText(payload)
  }

  /** What is stored is decided before the call, up to a database failure on the way. */
  lemma StoredIffFresh(codec: Codec, h: Hub, payload: Payload, now: nat, at: string, fault: Fault)
    ensures var h' := Process(codec, h, payload, now, at, fault).0;
      |h'.events| > |h.events| <==> Fresh(codec, h, payload) && (fault == NoFault || fault == InExecution)
  {
    hide ValidateEvent, ExecutionResult, HasEvent, IsBlank, Observed;
  }

  /** Without database faults, exactly which datagrams get which answer. */
  lemma AnsweredIff(codec: Codec, h: Hub, payload: Payload, now: nat, at: string)
    ensures var r := Process(codec, h, payload, now, at, NoFault).1;
      var m := codec.decode(payload);
      var heeded := m.Some? && Identified(m.value) && Managed(h, m.value.deviceId);
      && (r.Ok? && r.value.EventAccepted? <==>
            && heeded && m.value.Event?
            && (HasEvent(h.events, m.value.deviceId, m.value.eventId)
                || (ValidateEvent(h.tables, m.value.actionId).Ok? && codec.isText(payload))))
      && (r.Ok? && r.value.HelloAccepted? <==> heeded && m.value.Hello?)
      && (r.Ok? && r.value.HeartbeatAccepted? <==> heeded && m.value.Heartbeat?)
      && (r == Ok(Ignored) <==>
            m.Some? && Identified(m.value) && (m.value.Ack? || !Managed(h, m.value.deviceId)))
  {
    hide ValidateEvent, ExecutionResult, HasEvent, IsBlank, Observed;
  }

  /** Without database faults, exactly which datagrams are refused, and why. */
  lemma RefusedIff(codec: Codec, h: Hub, payload: Payload, now: nat, at: string)
    ensures var r := Process(codec, h, payload, now, at, NoFault).1;
      var m := codec.decode(payload);
      && (r == Err(InvalidDeviceId) <==> m.Some? && IsBlank(m.value.deviceId))
      && (r == Err(InvalidEventId) <==>
            m.Some? && m.value.Event? && !IsBlank(m.value.deviceId) && IsBlank(m.value.eventId))
      && (forall e :: r == Err(ActionValidation(e)) <==>
            && m.Some? && m.value.Event? && Identified(m.value) && Managed(h, m.value.deviceId)
            && !HasEvent(h.events, m.value.deviceId, m.value.eventId)
            && ValidateEvent(h.tables, m.value.actionId) == Err(e))
      && (r == Err(InvalidMessage) <==>
            m.None? || (&& m.value.Event? && Identified(m.value) && Managed(h, m.value.deviceId)
                        && !HasEvent(h.events, m.value.deviceId, m.value.eventId)
                        && ValidateEvent(h.tables, m.value.actionId).Ok? && !codec.isText(payload)))
      && r != Err(DatabaseError)
  {
    hide ValidateEvent, ExecutionResult, HasEvent, IsBlank, Observed;
  }

  // ---- The first datagrams after a start -----------------------------------------------------

  /** The first HELLO of an enabled device is accepted and puts the device online, and nothing else happens. */
  lemma FirstHelloIsAccepted(codec: Codec, h: Hub, startedAt: nat, payload: Payload, d: DeviceId, now: nat, at: string)
    requires Started(h, startedAt) && codec.decode(payload) == Some(Hello(d))
    requires d in h.devices && h.devices[d] && !IsBlank(d)
    ensures Process(codec, h, payload, now, at, NoFault)
         == (h.(liveness := h.liveness[d := DeviceState(Online, startedAt, Some(now))]), Ok(HelloAccepted(d)))
  {
    hide IsBlank;
  }

  /** Whatever a device says that is not enabled, or not in the table at all, is ignored. */
  lemma OtherDevicesAreIgnored(
    codec: Codec, h: Hub, startedAt: nat, payload: Payload, now: nat, at: string, fault: Fault)
    requires Started(h, startedAt) && codec.decode(payload).Some? && Identified(codec.decode(payload).value)
    requires var d := codec.decode(payload).value.deviceId; !(d in h.devices && h.devices[d])
    ensures Process(codec, h, payload, now, at, fault) == (h, Ok(Ignored))
  {
    hide IsBlank;
  }

  /** A copy of a stored event is acknowledged again, even after its action was changed or removed. */
  lemma DuplicatesAreAnswered(codec: Codec, h: Hub, payload: Payload, now: nat, at: string, m: UdpMessage)
    requires codec.decode(payload) == Some(m) && m.Event? && Identified(m) && Managed(h, m.deviceId)
    requires HasEvent(h.events, m.deviceId, m.eventId)
    ensures Process(codec, h, payload, now, at, NoFault).1
         == Ok(EventAccepted(m.deviceId, m.eventId, true, SkippedDuplicate, Ack(m.deviceId, m.eventId)))
  {
    hide ValidateEvent, ExecutionResult, HasEvent, IsBlank, Observed;
  }

  // ---- Execution after acceptance ----------------------------------------------------------

  /** An accepted event's action is applied exactly when its changes repeat no state type and the database answers. */
  lemma AppliedIff(codec: Codec, h: Hub, payload: Payload, now: nat, at: string, fault: Fault)
    ensures var r := Process(codec, h, payload, now, at, fault).1;
      r.Ok? && r.value.EventAccepted? && !r.value.duplicate ==>
        (r.value.status == Applied <==>
          fault != InExecution && NoRepeats(ListChanges(h.tables, codec.decode(payload).value.actionId)))
  {
    hide HasEvent, IsBlank, Observed, FirstRepeat, Merged, ValidateTarget, GetAction, ListChanges;
  }

  /** The primary key rules the repeats out: without a database fault at that point no accepted action fails. */
  lemma AcceptedActionsApply(codec: Codec, h: Hub, payload: Payload, now: nat, at: string, fault: Fault)
    requires Schema(h.tables) && fault != InExecution
    ensures var r := Process(codec, h, payload, now, at, fault).1;
      r.Ok? && r.value.EventAccepted? && !r.value.duplicate ==> r.value.status == Applied
  {
    AppliedIff(codec, h, payload, now, at, fault);
    AcceptedNamesItsEvent(codec, h, payload, now, at, fault);
    hide Process, Schema, NoRepeats, ListChanges;
    var r := Process(codec, h, payload, now, at, fault).1;
    if r.Ok? && r.value.EventAccepted? {
      SchemaRulesOutRepeats(h.tables, codec.decode(payload).value.actionId);
    }
  }

  /** An action whose two changes write one state type, which no table under the schema holds. */
  function RepeatingTable(): Tables {
    var change := ChangeRow(1, Mailbox, Okay);
    Tables([], [ActionRow(1, "", Common, None, None, true)], [change, change], [], [], [], 0)
  }

  lemma RepeatIsListed(t: Tables, id: ActionId)
    requires forall i :: 0 <= i < |t.changes| ==> t.changes[i].actionId == id
    requires Sorted(t.changes, CHANGE_KEY)
    ensures ListChanges(t, id) == t.changes
  {
    hide Sorted, Filter, SortBy;
    FilterAll(t.changes, ChangeFor(id));
    SortOfSorted(t.changes, CHANGE_KEY);
  }

  lemma RepeatIsFound(a: ChangeRow, b: ChangeRow)
    requires a.stateType == b.stateType
    ensures FirstRepeat([a, b]) == Some(b.stateType)
  {
    hide FirstRepeat;
    assert [a, b][..1] == [a];
    FirstRepeatAt([a, b], 0, 1);
  }

  lemma RepeatingExecutionFails(values: Values)
    ensures !Schema(RepeatingTable())
    ensures ValidateEvent(RepeatingTable(), 1).Ok?
    ensures ExecutionResult(RepeatingTable(), values, 1) == Err(DuplicateStateType(Mailbox))
  {
    hide ReferencesHold, ListChanges, FirstRepeat, Merged;
    var changes := RepeatingTable().changes;
    assert changes[0] == changes[1];
    RepeatIsListed(RepeatingTable(), 1);
    RepeatIsFound(changes[0], changes[1]);
    assert changes == [changes[0], changes[1]];
    assert GetAction(RepeatingTable(), 1) == Some(RepeatingTable().actions[0]);
  }

  /** A hub that knows one node and one action table, and a codec that reads the same EVENT everywhere. */
  function ExampleHub(t: Tables): Hub {
    Hub(t, map["n" := true], [], map["n" := DeviceState(InitialWait, 0, None)], map[], [])
  }

  function ExampleCodec(): Codec {
    Codec(_ => Some(Event("n", "e", 1)), _ => true)
  }

  lemma ExampleIsFresh(t: Tables)
    requires ValidateEvent(t, 1).Ok?
    ensures Fresh(ExampleCodec(), ExampleHub(t), "")
  {
    hide ValidateEvent;
    assert !IsWhitespace("n"[0]) && !IsWhitespace("e"[0]);
  }

  lemma RepeatingFails(codec: Codec, h: Hub, payload: Payload)
    requires h.tables == RepeatingTable() && Fresh(codec, h, payload)
    requires codec.decode(payload) == Some(Event("n", "e", 1))
    ensures var (h', r) := Process(codec, h, payload, 0, "", NoFault);
      && r == Ok(EventAccepted("n", "e", false, Failed(DuplicateStateType(Mailbox)), Ack("n", "e")))
      && |h'.events| == |h.events| + 1 && h'.values == h.values
  {
    RepeatingExecutionFails(h.values);
    hide ValidateEvent, ExecutionResult, HasEvent, IsBlank, Observed, RepeatingTable;
  }

  /** Without that key the event is stored and acknowledged, and its action fails. */
  lemma RepeatingTableFails()
    ensures var h := ExampleHub(RepeatingTable());
      var (h', r) := Process(ExampleCodec(), h, "", 0, "", NoFault);
      && r == Ok(EventAccepted("n", "e", false, Failed(DuplicateStateType(Mailbox)), Ack("n", "e")))
      && |h'.events| == 1 && h'.values == h.values
  {
    hide Process, Fresh, ValidateEvent, ExecutionResult, RepeatingTable;
    RepeatingExecutionFails(map[]);
    ExampleIsFresh(RepeatingTable());
    RepeatingFails(ExampleCodec(), ExampleHub(RepeatingTable()), "");
  }

  // ---- The replay -----------------------------------------------------------------------------

  ghost predicate Replayed(codec: Codec, h: Hub, start: nat) {
    start <= |h.events| && h.values == Replay(codec, h.tables, h.events[start..])
  }

  /** What a stored event does to the state is what the replay of its row does, unless its execution is lost. */
  lemma ValuesAfter(codec: Codec, h: Hub, payload: Payload, now: nat, at: string, fault: Fault)
    ensures var (h', r) := Process(codec, h, payload, now, at, fault);
      |h'.events| > |h.events| ==>
        h'.values == if fault == InExecution then h.values
                     else Executed(h.tables, h.values, codec.decode(payload).value.actionId)
  {
    hide HasEvent, IsBlank, Observed, ExecutionResult, ValidateEvent;
  }

  /** Exactly one thing parts the state from the replay: a fresh event whose effective action is lost to a
      database fault at its execution. */
  lemma ReplayKeptIff(codec: Codec, h: Hub, start: nat, payload: Payload, now: nat, at: string, fault: Fault)
    requires Replayed(codec, h, start)
    ensures var h' := Process(codec, h, payload, now, at, fault).0;
      Replayed(codec, h', start) <==>
        !(fault == InExecution && Fresh(codec, h, payload)
          && Executed(h.tables, h.values, codec.decode(payload).value.actionId) != h.values)
  {
    var (h', r) := Process(codec, h, payload, now, at, fault);
    ConfigurationUntouched(codec, h, payload, now, at, fault);
    StoredCalledAcknowledged(codec, h, payload, now, at, fault);
    StoredIffFresh(codec, h, payload, now, at, fault);
    ValuesAfter(codec, h, payload, now, at, fault);
    hide Process, Executed, ValidateEvent, IsBlank;
    if |h'.events| > |h.events| {
      var rows, row := h.events[start..], h'.events[|h.events|];
      assert h'.events[start..] == rows + [row];
      assert (rows + [row])[..|rows|] == rows;
    }
  }

  function OneChangeTable(): Tables {
    Tables([], [ActionRow(1, "", Common, None, None, true)], [ChangeRow(1, Mailbox, Okay)], [], [], [], 0)
  }

  lemma OneChangeExecutes()
    ensures ValidateEvent(OneChangeTable(), 1).Ok?
    ensures ExecutionResult(OneChangeTable(), map[], 1) == Ok(map[ValueKey(CommonScope, Mailbox) := Okay])
  {
    var changes := OneChangeTable().changes;
    hide KeysHold, ReferencesHold, ListChanges;
    RepeatIsListed(OneChangeTable(), 1);
    assert changes[..0] == [];
    assert GetAction(OneChangeTable(), 1) == Some(OneChangeTable().actions[0]);
  }

  lemma LostExecution(codec: Codec, h: Hub, payload: Payload)
    requires h.events == [] && h.values == map[] && h.tables == OneChangeTable() && Fresh(codec, h, payload)
    requires codec.decode(payload) == Some(Event("n", "e", 1))
    ensures var h' := Process(codec, h, payload, 0, "", InExecution).0;
      Replayed(codec, h, 0) && |h'.events| == 1 && !Replayed(codec, h', 0)
  {
    OneChangeExecutes();
    StoredIffFresh(codec, h, payload, 0, "", InExecution);
    StoredCalledAcknowledged(codec, h, payload, 0, "", InExecution);
    hide Process, Fresh, ExecutionResult, ValidateEvent, OneChangeTable;
    assert Replayed(codec, h, 0) by { assert h.events[0..] == []; }
    ReplayKeptIff(codec, h, 0, payload, 0, "", InExecution);
    assert Executed(h.tables, h.values, 1) != h.values by {
      assert ValueKey(CommonScope, Mailbox) in Executed(h.tables, h.values, 1);
    }
  }

  /** It happens under a sound schema: the event is stored, its execution lost, and the state no longer the replay. */
  lemma LostExecutionLeavesTheReplay()
    ensures var h := ExampleHub(OneChangeTable());
      var h' := Process(ExampleCodec(), h, "", 0, "", InExecution).0;
      Schema(h.tables) && Replayed(ExampleCodec(), h, 0) && |h'.events| == 1 && !Replayed(ExampleCodec(), h', 0)
  {
    hide Process, Fresh, ValidateEvent, ExecutionResult, OneChangeTable, Replayed, Schema;
    OneChangeIsSound();
    OneChangeExecutes();
    ExampleIsFresh(OneChangeTable());
    LostExecution(ExampleCodec(), ExampleHub(OneChangeTable()), "");
  }

  lemma OneChangeIsSound()
    ensures Schema(OneChangeTable())
  {
    assert OneChangeTable().actions[0] in OneChangeTable().actions;
  }

  // ---- Runs --------------------------------------------------------------------------------

  /** The hub receives a datagram or checks which devices fell silent. */
  datatype HubInput =
    | Receive(payload: Payload, now: nat, receivedAt: string, fault: Fault)
    | Check(now: nat)

  function ProcessOne(codec: Codec, timeout: nat, h: Hub, input: HubInput): Hub {
    match input
    case Receive(payload, now, at, fault) => Process(codec, h, payload, now, at, fault).0
    case Check(now) => h.(liveness := MarkAll(h.liveness, now, timeout))
  }

  function ProcessAll(codec: Codec, timeout: nat, h: Hub, inputs: seq<HubInput>): Hub {
    if inputs == [] then h
    else ProcessOne(codec, timeout, ProcessAll(codec, timeout, h, inputs[..|inputs| - 1]), inputs[|inputs| - 1])
  }

  /**
  From a start of the hub on, the business state is the replay of the event rows
  inserted since, whatever else fails, as long as no execution loses its database.
  */
  lemma {:induction false} StateIsReplay(codec: Codec, timeout: nat, h: Hub, inputs: seq<HubInput>)
    requires h.values == map[]
    requires forall i :: 0 <= i < |inputs| && inputs[i].Receive? ==> inputs[i].fault != InExecution
    ensures var h' := ProcessAll(codec, timeout, h, inputs);
      && h'.tables == h.tables
      && h.events <= h'.events
      && Replayed(codec, h', |h.events|)
  {
    hide Process;
    if inputs == [] {
      assert h.events[|h.events|..] == [];
    } else {
      var init, last := inputs[..|inputs| - 1], inputs[|inputs| - 1];
      StateIsReplay(codec, timeout, h, init);
      if last.Receive? {
        var before := ProcessAll(codec, timeout, h, init);
        ReplayKeptIff(codec, before, |h.events|, last.payload, last.now, last.receivedAt, last.fault);
        ConfigurationUntouched(codec, before, last.payload, last.now, last.receivedAt, last.fault);
        StoredCalledAcknowledged(codec, before, last.payload, last.now, last.receivedAt, last.fault);
      }
    }
  }

  // ---- Liveness of processed datagrams -----------------------------------------------------------

  /** The datagram counts as a sign of life: it is the node's own, and nothing refused it before it was noted. */
  predicate Heard(codec: Codec, h: Hub, payload: Payload, fault: Fault) {
    var m := codec.decode(payload);
    && m.Some? && !m.value.Ack? && Identified(m.value) && Managed(h, m.value.deviceId) && fault != InDeviceQuery
    && (m.value.Event? ==>
          && fault != InLookup
          && (HasEvent(h.events, m.value.deviceId, m.value.eventId)
              || (fault != InValidation && ValidateEvent(h.tables, m.value.actionId).Ok?)))
  }

  /** Exactly the signs of life move the liveness table, and only their own device in it. */
  lemma OnlyTheSenderIsSeen(codec: Codec, h: Hub, payload: Payload, now: nat, at: string, fault: Fault)
    ensures var (h', r) := Process(codec, h, payload, now, at, fault);
      && (r.Ok? && r.value != Ignored ==> Heard(codec, h, payload, fault))
      && (if Heard(codec, h, payload, fault) then
            var d := codec.decode(payload).value.deviceId;
            h'.liveness == h.liveness[d := h.liveness[d].(status := Online, lastSeenAt := Some(now))]
          else h'.liveness == h.liveness)
  {
    hide ValidateEvent, ExecutionResult, HasEvent;
  }

  /** The receptions and checks of a run, as operations on the liveness table. */
  function SignsOfLife(codec: Codec, timeout: nat, h: Hub, inputs: seq<HubInput>): seq<Op> {
    if inputs == [] then []
    else
      var init, last := inputs[..|inputs| - 1], inputs[|inputs| - 1];
      SignsOfLife(codec, timeout, h, init)
      + match last
        case Check(now) => [Mark(now)]
        case Receive(payload, now, _, fault) =>
          if Heard(codec, ProcessAll(codec, timeout, h, init), payload, fault)
          then [Observe(codec.decode(payload).value, now)] else []
  }

  lemma AfterSnoc(enabled: set<DeviceId>, startedAt: nat, timeout: nat, ops: seq<Op>, op: Op)
    ensures After(enabled, startedAt, timeout, ops + [op])
         == HubLiveness.Perform(After(enabled, startedAt, timeout, ops), op, timeout)
  {
    hide HubLiveness.Perform, InitialDevices;
    assert (ops + [op])[..|ops|] == ops;
  }

  lemma {:induction false} LivenessOfRun(codec: Codec, timeout: nat, h: Hub, enabled: set<DeviceId>, startedAt: nat,
                                         inputs: seq<HubInput>)
    requires h.liveness == InitialDevices(enabled, startedAt)
    ensures ProcessAll(codec, timeout, h, inputs).liveness
         == After(enabled, startedAt, timeout, SignsOfLife(codec, timeout, h, inputs))
  {
    hide Process, InitialDevices, MarkAll, Heard, Observed;
    if inputs != [] {
      var init, last := inputs[..|inputs| - 1], inputs[|inputs| - 1];
      LivenessOfRun(codec, timeout, h, enabled, startedAt, init);
      var before, ops := ProcessAll(codec, timeout, h, init), SignsOfLife(codec, timeout, h, init);
      var all := SignsOfLife(codec, timeout, h, inputs);
      hide After;
      match last
      case Check(now) => AfterSnoc(enabled, startedAt, timeout, ops, Mark(now));
      case Receive(payload, now, at, fault) =>
        OnlyTheSenderIsSeen(codec, before, payload, now, at, fault);
        if Heard(codec, before, payload, fault) {
          HeardIsObserved(codec, before, payload, now, fault);
          AfterSnoc(enabled, startedAt, timeout, ops, Observe(codec.decode(payload).value, now));
        } else {
          assert all == ops;
        }
    }
  }

  lemma HeardIsObserved(codec: Codec, h: Hub, payload: Payload, now: nat, fault: Fault)
    requires Heard(codec, h, payload, fault)
    ensures codec.decode(payload).Some?
    ensures var m := codec.decode(payload).value;
      && m.deviceId in h.liveness
      && Observed(h.liveness, m, now)
         == h.liveness[m.deviceId := h.liveness[m.deviceId].(status := Online, lastSeenAt := Some(now))]
  {
    hide ValidateEvent, HasEvent;
  }

  ghost predicate InTime(startedAt: nat, inputs: seq<HubInput>) {
    forall i, j :: 0 <= i <= j < |inputs| ==> startedAt <= inputs[i].now <= inputs[j].now
  }

  lemma {:induction false} SignsInTime(codec: Codec, timeout: nat, h: Hub, startedAt: nat, inputs: seq<HubInput>)
    requires InTime(startedAt, inputs)
    ensures var ops := SignsOfLife(codec, timeout, h, inputs);
      Monotone(startedAt, ops) && forall i :: 0 <= i < |ops| ==> inputs != [] && ops[i].now <= inputs[|inputs| - 1].now
  {
    hide Heard, ProcessAll;
    if inputs != [] {
      SignsInTime(codec, timeout, h, startedAt, inputs[..|inputs| - 1]);
    }
  }

  /**
  The hub end to end, on a non-decreasing clock: right after a check a device is Offline exactly when it was
  silent for the timeout, where what breaks its silence are the datagrams of it that were processed and heard.
  */
  lemma OfflineIffSilent(codec: Codec, timeout: nat, h: Hub, enabled: set<DeviceId>, startedAt: nat,
                         inputs: seq<HubInput>, now: nat, d: DeviceId)
    requires h.liveness == InitialDevices(enabled, startedAt) && d in enabled
    requires InTime(startedAt, inputs + [Check(now)])
    ensures var h' := ProcessAll(codec, timeout, h, inputs + [Check(now)]);
      var ops := SignsOfLife(codec, timeout, h, inputs);
      && h'.liveness.Keys == enabled
      && h'.liveness[d].status ==
           if Elapsed(now, SilentSince(ops, d, startedAt)) >= timeout then Offline
           else if LastHeard(ops, d).Some? then Online else InitialWait
  {
    hide ProcessAll;
    var all := inputs + [Check(now)];
    var ops := SignsOfLife(codec, timeout, h, inputs);
    assert all[..|inputs|] == inputs;
    SignsInTime(codec, timeout, h, startedAt, all);
    LivenessOfRun(codec, timeout, h, enabled, startedAt, all);
    StatusAfterCheck(enabled, startedAt, timeout, ops, now, d);
  }

  // ---- Refinement of the delivery system ------------------------------------------------------

  function AsRow(codec: Codec): EventRow -> Row {
    (e: EventRow) => Row(Key(e.deviceId, e.eventId), ActionOf(codec, e))
  }

  function RowsOf(codec: Codec, events: seq<EventRow>): (rows: seq<Row>)
    ensures |rows| == |events|
    ensures forall i :: 0 <= i < |rows| ==>
      rows[i] == Row(Key(events[i].deviceId, events[i].eventId), ActionOf(codec, events[i]))
  {
    Map(events, AsRow(codec))
  }

  /** The delivery system's hub, idle, holds the same table and the same executions. */
  ghost predicate Shows(codec: Codec, h: Hub, s: System) {
    s.callers == [Free] && s.rows == RowsOf(codec, h.events) && s.calls == h.calls
  }

  /** Steps taken from a state, each enabled in turn. */
  function Steps(s: System, steps: seq<Step>): Option<System>
    decreases |steps|
  {
    if steps == [] then Some(s)
    else if Enabled(s, steps[0]) then Steps(Apply(s, steps[0]), steps[1..]) else None
  }

  function Script(codec: Codec, h: Hub, m: UdpMessage, r: Result<Outcome, ProcessingError>): seq<Step> {
    if r.Ok? && r.value.EventAccepted? then
      if r.value.duplicate then [Deliver(0, m), Lookup(0), Answer(0)]
      else [Deliver(0, m), Lookup(0), Validate(0), Insert(0), Execute(0), Answer(0)]
    else [Deliver(0, m), Reject(0)]
  }

  lemma KeysAgree(codec: Codec, h: Hub, s: System, deviceId: DeviceId, eventId: string)
    requires Shows(codec, h, s)
    ensures HasKey(s.rows, Key(deviceId, eventId)) <==> HasEvent(h.events, deviceId, eventId)
  {
    if HasEvent(h.events, deviceId, eventId) {
      var i :| 0 <= i < |h.events| && h.events[i].deviceId == deviceId && h.events[i].eventId == eventId;
      assert s.rows[i].key == Key(deviceId, eventId);
    }
  }

  // The steps of the single caller, one by one.

  lemma Arrives(s: System, m: UdpMessage)
    requires s.callers == [Free] && m in s.network && m.Event?
    ensures Enabled(s, Deliver(0, m))
    ensures Apply(s, Deliver(0, m)) == s.(network := s.network - multiset{m}, callers := [Received(RowIn(m))])
  {
    hide NodeApply, NewTrigger, Confirms;
  }

  lemma IsLookedUp(s: System, row: Row)
    requires s.callers == [Received(row)]
    ensures Enabled(s, Lookup(0))
    ensures Apply(s, Lookup(0)) == s.(callers := [if HasKey(s.rows, row.key) then Answering(row.key) else Unseen(row)])
  {
    hide NodeApply, NewTrigger, Confirms, HasKey;
  }

  lemma IsValidated(s: System, row: Row)
    requires s.callers == [Unseen(row)]
    ensures Enabled(s, Validate(0)) && Apply(s, Validate(0)) == s.(callers := [Validated(row)])
  {
    hide NodeApply, NewTrigger, Confirms, HasKey;
  }

  lemma IsInserted(s: System, row: Row)
    requires s.callers == [Validated(row)] && !HasKey(s.rows, row.key)
    ensures Enabled(s, Insert(0)) && Apply(s, Insert(0)) == s.(callers := [Stored(row)], rows := s.rows + [row])
  {
    hide NodeApply, NewTrigger, Confirms, HasKey;
  }

  lemma IsExecuted(s: System, row: Row)
    requires s.callers == [Stored(row)]
    ensures Enabled(s, Execute(0))
    ensures Apply(s, Execute(0)) == s.(callers := [Answering(row.key)], calls := s.calls + [row])
  {
    hide NodeApply, NewTrigger, Confirms, HasKey;
  }

  lemma IsAnswered(s: System, key: Key)
    requires s.callers == [Answering(key)]
    ensures Enabled(s, Answer(0))
    ensures Apply(s, Answer(0)) == s.(callers := [Free], network := s.network + multiset{AckMessage(key)})
  {
    hide NodeApply, NewTrigger, Confirms, HasKey;
  }

  lemma IsRejected(s: System, row: Row)
    requires s.callers == [Received(row)]
    ensures Enabled(s, Reject(0)) && Apply(s, Reject(0)) == s.(callers := [Free])
  {
    hide NodeApply, NewTrigger, Confirms, HasKey;
  }

  lemma DuplicateScript(s: System, m: UdpMessage)
    requires s.callers == [Free] && m in s.network && m.Event? && HasKey(s.rows, Key(m.deviceId, m.eventId))
    ensures Steps(s, [Deliver(0, m), Lookup(0), Answer(0)])
         == Some(s.(network := s.network - multiset{m} + multiset{Ack(m.deviceId, m.eventId)}))
  {
    hide Apply, Enabled, HasKey, Steps;
    Arrives(s, m);
    var s1 := Apply(s, Deliver(0, m));
    IsLookedUp(s1, RowIn(m));
    var s2 := Apply(s1, Lookup(0));
    IsAnswered(s2, Key(m.deviceId, m.eventId));
    StepsOfThree(s, Deliver(0, m), Lookup(0), Answer(0));
  }

  lemma StepsOfThree(s: System, a: Step, b: Step, c: Step)
    requires Enabled(s, a) && Enabled(Apply(s, a), b) && Enabled(Apply(Apply(s, a), b), c)
    ensures Steps(s, [a, b, c]) == Some(Apply(Apply(Apply(s, a), b), c))
  {
    hide Enabled, Apply;
    assert [a, b, c][1..] == [b, c] && [b, c][1..] == [c] && [c][1..] == [];
    assert Steps(Apply(Apply(s, a), b), [c]) == Some(Apply(Apply(Apply(s, a), b), c));
    assert Steps(Apply(s, a), [b, c]) == Steps(Apply(Apply(s, a), b), [c]);
  }

  lemma {:induction false} StepsConcat(s: System, a: seq<Step>, b: seq<Step>)
    requires Steps(s, a).Some?
    ensures Steps(s, a + b) == Steps(Steps(s, a).value, b)
    decreases |a|
  {
    hide Enabled, Apply;
    if a == [] {
      assert a + b == b;
    } else {
      assert (a + b)[1..] == a[1..] + b && (a + b)[0] == a[0];
      StepsConcat(Apply(s, a[0]), a[1..], b);
    }
  }

  lemma NewEventScript(s: System, m: UdpMessage)
    requires s.callers == [Free] && m in s.network && m.Event? && !HasKey(s.rows, Key(m.deviceId, m.eventId))
    ensures Steps(s, [Deliver(0, m), Lookup(0), Validate(0), Insert(0), Execute(0), Answer(0)])
         == Some(s.(network := s.network - multiset{m} + multiset{Ack(m.deviceId, m.eventId)},
                    rows := s.rows + [RowIn(m)], calls := s.calls + [RowIn(m)]))
  {
    hide Apply, Enabled, HasKey;
    var mid := s.(network := s.network - multiset{m}, callers := [Validated(RowIn(m))]);
    AcceptScript(s, m, mid);
    ExecuteScript(mid, m);
    StepsConcat(s, [Deliver(0, m), Lookup(0), Validate(0)], [Insert(0), Execute(0), Answer(0)]);
    assert [Deliver(0, m), Lookup(0), Validate(0)] + [Insert(0), Execute(0), Answer(0)]
        == [Deliver(0, m), Lookup(0), Validate(0), Insert(0), Execute(0), Answer(0)];
  }

  lemma AcceptScript(s: System, m: UdpMessage, mid: System)
    requires s.callers == [Free] && m in s.network && m.Event? && !HasKey(s.rows, Key(m.deviceId, m.eventId))
    requires mid == s.(network := s.network - multiset{m}, callers := [Validated(RowIn(m))])
    ensures Steps(s, [Deliver(0, m), Lookup(0), Validate(0)]) == Some(mid)
  {
    hide Apply, Enabled, HasKey, Steps;
    Arrives(s, m);
    var s1 := Apply(s, Deliver(0, m));
    IsLookedUp(s1, RowIn(m));
    var s2 := Apply(s1, Lookup(0));
    IsValidated(s2, RowIn(m));
    StepsOfThree(s, Deliver(0, m), Lookup(0), Validate(0));
  }

  lemma ExecuteScript(mid: System, m: UdpMessage)
    requires m.Event? && mid.callers == [Validated(RowIn(m))] && !HasKey(mid.rows, Key(m.deviceId, m.eventId))
    ensures Steps(mid, [Insert(0), Execute(0), Answer(0)])
         == Some(mid.(network := mid.network + multiset{Ack(m.deviceId, m.eventId)}, callers := [Free],
                      rows := mid.rows + [RowIn(m)], calls := mid.calls + [RowIn(m)]))
  {
    hide Apply, Enabled, HasKey, Steps;
    IsInserted(mid, RowIn(m));
    var s1 := Apply(mid, Insert(0));
    IsExecuted(s1, RowIn(m));
    var s2 := Apply(s1, Execute(0));
    IsAnswered(s2, Key(m.deviceId, m.eventId));
    StepsOfThree(mid, Insert(0), Execute(0), Answer(0));
  }

  lemma RejectScript(s: System, m: UdpMessage)
    requires s.callers == [Free] && m in s.network && m.Event?
    ensures Steps(s, [Deliver(0, m), Reject(0)]) == Some(s.(network := s.network - multiset{m}))
  {
    hide Apply, Enabled;
    Arrives(s, m);
    var s1 := Apply(s, Deliver(0, m));
    IsRejected(s1, RowIn(m));
    assert [Deliver(0, m), Reject(0)][1..] == [Reject(0)] && [Reject(0)][1..] == [];
    assert Steps(s1, [Reject(0)]) == Steps(Apply(s1, Reject(0)), []);
  }

  /** The single caller's answer to a stored event leaves the ACK and nothing else. */
  lemma DuplicateRefines(codec: Codec, h: Hub, s: System, m: UdpMessage)
    requires Shows(codec, h, s) && m in s.network && m.Event? && HasEvent(h.events, m.deviceId, m.eventId)
    ensures Steps(s, [Deliver(0, m), Lookup(0), Answer(0)])
         == Some(s.(rows := RowsOf(codec, h.events), calls := h.calls,
                    network := s.network - multiset{m} + multiset{Ack(m.deviceId, m.eventId)}))
  {
    hide Steps, HasKey, HasEvent, RowsOf;
    KeysAgree(codec, h, s, m.deviceId, m.eventId);
    DuplicateScript(s, m);
  }

  lemma NewEventRefines(codec: Codec, h: Hub, h': Hub, s: System, m: UdpMessage, row: EventRow)
    requires Shows(codec, h, s) && m in s.network && StoresRow(h, h', m, row) && codec.decode(row.payload) == Some(m)
    ensures Steps(s, [Deliver(0, m), Lookup(0), Validate(0), Insert(0), Execute(0), Answer(0)])
         == Some(s.(rows := RowsOf(codec, h'.events), calls := h'.calls,
                    network := s.network - multiset{m} + multiset{Ack(m.deviceId, m.eventId)}))
  {
    hide Steps, HasKey, HasEvent, RowsOf;
    KeysAgree(codec, h, s, m.deviceId, m.eventId);
    NewEventScript(s, m);
    RowsOfSnoc(codec, h.events, row, m);
  }

  /**
  Processing an EVENT without interruption is a run of the single caller of the delivery
  system: the same table, the same executions, and an ACK exactly when one is returned.
  */
  lemma ProcessRefinesDelivery(
    codec: Codec, h: Hub, s: System, payload: Payload, now: nat, at: string, fault: Fault, m: UdpMessage)
    requires codec.decode(payload) == Some(m) && m.Event? && m in s.network && Shows(codec, h, s)
    ensures var (h', r) := Process(codec, h, payload, now, at, fault);
      var s' := Steps(s, Script(codec, h, m, r));
      && s'.Some? && Shows(codec, h', s'.value)
      && s'.value == s.(rows := RowsOf(codec, h'.events), calls := h'.calls,
                        network := s.network - multiset{m}
                          + (if r.Ok? && r.value.EventAccepted? then multiset{r.value.ack} else multiset{}))
  {
    var (h', r) := Process(codec, h, payload, now, at, fault);
    StoredCalledAcknowledged(codec, h, payload, now, at, fault);
    AcceptedNamesItsEvent(codec, h, payload, now, at, fault);
    hide Process, Steps, HasEvent, RowsOf;
    if r.Ok? && r.value.EventAccepted? {
      if r.value.duplicate {
        DuplicateRefines(codec, h, s, m);
      } else {
        NewEventRefines(codec, h, h', s, m, EventRow(at, m.deviceId, m.eventId, payload));
      }
    } else {
      RejectScript(s, m);
    }
  }

  lemma RowsOfSnoc(codec: Codec, events: seq<EventRow>, row: EventRow, m: UdpMessage)
    requires m.Event? && codec.decode(row.payload) == Some(m) && row.deviceId == m.deviceId && row.eventId == m.eventId
    ensures RowsOf(codec, events + [row]) == RowsOf(codec, events) + [RowIn(m)]
  {}
}
