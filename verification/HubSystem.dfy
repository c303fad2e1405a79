/** The whole system at once: nodes and network as the delivery system has them, the hub as it processes datagrams. */
module HubSystem {
  import opened Wrappers
  import opened Text
  import opened Messages
  import opened EventIds
  import opened HubTransaction
  import opened HubLiveness
  import opened HubActions
  import opened HubUdp
  import opened HubTheorems
  import opened Delivery
  import opened DeliveryProofs
  import opened DeliveryTheorems
  import opened DeliveryFates
  import opened DeliverySenders

  datatype Joint = Joint(hub: Hub, system: System)

  /** A step of a node or of the network, the hub's processing of one datagram under way, or its restart in between. */
  datatype JointStep =
    | Outside(step: Step)
    | Processing(message: UdpMessage, payload: Payload, now: nat, receivedAt: string, fault: Fault)
    | Restart(now: nat)

  /** A restart keeps the database and forgets the rest. */
  function Restarted(h: Hub, now: nat): (started: Hub)
    ensures Started(started, now)
    ensures started.tables == h.tables && started.devices == h.devices && started.events == h.events
  {
    h.(values := map[], liveness := InitialDevices(EnabledDevices(h.devices), now))
  }

  ghost predicate CanTake(codec: Codec, j: Joint, step: JointStep) {
    match step
    case Outside(inner) => (OfNode(inner) || OfNetwork(inner)) && Enabled(j.system, inner)
    case Processing(m, payload, _, _, _) => m in j.system.network && codec.decode(payload) == Some(m)
    case Restart(_) => true
  }

  /** The hub leaves the network the ACK it returns, and the system shows the hub's table and executions. */
  ghost function Next(codec: Codec, j: Joint, step: JointStep): Joint
    requires CanTake(codec, j, step)
  {
    match step
    case Outside(inner) => j.(system := Apply(j.system, inner))
    case Restart(now) => Joint(Restarted(j.hub, now), Apply(j.system, HubRestart))
    case Processing(m, payload, now, at, fault) =>
      var (h', r) := Process(codec, j.hub, payload, now, at, fault);
      Joint(h', j.system.(
        rows := RowsOf(codec, h'.events), calls := h'.calls,
        network := j.system.network - multiset{m}
          + (if r.Ok? && r.value.EventAccepted? then multiset{r.value.ack} else multiset{})))
  }

  ghost function JointRun(codec: Codec, h: Hub, steps: seq<JointStep>): Option<Joint> {
    if steps == [] then Some(Joint(h, Start(1)))
    else
      match JointRun(codec, h, steps[..|steps| - 1])
      case None => None
      case Some(j) =>
        if CanTake(codec, j, steps[|steps| - 1]) then Some(Next(codec, j, steps[|steps| - 1])) else None
  }

  // ---- Every joint run is a run of the delivery system -------------------------------

  lemma {:induction false} StepsReach(steps: seq<Step>, s: System, more: seq<Step>)
    requires Reached(s, 1, steps) && Steps(s, more).Some?
    ensures Reached(Steps(s, more).value, 1, steps + more)
    decreases |more|
  {
    hide Enabled, Apply;
    if more == [] {
      assert steps + more == steps;
    } else {
      assert (steps + [more[0]])[..|steps|] == steps;
      StepsReach(steps + [more[0]], Apply(s, more[0]), more[1..]);
      assert steps + [more[0]] + more[1..] == steps + more;
    }
  }

  /** What ties the two halves: an idle hub with the same table, where every stored row was executed in turn. */
  ghost predicate Tied(codec: Codec, j: Joint) {
    && Shows(codec, j.hub, j.system)
    && j.system.calls == j.system.rows
  }

  lemma OutsideKeepsTied(codec: Codec, j: Joint, step: JointStep)
    requires step.Outside? && CanTake(codec, j, step) && Tied(codec, j)
    ensures Tied(codec, Next(codec, j, step))
  {
    hide Apply, RowsOf;
    if OfNode(step.step) {
      NodeStepFrame(j.system, step.step);
    } else {
      OtherStepFrame(j.system, step.step);
    }
  }

  lemma RestartKeepsTied(codec: Codec, j: Joint, now: nat)
    requires Tied(codec, j)
    ensures Tied(codec, Next(codec, j, Restart(now)))
  {
    hide NodeApply, HubApply, RowsOf;
    assert Idling(1) == [Free];
  }

  lemma ProcessingKeepsTied(codec: Codec, j: Joint, step: JointStep)
    requires step.Processing? && CanTake(codec, j, step) && Tied(codec, j)
    ensures Tied(codec, Next(codec, j, step))
  {
    var h := j.hub;
    var (h', r) := Process(codec, h, step.payload, step.now, step.receivedAt, step.fault);
    StoredCalledAcknowledged(codec, h, step.payload, step.now, step.receivedAt, step.fault);
    AcceptedNamesItsEvent(codec, h, step.payload, step.now, step.receivedAt, step.fault);
    hide Process, HasEvent;
    if r.Ok? && r.value.EventAccepted? && !r.value.duplicate {
      var row := EventRow(step.receivedAt, r.value.deviceId, r.value.eventId, step.payload);
      RowsOfSnoc(codec, h.events, row, step.message);
    }
  }

  /** A datagram that is no EVENT leaves table and calls alone; taking it off the network is a delivery. */
  lemma OtherDatagramReaches(codec: Codec, j: Joint, step: JointStep, steps: seq<Step>)
    requires step.Processing? && CanTake(codec, j, step) && Tied(codec, j) && !step.message.Event?
    requires Reached(j.system, 1, steps)
    ensures Reached(Next(codec, j, step).system, 1, steps + [Deliver(0, step.message)])
  {
    var h, s, deliver := j.hub, j.system, Deliver(0, step.message);
    StoredCalledAcknowledged(codec, h, step.payload, step.now, step.receivedAt, step.fault);
    AcceptedNamesItsEvent(codec, h, step.payload, step.now, step.receivedAt, step.fault);
    hide Process, NodeApply;
    assert (steps + [deliver])[..|steps|] == steps;
    assert Apply(s, deliver).callers == [Free];
    assert Apply(s, deliver) == Next(codec, j, step).system;
  }

  lemma ProcessingReaches(codec: Codec, j: Joint, step: JointStep, steps: seq<Step>) returns (steps': seq<Step>)
    requires step.Processing? && CanTake(codec, j, step) && Tied(codec, j)
    requires Reached(j.system, 1, steps)
    ensures Reached(Next(codec, j, step).system, 1, steps')
  {
    if step.message.Event? {
      var r := Process(codec, j.hub, step.payload, step.now, step.receivedAt, step.fault).1;
      var script := Script(codec, j.hub, step.message, r);
      ProcessRefinesDelivery(codec, j.hub, j.system, step.payload, step.now, step.receivedAt, step.fault, step.message);
      hide Process, Script, Steps, Apply, Enabled;
      StepsReach(steps, j.system, script);
      steps' := steps + script;
    } else {
      OtherDatagramReaches(codec, j, step, steps);
      steps' := steps + [Deliver(0, step.message)];
    }
  }

  /** From an empty table on, whatever nodes, network and hub do together is a run of one caller. */
  lemma {:induction false} JointRunsDeliver(codec: Codec, h: Hub, steps: seq<JointStep>) returns (delivery: seq<Step>)
    requires h.events == [] && h.calls == [] && JointRun(codec, h, steps).Some?
    ensures var j := JointRun(codec, h, steps).value;
      Tied(codec, j) && Reached(j.system, 1, delivery)
  {
    hide Next, CanTake, Tied, Apply, Enabled;
    if steps == [] {
      delivery := [];
      StartIsTied(codec, h);
    } else {
      var init, last := steps[..|steps| - 1], steps[|steps| - 1];
      var j := JointRun(codec, h, init).value;
      var before := JointRunsDeliver(codec, h, init);
      if last.Outside? {
        OutsideKeepsTied(codec, j, last);
        delivery := OutsideReaches(codec, j, last, before);
      } else if last.Restart? {
        RestartKeepsTied(codec, j, last.now);
        delivery := RestartReaches(codec, j, last, before);
      } else {
        ProcessingKeepsTied(codec, j, last);
        delivery := ProcessingReaches(codec, j, last, before);
      }
    }
  }

  lemma StartIsTied(codec: Codec, h: Hub)
    requires h.events == [] && h.calls == []
    ensures Tied(codec, Joint(h, Start(1)))
  {
    assert Idling(1) == [Free];
  }

  lemma OutsideReaches(codec: Codec, j: Joint, step: JointStep, steps: seq<Step>) returns (steps': seq<Step>)
    requires step.Outside? && CanTake(codec, j, step) && Reached(j.system, 1, steps)
    ensures Reached(Next(codec, j, step).system, 1, steps')
  {
    hide Apply, Enabled;
    steps' := steps + [step.step];
    assert steps'[..|steps|] == steps;
  }

  lemma RestartReaches(codec: Codec, j: Joint, step: JointStep, steps: seq<Step>) returns (steps': seq<Step>)
    requires step.Restart? && CanTake(codec, j, step) && Reached(j.system, 1, steps)
    ensures Reached(Next(codec, j, step).system, 1, steps')
  {
    hide Apply;
    steps' := steps + [HubRestart];
    assert steps'[..|steps|] == steps;
  }

  // ---- The replay along a joint run -----------------------------------------------------

  ghost predicate NoLostExecution(steps: seq<JointStep>) {
    forall i :: 0 <= i < |steps| && steps[i].Processing? ==> steps[i].fault != InExecution
  }

  /** How many rows the table held when the hub last started. */
  ghost function LastStart(codec: Codec, h: Hub, steps: seq<JointStep>): (rows: nat)
    requires JointRun(codec, h, steps).Some?
  {
    if steps == [] then 0
    else
      var init := steps[..|steps| - 1];
      if steps[|steps| - 1].Restart? then |JointRun(codec, h, init).value.hub.events| else LastStart(codec, h, init)
  }

  /** Along any run the business state is the replay of the rows stored since the hub last started. */
  lemma {:induction false} JointStateIsReplay(codec: Codec, h: Hub, steps: seq<JointStep>)
    requires h.events == [] && h.values == map[] && JointRun(codec, h, steps).Some? && NoLostExecution(steps)
    ensures Replayed(codec, JointRun(codec, h, steps).value.hub, LastStart(codec, h, steps))
  {
    if steps != [] {
      var init, last := steps[..|steps| - 1], steps[|steps| - 1];
      JointStateIsReplay(codec, h, init);
      var j := JointRun(codec, h, init).value;
      if last.Processing? {
        ReplayKeptIff(codec, j.hub, LastStart(codec, h, init), last.payload, last.now, last.receivedAt, last.fault);
        hide Process, Replayed, Apply, Enabled;
      } else if last.Restart? {
        hide Process, Apply, Enabled;
        assert j.hub.events[|j.hub.events|..] == [];
      } else {
        hide Process, Apply, Enabled;
      }
    }
  }

  /** The business state gives the key what row q wrote, which is row p or a later one, and no row writes it after. */
  ghost predicate StandsIn(codec: Codec, h: Hub, k: ValueKey, p: nat, q: nat) {
    && WritesLast(codec, h.tables, h.events, k, p, q)
    && ValueAt(h.values, k) == Effect(h.tables, ActionOf(codec, h.events[q]), k)
  }

  /**
  End to end: once a node knows that its event arrived, the event is a row of the hub's table, ahead of the rows of
  all events the node created later, and every stored row was executed in turn. If the row was stored since the hub
  last started, then each key that the event's action writes holds what it wrote, or what a later row wrote after it.
  */
  lemma ConfirmedReachesTheState(codec: Codec, h: Hub, steps: seq<JointStep>, j: Joint, n: nat, k: ValueKey)
    returns (p: nat, q: nat)
    requires h.events == [] && h.calls == [] && h.values == map[]
    requires JointRun(codec, h, steps) == Some(j) && NoLostExecution(steps)
    requires n in j.system.delivered && DistinctIds(j.system.triggers)
    ensures n < |j.system.triggers| && RowLeads(j.system, n, p)
    ensures j.system.calls == j.system.rows == RowsOf(codec, j.hub.events)
    ensures p >= LastStart(codec, h, steps) && Effect(j.hub.tables, j.system.triggers[n].action, k).Some? ==>
      StandsIn(codec, j.hub, k, p, q)
  {
    var delivery := JointRunsDeliver(codec, h, steps);
    p := ConfirmedIsStoredFirst(1, delivery, j.system, n);
    JointStateIsReplay(codec, h, steps);
    var start := LastStart(codec, h, steps);
    hide JointRun, LastStart, Effect, RowLeads;
    q := 0;
    assert RowsOf(codec, j.hub.events)[p] == j.system.rows[p];
    if p >= start && Effect(j.hub.tables, j.system.triggers[n].action, k).Some? {
      assert ActionOf(codec, j.hub.events[p]) == j.system.triggers[n].action by { StoredAction(j.system, n, p); }
      q := WriterSince(codec, j.hub, start, k, p);
    }
  }

  lemma StoredAction(s: System, n: nat, p: nat)
    requires n < |s.triggers| && RowLeads(s, n, p)
    ensures p < |s.rows| && s.rows[p].action == s.triggers[n].action
  {}

  lemma WriterSince(codec: Codec, h: Hub, start: nat, k: ValueKey, p: nat) returns (q: nat)
    requires Replayed(codec, h, start) && start <= p < |h.events|
    requires Effect(h.tables, ActionOf(codec, h.events[p]), k).Some?
    ensures StandsIn(codec, h, k, p, q)
  {
    hide Effect, ActionOf;
    var rows := h.events[start..];
    LastWriterWins(codec, h.tables, rows, k);
    assert rows[p - start] == h.events[p];
    q := LastWriteFrom(codec, h.tables, rows, k, p - start);
    assert forall r :: start <= r < |h.events| ==> h.events[r] == rows[r - start];
    q := q + start;
  }

  // ---- One undisturbed exchange -----------------------------------------------------------

  lemma SendReaches(s: System, d: DeviceId)
    requires Enabled(s, Send(d))
    ensures var s', sender := Apply(s, Send(d)), s.nodes[d].sender;
      && s'.nodes == s.nodes[d := s.nodes[d].(sender := Waiting(sender.trigger, sender.started + 1))]
      && EventMessage(RowOf(s.triggers[sender.trigger])) in s'.network
      && s'.triggers == s.triggers && s'.rows == s.rows && s'.calls == s.calls
  {
    hide HubApply, RowOf;
  }

  lemma EventIdIsNotBlank(boot: u64, sequence: u64)
    ensures !IsBlank(EventId(boot, sequence))
  {
    EventIdShape(boot, sequence);
    var id := EventId(boot, sequence);
    hide EventId;
    BlankTexts(id);
    assert !IsWhitespace(id[16]);
  }

  /** The hub heeds the device and has the event already, or can execute and store it. */
  ghost predicate Welcome(codec: Codec, h: Hub, t: Trigger, payload: Payload) {
    && !IsBlank(t.device) && Managed(h, t.device)
    && codec.decode(payload) == Some(EventMessage(RowOf(t)))
    && (HasEvent(h.events, t.device, EventId(t.boot, t.sequence))
        || (ValidateEvent(h.tables, t.action).Ok? && codec.isText(payload)))
  }

  lemma WelcomeIsAcknowledged(codec: Codec, h: Hub, t: Trigger, payload: Payload, now: nat, at: string)
    requires Welcome(codec, h, t, payload)
    ensures var (h', r) := Process(codec, h, payload, now, at, NoFault);
      && r.Ok? && r.value.EventAccepted? && r.value.ack == AckMessage(RowOf(t).key)
      && HasEvent(h'.events, t.device, EventId(t.boot, t.sequence))
      && h'.events == h.events + (if HasEvent(h.events, t.device, EventId(t.boot, t.sequence)) then []
                                  else [EventRow(at, t.device, EventId(t.boot, t.sequence), payload)])
  {
    EventIdIsNotBlank(t.boot, t.sequence);
    AnsweredIff(codec, h, payload, now, at);
    AcceptedNamesItsEvent(codec, h, payload, now, at, NoFault);
    StoredCalledAcknowledged(codec, h, payload, now, at, NoFault);
    AcksAnswerRows(codec, h, payload, now, at, NoFault);
    hide Process, EventId, HasEvent, ValidateEvent, IsBlank;
  }

  /** One step more. */
  lemma JointSnoc(codec: Codec, h: Hub, steps: seq<JointStep>, j: Joint, step: JointStep)
    requires JointRun(codec, h, steps) == Some(j) && CanTake(codec, j, step)
    ensures JointRun(codec, h, steps + [step]) == Some(Next(codec, j, step))
  {
    hide Next, CanTake;
    assert (steps + [step])[..|steps|] == steps;
  }

  /** The three steps of an exchange: the EVENT is sent, processed, and its ACK heard. */
  function Exchange(t: Trigger, payload: Payload, now: nat, at: string): seq<JointStep> {
    [Outside(Send(t.device)), Processing(EventMessage(RowOf(t)), payload, now, at, NoFault),
     Outside(Hear(t.device, AckMessage(RowOf(t).key)))]
  }

  lemma ThreeSteps(codec: Codec, h: Hub, steps: seq<JointStep>, j: Joint, a: JointStep, b: JointStep, c: JointStep)
    requires JointRun(codec, h, steps) == Some(j) && CanTake(codec, j, a) && CanTake(codec, Next(codec, j, a), b)
    requires CanTake(codec, Next(codec, Next(codec, j, a), b), c)
    ensures JointRun(codec, h, steps + [a, b, c]) == Some(Next(codec, Next(codec, Next(codec, j, a), b), c))
  {
    hide Next, CanTake;
    JointSnoc(codec, h, steps, j, a);
    JointSnoc(codec, h, steps + [a], Next(codec, j, a), b);
    JointSnoc(codec, h, steps + [a] + [b], Next(codec, Next(codec, j, a), b), c);
    assert steps + [a] + [b] + [c] == steps + [a, b, c];
  }

  lemma SendingTaken(codec: Codec, j: Joint, d: DeviceId)
    requires Enabled(j.system, Send(d))
    ensures CanTake(codec, j, Outside(Send(d)))
    ensures var s, j' := j.system, Next(codec, j, Outside(Send(d)));
      && j'.hub == j.hub && j'.system.triggers == s.triggers
      && j'.system.nodes
           == s.nodes[d := s.nodes[d].(sender := Waiting(s.nodes[d].sender.trigger, s.nodes[d].sender.started + 1))]
      && EventMessage(RowOf(s.triggers[s.nodes[d].sender.trigger])) in j'.system.network
  {
    SendReaches(j.system, d);
    hide Apply, Enabled;
  }

  lemma ProcessingTaken(codec: Codec, j: Joint, t: Trigger, payload: Payload, now: nat, at: string)
    requires Welcome(codec, j.hub, t, payload) && EventMessage(RowOf(t)) in j.system.network
    ensures var processing := Processing(EventMessage(RowOf(t)), payload, now, at, NoFault);
      && CanTake(codec, j, processing)
      && var j' := Next(codec, j, processing);
      && j'.hub == Process(codec, j.hub, payload, now, at, NoFault).0
      && j'.system.triggers == j.system.triggers && j'.system.nodes == j.system.nodes
      && AckMessage(RowOf(t).key) in j'.system.network
  {
    WelcomeIsAcknowledged(codec, j.hub, t, payload, now, at);
    hide Process, EventId, HasEvent, ValidateEvent, IsBlank, Managed, RowsOf, Apply, Enabled;
  }

  lemma HearingTaken(codec: Codec, j: Joint, d: DeviceId, n: nat)
    requires d in j.system.nodes && j.system.nodes[d].sender.Waiting? && j.system.nodes[d].sender.trigger == n
    requires n < |j.system.triggers| && j.system.triggers[n].device == d
    requires AckMessage(RowOf(j.system.triggers[n]).key) in j.system.network
    ensures var hearing := Outside(Hear(d, AckMessage(RowOf(j.system.triggers[n]).key)));
      && CanTake(codec, j, hearing)
      && var j' := Next(codec, j, hearing);
      && j'.hub == j.hub && n in j'.system.delivered && d in j'.system.nodes
      && j'.system.nodes == j.system.nodes[d := j.system.nodes[d].(sender := Idle)]
  {
    hide RowOf;
    var hear := Hear(d, AckMessage(RowOf(j.system.triggers[n]).key));
    assert Enabled(j.system, hear);
    MatchingAckEndsTheWait(j.system, hear);
    NodeStepFrame(j.system, hear);
    hide Apply, Enabled;
  }

  /** The exchange of an event is taken step by step. */
  lemma ExchangeTaken(codec: Codec, j: Joint, d: DeviceId, n: nat, payload: Payload, now: nat, at: string)
    returns (last: Joint)
    requires Enabled(j.system, Send(d)) && j.system.nodes[d].sender.trigger == n && j.system.triggers[n].device == d
    requires Welcome(codec, j.hub, j.system.triggers[n], payload)
    ensures forall h, steps :: JointRun(codec, h, steps) == Some(j) ==>
      JointRun(codec, h, steps + Exchange(j.system.triggers[n], payload, now, at)) == Some(last)
    ensures last.hub == Process(codec, j.hub, payload, now, at, NoFault).0 && n in last.system.delivered
    ensures last.system.nodes == j.system.nodes[d := j.system.nodes[d].(sender := Idle)]
  {
    var t := j.system.triggers[n];
    var sending, hearing := Outside(Send(d)), Outside(Hear(d, AckMessage(RowOf(t).key)));
    var processing := Processing(EventMessage(RowOf(t)), payload, now, at, NoFault);
    assert Exchange(t, payload, now, at) == [sending, processing, hearing];
    SendingTaken(codec, j, d);
    hide *;
    var j1 := Next(codec, j, sending);
    ProcessingTaken(codec, j1, t, payload, now, at);
    var j2 := Next(codec, j1, processing);
    HearingTaken(codec, j2, d, n);
    last := Next(codec, j2, hearing);
    forall h, steps | JointRun(codec, h, steps) == Some(j)
      ensures JointRun(codec, h, steps + Exchange(t, payload, now, at)) == Some(last)
    {
      ThreeSteps(codec, h, steps, j, sending, processing, hearing);
    }
  }

  /**
  Whatever happened before, one undisturbed exchange is enough: the event a node has an attempt left for is sent,
  stored unless it already is, acknowledged, and confirmed to the node, which is then free for its next event.
  */
  lemma UndisturbedExchangeConfirms(
    codec: Codec, h: Hub, steps: seq<JointStep>, j: Joint, d: DeviceId, payload: Payload, now: nat, at: string)
    requires JointRun(codec, h, steps) == Some(j) && Enabled(j.system, Send(d))
    requires var n := j.system.nodes[d].sender.trigger;
      j.system.triggers[n].device == d && Welcome(codec, j.hub, j.system.triggers[n], payload)
    ensures var n := j.system.nodes[d].sender.trigger;
      var t := j.system.triggers[n];
      var run := JointRun(codec, h, steps + Exchange(t, payload, now, at));
      && run.Some?
      && n in run.value.system.delivered
      && run.value.system.nodes == j.system.nodes[d := j.system.nodes[d].(sender := Idle)]
      && HasEvent(run.value.hub.events, d, EventId(t.boot, t.sequence))
      && run.value.hub.events == j.hub.events
           + (if HasEvent(j.hub.events, d, EventId(t.boot, t.sequence)) then []
              else [EventRow(at, d, EventId(t.boot, t.sequence), payload)])
  {
    var n := j.system.nodes[d].sender.trigger;
    var t := j.system.triggers[n];
    hide *;
    var last := ExchangeTaken(codec, j, d, n, payload, now, at);
    WelcomeIsAcknowledged(codec, j.hub, t, payload, now, at);
    assert JointRun(codec, h, steps + Exchange(t, payload, now, at)) == Some(last);
  }
}
