/**
EVENT delivery, from the node's action channel over an unreliable network to the
hub's durable event table, as a transition system.

The network holds a multiset of datagrams that may be lost, duplicated, delayed and
reordered, but not forged. The hub is any number of callers that interleave between
the lookup, the validation, the insert and the execution of one EVENT; a restart
keeps the event table and nothing else. Nodes may reboot at any time.
*/
module Delivery {
  import opened Wrappers
  import opened Messages
  import opened EventIds
  import opened NodeUdp

  const CHANNEL_CAPACITY: nat := 8

  datatype Key = Key(deviceId: DeviceId, eventId: string)

  /** A row of the event table: its unique key and the action its payload carries. */
  datatype Row = Row(key: Key, action: ActionId)

  /** An event as the node created it, with the retry count then in force. */
  datatype Trigger = Trigger(device: DeviceId, boot: u64, sequence: u64, action: ActionId, retryCount: nat)

  function RowOf(t: Trigger): Row {
    Row(Key(t.device, EventId(t.boot, t.sequence)), t.action)
  }

  function EventMessage(r: Row): UdpMessage { Event(r.key.deviceId, r.key.eventId, r.action) }

  function AckMessage(k: Key): UdpMessage { Ack(k.deviceId, k.eventId) }

  function RowIn(m: UdpMessage): Row
    requires m.Event?
  {
    Row(Key(m.deviceId, m.eventId), m.actionId)
  }

  /** The sender task: between events, about to start an attempt, or waiting for an ACK. */
  datatype Sender =
    | Idle
    | Ready(trigger: nat, started: nat)
    | Waiting(trigger: nat, started: nat)

  datatype Node = Node(
    boot: u64, nextSequence: u64, retryCount: nat, hubKnown: bool, channel: seq<ActionId>, sender: Sender)

  /** Where one hub caller stands inside the processing of a datagram. */
  datatype Caller =
    | Free
    | Received(row: Row)
    | Unseen(row: Row)
    | Validated(row: Row)
    | Stored(row: Row)
    | Answering(key: Key)

  /**
  The system state. The last six fields are history: the events created so far, how
  often each was sent, which were confirmed to their node, the executed rows in order,
  the boots used, and whether a boot id was ever reused or the hub ever restarted.
  */
  datatype System = System(
    nodes: map<DeviceId, Node>,
    network: multiset<UdpMessage>,
    callers: seq<Caller>,
    rows: seq<Row>,
    triggers: seq<Trigger>,
    sends: seq<nat>,
    delivered: set<nat>,
    calls: seq<Row>,
    boots: set<(DeviceId, u64)>,
    bootReused: bool,
    hubRestarted: bool)

  function Idling(n: nat): (callers: seq<Caller>)
    ensures |callers| == n
    ensures forall c :: 0 <= c < n ==> callers[c] == Free
  {
    seq(n, _ => Free)
  }

  function Start(callers: nat): System {
    System(map[], multiset{}, Idling(callers), [], [], [], {}, [], {}, false, false)
  }

  datatype Step =
    | Reboot(device: DeviceId, boot: u64, retryCount: nat)
    | Discover(device: DeviceId)
    | Press(device: DeviceId, action: ActionId)
    | Take(device: DeviceId)
    | Send(device: DeviceId)
    | SendFails(device: DeviceId)
    | Abandon(device: DeviceId)
    | Hear(device: DeviceId, message: UdpMessage)
    | Timeout(device: DeviceId)
    | Lose(message: UdpMessage)
    | Duplicate(message: UdpMessage)
    | Deliver(caller: nat, message: UdpMessage)
    | Reject(caller: nat)
    | Lookup(caller: nat)
    | Validate(caller: nat)
    | Insert(caller: nat)
    | Execute(caller: nat)
    | Answer(caller: nat)
    | HubRestart

  predicate HasKey(rows: seq<Row>, key: Key) {
    exists i :: 0 <= i < |rows| && rows[i].key == key
  }

  predicate AttemptLeft(n: Node) {
    n.sender.Ready? && Attempt(n.retryCount, n.sender.started).Some?
  }

  predicate Enabled(s: System, step: Step) {
    match step
    case Reboot(_, _, retryCount) => retryCount < 256
    case Discover(d) => d in s.nodes
    case Press(d, _) => d in s.nodes && |s.nodes[d].channel| < CHANNEL_CAPACITY
    case Take(d) => d in s.nodes && s.nodes[d].sender.Idle? && s.nodes[d].channel != []
    case Send(d) => d in s.nodes && AttemptLeft(s.nodes[d]) && s.nodes[d].hubKnown
                    && s.nodes[d].sender.trigger < |s.triggers| == |s.sends|
    case SendFails(d) => d in s.nodes && AttemptLeft(s.nodes[d]) && s.nodes[d].hubKnown
    case Abandon(d) => d in s.nodes && s.nodes[d].sender.Ready?
                       && !(AttemptLeft(s.nodes[d]) && s.nodes[d].hubKnown)
    case Hear(d, m) => d in s.nodes && s.nodes[d].sender.Waiting? && m in s.network
                       && s.nodes[d].sender.trigger < |s.triggers|
    case Timeout(d) => d in s.nodes && s.nodes[d].sender.Waiting?
    case Lose(m) => m in s.network
    case Duplicate(m) => m in s.network
    case Deliver(c, m) => c < |s.callers| && s.callers[c].Free? && m in s.network
    case Reject(c) => c < |s.callers| && (s.callers[c].Received? || s.callers[c].Unseen? || s.callers[c].Validated?)
    case Lookup(c) => c < |s.callers| && s.callers[c].Received?
    case Validate(c) => c < |s.callers| && s.callers[c].Unseen?
    case Insert(c) => c < |s.callers| && s.callers[c].Validated?
    case Execute(c) => c < |s.callers| && s.callers[c].Stored?
    case Answer(c) => c < |s.callers| && s.callers[c].Answering?
    case HubRestart => true
  }

  predicate OfNode(step: Step) {
    || step.Reboot? || step.Discover? || step.Press? || step.Take? || step.Send? || step.SendFails?
    || step.Abandon? || step.Hear? || step.Timeout?
  }

  predicate OfNetwork(step: Step) { step.Lose? || step.Duplicate? }

  /** The event a step creates: the oldest action under a new event id, unless the ids are used up. */
  function NewTrigger(s: System, step: Step): Option<Trigger>
    requires Enabled(s, step)
  {
    if !step.Take? then None
    else
      var n := s.nodes[step.device];
      match NextSequence(n.nextSequence).1
      case None => None
      case Some(sequence) => Some(Trigger(step.device, n.boot, sequence, n.channel[0], n.retryCount))
  }

  /** Only the matching ACK ends the wait of a sender. */
  predicate Confirms(s: System, step: Step)
    requires Enabled(s, step)
  {
    && step.Hear?
    && var awaited := RowOf(s.triggers[s.nodes[step.device].sender.trigger]).key;
       AckMatches(step.device, awaited.eventId, Some(step.message))
  }

  /** The node of a step's device after the step. */
  function NodeAfter(s: System, step: Step): Node
    requires OfNode(step) && Enabled(s, step)
  {
    match step
    case Reboot(_, boot, retryCount) => Node(boot, 1, retryCount, false, [], Idle)
    case Discover(d) => s.nodes[d].(hubKnown := true)
    case Press(d, a) => s.nodes[d].(channel := s.nodes[d].channel + [a])
    case Take(d) =>
      var n := s.nodes[d];
      n.(channel := n.channel[1..], nextSequence := NextSequence(n.nextSequence).0,
         sender := if NewTrigger(s, step).Some? then Ready(|s.triggers|, 0) else n.sender)
    case Send(d) => s.nodes[d].(sender := Waiting(s.nodes[d].sender.trigger, s.nodes[d].sender.started + 1))
    case SendFails(d) => s.nodes[d].(sender := Ready(s.nodes[d].sender.trigger, s.nodes[d].sender.started + 1))
    case Abandon(d) => s.nodes[d].(sender := Idle)
    case Hear(d, m) => if Confirms(s, step) then s.nodes[d].(sender := Idle) else s.nodes[d]
    case Timeout(d) => s.nodes[d].(sender := Ready(s.nodes[d].sender.trigger, s.nodes[d].sender.started))
  }

  function NodeApply(s: System, step: Step): System
    requires OfNode(step) && Enabled(s, step)
  {
    var d, created := step.device, NewTrigger(s, step);
    s.(nodes := s.nodes[d := NodeAfter(s, step)],
       network := if step.Send? then s.network + multiset{EventMessage(RowOf(s.triggers[s.nodes[d].sender.trigger]))}
                  else if step.Hear? then s.network - multiset{step.message} else s.network,
       triggers := if created.Some? then s.triggers + [created.value] else s.triggers,
       sends := if created.Some? then s.sends + [0]
                else if step.Send? then s.sends[s.nodes[d].sender.trigger := s.sends[s.nodes[d].sender.trigger] + 1]
                else s.sends,
       delivered := if Confirms(s, step) then s.delivered + {s.nodes[d].sender.trigger} else s.delivered,
       boots := if step.Reboot? then s.boots + {(d, step.boot)} else s.boots,
       bootReused := s.bootReused || (step.Reboot? && (d, step.boot) in s.boots))
  }

  /** The caller of a hub step after the step. */
  function CallerAfter(s: System, step: Step): Caller
    requires !OfNode(step) && !OfNetwork(step) && !step.HubRestart? && Enabled(s, step)
  {
    match step
    case Deliver(_, m) => if m.Event? then Received(RowIn(m)) else Free
    case Reject(_) => Free
    case Lookup(c) =>
      if HasKey(s.rows, s.callers[c].row.key) then Answering(s.callers[c].row.key) else Unseen(s.callers[c].row)
    case Validate(c) => Validated(s.callers[c].row)
    case Insert(c) =>
      if HasKey(s.rows, s.callers[c].row.key) then Answering(s.callers[c].row.key) else Stored(s.callers[c].row)
    case Execute(c) => Answering(s.callers[c].row.key)
    case Answer(_) => Free
  }

  function HubApply(s: System, step: Step): System
    requires !OfNode(step) && !OfNetwork(step) && !step.HubRestart? && Enabled(s, step)
  {
    var c := step.caller;
    s.(callers := s.callers[c := CallerAfter(s, step)],
       rows := if step.Insert? && !HasKey(s.rows, s.callers[c].row.key) then s.rows + [s.callers[c].row] else s.rows,
       calls := if step.Execute? then s.calls + [s.callers[c].row] else s.calls,
       network := if step.Deliver? then s.network - multiset{step.message}
                  else if step.Answer? then s.network + multiset{AckMessage(s.callers[c].key)} else s.network)
  }

  function Apply(s: System, step: Step): System
    requires Enabled(s, step)
  {
    if OfNode(step) then NodeApply(s, step)
    else if step.Lose? then s.(network := s.network - multiset{step.message})
    else if step.Duplicate? then s.(network := s.network + multiset{step.message})
    else if step.HubRestart? then s.(callers := Idling(|s.callers|), hubRestarted := true)
    else HubApply(s, step)
  }

  /** The state a sequence of steps leads to, if each is enabled in turn. */
  function Execution(callers: nat, steps: seq<Step>): Option<System> {
    if steps == [] then Some(Start(callers))
    else
      match Execution(callers, steps[..|steps| - 1])
      case None => None
      case Some(s) =>
        if Enabled(s, steps[|steps| - 1]) then Some(Apply(s, steps[|steps| - 1])) else None
  }

  // ---- Invariants ----------------------------------------------------------

  ghost predicate Created(triggers: seq<Trigger>, row: Row) {
    exists n :: 0 <= n < |triggers| && RowOf(triggers[n]) == row
  }

  ghost predicate SenderSound(d: DeviceId, node: Node, triggers: seq<Trigger>, sends: seq<nat>)
    requires |sends| == |triggers|
  {
    !node.sender.Idle? ==>
      var n := node.sender.trigger;
      && n < |triggers|
      && triggers[n].device == d
      && triggers[n].retryCount == node.retryCount
      && sends[n] <= node.sender.started <= node.retryCount + 1
      && forall m :: n < m < |triggers| ==> triggers[m].device != d
  }

  /** Senders work on the latest event of their own node and within its attempts. */
  ghost predicate SendersSound(nodes: map<DeviceId, Node>, triggers: seq<Trigger>, sends: seq<nat>) {
    && |sends| == |triggers|
    && (forall n :: 0 <= n < |sends| ==> sends[n] <= triggers[n].retryCount + 1)
    && (forall d :: d in nodes ==> SenderSound(d, nodes[d], triggers, sends))
  }

  /** No forging: EVENTs come from created events, ACKs from stored rows. */
  ghost predicate Vouched(m: UdpMessage, triggers: seq<Trigger>, rows: seq<Row>) {
    && (m.Event? ==> Created(triggers, RowIn(m)))
    && (m.Ack? ==> HasKey(rows, Key(m.deviceId, m.eventId)))
  }

  ghost predicate NetworkVouched(network: multiset<UdpMessage>, triggers: seq<Trigger>, rows: seq<Row>) {
    forall m :: m in network ==> Vouched(m, triggers, rows)
  }

  ghost predicate CallerVouched(caller: Caller, triggers: seq<Trigger>, rows: seq<Row>) {
    match caller
    case Free => true
    case Answering(key) => HasKey(rows, key)
    case Stored(row) => Created(triggers, row) && row in rows
    case _ => Created(triggers, caller.row)
  }

  ghost predicate CallersVouched(callers: seq<Caller>, triggers: seq<Trigger>, rows: seq<Row>) {
    forall c :: 0 <= c < |callers| ==> CallerVouched(callers[c], triggers, rows)
  }

  ghost predicate RowsVouched(rows: seq<Row>, triggers: seq<Trigger>) {
    forall i :: 0 <= i < |rows| ==> Created(triggers, rows[i])
  }

  ghost predicate DeliveredIn(delivered: set<nat>, triggers: seq<Trigger>, rows: seq<Row>) {
    forall n :: n in delivered ==> n < |triggers| && HasKey(rows, RowOf(triggers[n]).key)
  }

  ghost predicate NothingForged(s: System) {
    && NetworkVouched(s.network, s.triggers, s.rows)
    && CallersVouched(s.callers, s.triggers, s.rows)
    && RowsVouched(s.rows, s.triggers)
    && DeliveredIn(s.delivered, s.triggers, s.rows)
  }

  ghost predicate DistinctKeys(rows: seq<Row>) {
    forall i, j :: 0 <= i < j < |rows| ==> rows[i].key != rows[j].key
  }

  /** Keys are stored once and executed at most once, by the caller whose insert succeeded. */
  ghost predicate ExecutedOnce(callers: seq<Caller>, rows: seq<Row>, calls: seq<Row>) {
    && DistinctKeys(rows)
    && DistinctKeys(calls)
    && (forall r :: r in calls ==> r in rows)
    && (forall c :: 0 <= c < |callers| && callers[c].Stored? ==>
          callers[c].row in rows && !HasKey(calls, callers[c].row.key))
    && (forall c, e :: 0 <= c < e < |callers| && callers[c].Stored? && callers[e].Stored? ==>
          callers[c].row.key != callers[e].row.key)
  }

  ghost predicate NodeFresh(d: DeviceId, node: Node, triggers: seq<Trigger>) {
    forall n :: 0 <= n < |triggers| && triggers[n].device == d && triggers[n].boot == node.boot ==>
      triggers[n].sequence < node.nextSequence
  }

  ghost predicate DistinctIds(triggers: seq<Trigger>) {
    forall m, n :: 0 <= m < n < |triggers| ==> RowOf(triggers[m]).key != RowOf(triggers[n]).key
  }

  /** As long as no boot id is reused, event ids identify events. */
  ghost predicate IdsFresh(
    nodes: map<DeviceId, Node>, triggers: seq<Trigger>, boots: set<(DeviceId, u64)>, reused: bool)
  {
    && (forall d :: d in nodes ==> (d, nodes[d].boot) in boots)
    && (forall n :: 0 <= n < |triggers| ==> (triggers[n].device, triggers[n].boot) in boots)
    && (!reused ==> DistinctIds(triggers) && forall d :: d in nodes ==> NodeFresh(d, nodes[d], triggers))
  }

  /** One caller: what it found absent stays absent. */
  ghost predicate AbsentStaysAbsent(callers: seq<Caller>, rows: seq<Row>) {
    |callers| == 1 && (callers[0].Unseen? || callers[0].Validated?) ==> !HasKey(rows, callers[0].row.key)
  }

  ghost predicate RowsCalled(caller: Caller, rows: seq<Row>, calls: seq<Row>) {
    forall i :: 0 <= i < |rows| && caller != Stored(rows[i]) ==> HasKey(calls, rows[i].key)
  }

  ghost predicate AcksCalled(network: multiset<UdpMessage>, calls: seq<Row>) {
    forall m :: m in network && m.Ack? ==> HasKey(calls, Key(m.deviceId, m.eventId))
  }

  /** One caller that never restarted: rows, answers, ACKs and confirmations all follow an execution. */
  ghost predicate Serial(s: System) {
    |s.callers| == 1 && !s.hubRestarted ==>
      && RowsCalled(s.callers[0], s.rows, s.calls)
      && (s.callers[0].Answering? ==> HasKey(s.calls, s.callers[0].key))
      && AcksCalled(s.network, s.calls)
      && DeliveredIn(s.delivered, s.triggers, s.calls)
  }

  /** The key was executed before a position of the execution log. */
  ghost predicate CalledBefore(calls: seq<Row>, key: Key, at: nat) {
    exists p :: 0 <= p < at && p < |calls| && calls[p].key == key
  }

  ghost predicate ConfirmedFirst(delivered: set<nat>, triggers: seq<Trigger>, calls: seq<Row>) {
    forall n, m, q | n in delivered && 0 <= n < m < |triggers| && 0 <= q < |calls| ::
      triggers[m].device == triggers[n].device && calls[q].key == RowOf(triggers[m]).key ==>
        CalledBefore(calls, RowOf(triggers[n]).key, q)
  }

  ghost predicate InOrder(s: System) {
    |s.callers| == 1 && !s.hubRestarted && DistinctIds(s.triggers) ==> ConfirmedFirst(s.delivered, s.triggers, s.calls)
  }

  ghost predicate Inv(s: System) {
    && SendersSound(s.nodes, s.triggers, s.sends)
    && NothingForged(s)
    && ExecutedOnce(s.callers, s.rows, s.calls)
    && IdsFresh(s.nodes, s.triggers, s.boots, s.bootReused)
    && AbsentStaysAbsent(s.callers, s.rows)
    && Serial(s)
    && InOrder(s)
  }
}
