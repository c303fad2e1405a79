/** Every step of the delivery system keeps its invariants. */
module DeliveryProofs {
  import opened Wrappers
  import opened Messages
  import opened EventIds
  import opened NodeUdp
  import opened Delivery

  // ---- Growth of the histories ----------------------------------------------

  lemma CreatedGrows(triggers: seq<Trigger>, t: Trigger)
    ensures forall row :: Created(triggers, row) ==> Created(triggers + [t], row)
    ensures Created(triggers + [t], RowOf(t))
  {
    forall row | Created(triggers, row) ensures Created(triggers + [t], row) {
      var n :| 0 <= n < |triggers| && RowOf(triggers[n]) == row;
      assert (triggers + [t])[n] == triggers[n];
    }
    assert (triggers + [t])[|triggers|] == t;
  }

  lemma HasKeyGrows(rows: seq<Row>, row: Row)
    ensures forall key :: HasKey(rows + [row], key) <==> HasKey(rows, key) || key == row.key
  {
    assert (rows + [row])[|rows|] == row;
    forall key | HasKey(rows, key) ensures HasKey(rows + [row], key) {
      var i :| 0 <= i < |rows| && rows[i].key == key;
      assert (rows + [row])[i] == rows[i];
    }
  }

  // ---- What each kind of step leaves alone -------------------------------------

  /** A node step changes one node, and neither the hub nor its table. */
  lemma NodeStepFrame(s: System, step: Step)
    requires OfNode(step) && Enabled(s, step)
    ensures var s' := Apply(s, step);
      && s'.callers == s.callers && s'.rows == s.rows && s'.calls == s.calls && s'.hubRestarted == s.hubRestarted
      && s'.nodes == s.nodes[step.device := NodeAfter(s, step)]
      && (!step.Take? ==> s'.triggers == s.triggers)
      && (!step.Take? && !step.Send? ==> s'.sends == s.sends)
      && (!step.Hear? ==> s'.delivered == s.delivered)
      && (!step.Send? && !step.Hear? ==> s'.network == s.network)
  {
    hide NodeAfter, RowOf, EventMessage, AckMatches, NextSequence;
  }

  /** A node keeps its boot and its counter until it reboots or takes an action. */
  lemma NodeStepKeepsBoot(s: System, step: Step)
    requires OfNode(step) && Enabled(s, step) && !step.Reboot? && !step.Take?
    ensures var s' := Apply(s, step);
      && s'.boots == s.boots && s'.bootReused == s.bootReused && step.device in s.nodes
      && NodeAfter(s, step).boot == s.nodes[step.device].boot
      && NodeAfter(s, step).nextSequence == s.nodes[step.device].nextSequence
  {
    hide RowOf, EventMessage, AckMatches, NextSequence, HasKey;
  }

  /** What a network or hub step leaves alone: the nodes, their histories, and the number of callers. */
  ghost predicate NodesAlone(s: System, s': System) {
    && s'.nodes == s.nodes && s'.triggers == s.triggers && s'.sends == s.sends && s'.delivered == s.delivered
    && s'.boots == s.boots && s'.bootReused == s.bootReused && |s'.callers| == |s.callers|
  }

  lemma HubStepFrame(s: System, step: Step)
    requires !OfNode(step) && !OfNetwork(step) && !step.HubRestart? && Enabled(s, step)
    ensures var s' := HubApply(s, step);
      && NodesAlone(s, s') && s'.hubRestarted == s.hubRestarted
      && (!step.Insert? ==> s'.rows == s.rows)
      && (!step.Execute? ==> s'.calls == s.calls)
  {
    hide CallerAfter, RowOf, EventMessage, HasKey;
  }

  lemma OtherStepFrame(s: System, step: Step)
    requires !OfNode(step) && Enabled(s, step)
    ensures var s' := Apply(s, step);
      && NodesAlone(s, s')
      && (OfNetwork(step) ==> s'.callers == s.callers)
      && (!step.Insert? ==> s'.rows == s.rows)
      && (!step.Execute? ==> s'.calls == s.calls)
      && (!step.HubRestart? ==> s'.hubRestarted == s.hubRestarted)
  {
    hide NodeApply, HubApply, Enabled, Idling;
    if !OfNetwork(step) && !step.HubRestart? {
      HubStepFrame(s, step);
    }
  }

  /** A hub step other than a restart moves one caller. */
  lemma CallerFrame(s: System, step: Step)
    requires !OfNode(step) && !OfNetwork(step) && !step.HubRestart? && Enabled(s, step)
    ensures step.caller < |s.callers| && Apply(s, step).callers == s.callers[step.caller := CallerAfter(s, step)]
  {
    hide NodeApply, CallerAfter, RowOf, EventMessage, HasKey, Idling;
  }

  // ---- Senders ----------------------------------------------------------------

  lemma TakeKeepsSenders(s: System, d: DeviceId)
    requires SendersSound(s.nodes, s.triggers, s.sends) && Enabled(s, Take(d))
    ensures var s' := Apply(s, Take(d)); SendersSound(s'.nodes, s'.triggers, s'.sends)
  {
    var s' := Apply(s, Take(d));
    forall e | e in s'.nodes ensures SenderSound(e, s'.nodes[e], s'.triggers, s'.sends) {
      if e != d { assert SenderSound(e, s.nodes[e], s.triggers, s.sends); }
    }
  }

  lemma SendKeepsSenders(s: System, d: DeviceId)
    requires SendersSound(s.nodes, s.triggers, s.sends) && Enabled(s, Send(d))
    ensures var s' := Apply(s, Send(d)); SendersSound(s'.nodes, s'.triggers, s'.sends)
  {
    var s' := Apply(s, Send(d));
    assert SenderSound(d, s.nodes[d], s.triggers, s.sends);
    forall e | e in s'.nodes ensures SenderSound(e, s'.nodes[e], s'.triggers, s'.sends) {
      if e != d { assert SenderSound(e, s.nodes[e], s.triggers, s.sends); }
    }
  }

  /** The remaining sender steps change one node's sender, towards less work or a later attempt. */
  lemma NodeChangeKeepsSenders(nodes: map<DeviceId, Node>, triggers: seq<Trigger>, sends: seq<nat>, d: DeviceId,
      node: Node)
    requires SendersSound(nodes, triggers, sends) && SenderSound(d, node, triggers, sends)
    ensures SendersSound(nodes[d := node], triggers, sends)
  {}

  /** The steps of a node that neither take nor send. */
  lemma SenderMoves(s: System, step: Step)
    requires SendersSound(s.nodes, s.triggers, s.sends) && Enabled(s, step)
    requires OfNode(step) && !step.Take? && !step.Send?
    ensures SenderSound(step.device, NodeAfter(s, step), s.triggers, s.sends)
  {
    hide RowOf, EventMessage, AckMatches, NextSequence, HasKey;
  }

  lemma SendersStaySound(s: System, step: Step)
    requires SendersSound(s.nodes, s.triggers, s.sends) && Enabled(s, step)
    ensures var s' := Apply(s, step); SendersSound(s'.nodes, s'.triggers, s'.sends)
  {
    hide NodeApply, HubApply, SendersSound, SenderSound;
    if !OfNode(step) {
      OtherStepFrame(s, step);
    } else if step.Take? {
      TakeKeepsSenders(s, step.device);
    } else if step.Send? {
      SendKeepsSenders(s, step.device);
    } else {
      NodeStepFrame(s, step);
      SenderMoves(s, step);
      NodeChangeKeepsSenders(s.nodes, s.triggers, s.sends, step.device, NodeAfter(s, step));
    }
  }

  // ---- Nothing forged ----------------------------------------------------------

  lemma TakeKeepsOrigins(s: System, d: DeviceId)
    requires NothingForged(s) && Enabled(s, Take(d)) && |s.triggers| == |s.sends|
    ensures NothingForged(Apply(s, Take(d)))
  {
    var s' := Apply(s, Take(d));
    if |s'.triggers| > |s.triggers| {
      CreatedGrows(s.triggers, s'.triggers[|s.triggers|]);
    }
    forall c | 0 <= c < |s.callers| ensures CallerVouched(s.callers[c], s'.triggers, s.rows) {
      assert CallerVouched(s.callers[c], s.triggers, s.rows);
    }
    forall m | m in s.network ensures Vouched(m, s'.triggers, s.rows) {
      assert Vouched(m, s.triggers, s.rows);
    }
  }

  lemma InsertKeepsOrigins(s: System, c: nat)
    requires NothingForged(s) && Enabled(s, Insert(c))
    ensures NothingForged(Apply(s, Insert(c)))
  {
    var s' := Apply(s, Insert(c));
    var row := s.callers[c].row;
    assert CallerVouched(s.callers[c], s.triggers, s.rows);
    HasKeyGrows(s.rows, row);
    forall e | 0 <= e < |s'.callers| ensures CallerVouched(s'.callers[e], s'.triggers, s'.rows) {
      assert CallerVouched(s.callers[e], s.triggers, s.rows);
    }
    forall m | m in s.network ensures Vouched(m, s'.triggers, s'.rows) {
      assert Vouched(m, s.triggers, s.rows);
    }
  }

  lemma HearKeepsOrigins(s: System, d: DeviceId, m: UdpMessage)
    requires NothingForged(s) && SendersSound(s.nodes, s.triggers, s.sends) && Enabled(s, Hear(d, m))
    ensures NothingForged(Apply(s, Hear(d, m)))
  {
    assert SenderSound(d, s.nodes[d], s.triggers, s.sends);
    assert Vouched(m, s.triggers, s.rows);
  }

  lemma SendKeepsOrigins(s: System, d: DeviceId)
    requires NothingForged(s) && Enabled(s, Send(d))
    ensures NothingForged(Apply(s, Send(d)))
  {
    var row := RowOf(s.triggers[s.nodes[d].sender.trigger]);
    assert RowIn(EventMessage(row)) == row;
    assert Created(s.triggers, row);
  }

  /** A hub caller moving on without touching the table or the network. */
  lemma CallerKeepsOrigins(s: System, c: nat, caller: Caller)
    requires NothingForged(s) && c < |s.callers| && CallerVouched(caller, s.triggers, s.rows)
    ensures NothingForged(s.(callers := s.callers[c := caller]))
  {}

  lemma DeliverKeepsOrigins(s: System, c: nat, m: UdpMessage)
    requires NothingForged(s) && Enabled(s, Deliver(c, m))
    ensures NothingForged(Apply(s, Deliver(c, m)))
  {
    assert Vouched(m, s.triggers, s.rows);
    CallerKeepsOrigins(s, c, Apply(s, Deliver(c, m)).callers[c]);
  }

  lemma HubStepKeepsOrigins(s: System, c: nat, step: Step)
    requires NothingForged(s) && Enabled(s, step)
    requires step in {Reject(c), Lookup(c), Validate(c), Execute(c), Answer(c)}
    ensures NothingForged(Apply(s, step))
  {
    assert CallerVouched(s.callers[c], s.triggers, s.rows);
    CallerKeepsOrigins(s, c, Apply(s, step).callers[c]);
  }

  lemma RestartKeepsOrigins(s: System)
    requires NothingForged(s)
    ensures NothingForged(Apply(s, HubRestart))
  {}

  lemma NetworkStepKeepsOrigins(s: System, m: UdpMessage, step: Step)
    requires NothingForged(s) && Enabled(s, step) && step in {Lose(m), Duplicate(m)}
    ensures NothingForged(Apply(s, step))
  {
    assert Vouched(m, s.triggers, s.rows);
  }

  lemma OriginsKept(s: System, step: Step)
    requires NothingForged(s) && SendersSound(s.nodes, s.triggers, s.sends) && Enabled(s, step)
    ensures NothingForged(Apply(s, step))
  {
    hide NetworkVouched, CallersVouched, RowsVouched, DeliveredIn, SenderSound;
    match step
    case Take(d) => TakeKeepsOrigins(s, d);
    case Send(d) => SendKeepsOrigins(s, d);
    case Hear(d, m) => HearKeepsOrigins(s, d, m);
    case Insert(c) => InsertKeepsOrigins(s, c);
    case Deliver(c, m) => DeliverKeepsOrigins(s, c, m);
    case Reject(c) => HubStepKeepsOrigins(s, c, step);
    case Lookup(c) => HubStepKeepsOrigins(s, c, step);
    case Validate(c) => HubStepKeepsOrigins(s, c, step);
    case Execute(c) => HubStepKeepsOrigins(s, c, step);
    case Answer(c) => HubStepKeepsOrigins(s, c, step);
    case HubRestart => RestartKeepsOrigins(s);
    case Lose(m) => NetworkStepKeepsOrigins(s, m, step);
    case Duplicate(m) => NetworkStepKeepsOrigins(s, m, step);
    case _ =>
  }

  // ---- Executed at most once ------------------------------------------------------

  lemma CallerKeepsOnce(callers: seq<Caller>, rows: seq<Row>, calls: seq<Row>, c: nat, caller: Caller)
    requires ExecutedOnce(callers, rows, calls) && c < |callers| && !caller.Stored?
    ensures ExecutedOnce(callers[c := caller], rows, calls)
  {}

  lemma InsertKeepsOnce(s: System, c: nat)
    requires ExecutedOnce(s.callers, s.rows, s.calls) && Enabled(s, Insert(c))
    ensures var s' := Apply(s, Insert(c)); ExecutedOnce(s'.callers, s'.rows, s'.calls)
  {
    var row := s.callers[c].row;
    if !HasKey(s.rows, row.key) {
      forall i | 0 <= i < |s.calls| ensures s.calls[i].key != row.key {
        assert s.calls[i] in s.calls;
      }
      assert row in s.rows + [row];
    }
  }

  lemma ExecuteKeepsOnce(s: System, c: nat)
    requires ExecutedOnce(s.callers, s.rows, s.calls) && Enabled(s, Execute(c))
    ensures var s' := Apply(s, Execute(c)); ExecutedOnce(s'.callers, s'.rows, s'.calls)
  {
    var row := s.callers[c].row;
    HasKeyGrows(s.calls, row);
  }

  /** The caller that moves does not come to hold a stored row. */
  lemma NotStoredAfter(s: System, step: Step)
    requires Enabled(s, step) && (step.Deliver? || step.Reject? || step.Lookup? || step.Validate? || step.Answer?)
    ensures !CallerAfter(s, step).Stored?
  {
    hide NodeApply, RowOf, EventMessage, HasKey;
  }

  lemma RestartKeepsOnce(s: System)
    requires ExecutedOnce(s.callers, s.rows, s.calls)
    ensures var s' := Apply(s, HubRestart); ExecutedOnce(s'.callers, s'.rows, s'.calls)
  {}

  lemma OnceKept(s: System, step: Step)
    requires ExecutedOnce(s.callers, s.rows, s.calls) && Enabled(s, step)
    ensures var s' := Apply(s, step); ExecutedOnce(s'.callers, s'.rows, s'.calls)
  {
    hide Apply, ExecutedOnce;
    if OfNode(step) {
      NodeStepFrame(s, step);
    } else if OfNetwork(step) {
      OtherStepFrame(s, step);
    } else if step.HubRestart? {
      RestartKeepsOnce(s);
    } else if step.Insert? {
      InsertKeepsOnce(s, step.caller);
    } else if step.Execute? {
      ExecuteKeepsOnce(s, step.caller);
    } else {
      OtherStepFrame(s, step);
      CallerFrame(s, step);
      NotStoredAfter(s, step);
      CallerKeepsOnce(s.callers, s.rows, s.calls, step.caller, CallerAfter(s, step));
    }
  }

  // ---- Fresh identifiers ---------------------------------------------------------

  lemma TakeKeepsIds(s: System, d: DeviceId)
    requires IdsFresh(s.nodes, s.triggers, s.boots, s.bootReused) && Enabled(s, Take(d))
    ensures var s' := Apply(s, Take(d)); IdsFresh(s'.nodes, s'.triggers, s'.boots, s'.bootReused)
  {
    var s' := Apply(s, Take(d));
    if |s'.triggers| > |s.triggers| && !s.bootReused {
      var t := s'.triggers[|s.triggers|];
      assert NodeFresh(d, s.nodes[d], s.triggers);
      forall m | 0 <= m < |s.triggers| ensures RowOf(s.triggers[m]).key != RowOf(t).key {
        if RowOf(s.triggers[m]).key == RowOf(t).key {
          EventIdInjective(s.triggers[m].boot, s.triggers[m].sequence, t.boot, t.sequence);
        }
      }
      forall e | e in s'.nodes ensures NodeFresh(e, s'.nodes[e], s'.triggers) {
        assert NodeFresh(e, s.nodes[e], s.triggers);
      }
    }
  }

  lemma RebootKeepsIds(s: System, d: DeviceId, boot: u64, retryCount: nat)
    requires IdsFresh(s.nodes, s.triggers, s.boots, s.bootReused) && Enabled(s, Reboot(d, boot, retryCount))
    ensures var s' := Apply(s, Reboot(d, boot, retryCount)); IdsFresh(s'.nodes, s'.triggers, s'.boots, s'.bootReused)
  {
    var s' := Apply(s, Reboot(d, boot, retryCount));
    if !s'.bootReused {
      forall e | e in s'.nodes ensures NodeFresh(e, s'.nodes[e], s'.triggers) {
        if e != d { assert NodeFresh(e, s.nodes[e], s.triggers); }
      }
    }
  }

  /** The other node steps keep the node's boot and counter. */
  lemma NodeChangeKeepsIds(s: System, d: DeviceId, node: Node)
    requires IdsFresh(s.nodes, s.triggers, s.boots, s.bootReused) && d in s.nodes
    requires node.boot == s.nodes[d].boot && node.nextSequence == s.nodes[d].nextSequence
    ensures IdsFresh(s.nodes[d := node], s.triggers, s.boots, s.bootReused)
  {
    if !s.bootReused {
      forall e | e in s.nodes ensures NodeFresh(e, s.nodes[d := node][e], s.triggers) {
        assert NodeFresh(e, s.nodes[e], s.triggers);
      }
    }
  }

  lemma IdsKept(s: System, step: Step)
    requires IdsFresh(s.nodes, s.triggers, s.boots, s.bootReused) && Enabled(s, step)
    ensures var s' := Apply(s, step); IdsFresh(s'.nodes, s'.triggers, s'.boots, s'.bootReused)
  {
    hide Apply, IdsFresh;
    if !OfNode(step) {
      OtherStepFrame(s, step);
    } else if step.Take? {
      TakeKeepsIds(s, step.device);
    } else if step.Reboot? {
      RebootKeepsIds(s, step.device, step.boot, step.retryCount);
    } else {
      NodeStepFrame(s, step);
      NodeStepKeepsBoot(s, step);
      NodeChangeKeepsIds(s, step.device, NodeAfter(s, step));
    }
  }

  // ---- One caller ----------------------------------------------------------------

  lemma LookupKeepsAbsence(s: System, c: nat, step: Step)
    requires AbsentStaysAbsent(s.callers, s.rows) && Enabled(s, step) && step in {Lookup(c), Validate(c), Insert(c)}
    ensures var s' := Apply(s, step); AbsentStaysAbsent(s'.callers, s'.rows)
  {
    hide HasKey;
  }

  lemma ArrivalKeepsAbsence(s: System, step: Step)
    requires AbsentStaysAbsent(s.callers, s.rows) && Enabled(s, step)
    requires step.Deliver? || step.Reject? || step.Execute? || step.Answer? || step.HubRestart?
    ensures var s' := Apply(s, step); AbsentStaysAbsent(s'.callers, s'.rows)
  {
    hide HasKey, NodeApply, RowOf, EventMessage;
  }

  lemma AbsenceKept(s: System, step: Step)
    requires AbsentStaysAbsent(s.callers, s.rows) && Enabled(s, step)
    ensures var s' := Apply(s, step); AbsentStaysAbsent(s'.callers, s'.rows)
  {
    hide Apply, AbsentStaysAbsent;
    if OfNode(step) {
      NodeStepFrame(s, step);
    } else if OfNetwork(step) {
      OtherStepFrame(s, step);
    } else if step.Lookup? || step.Validate? || step.Insert? {
      LookupKeepsAbsence(s, step.caller, step);
    } else {
      ArrivalKeepsAbsence(s, step);
    }
  }

  lemma DeliveredGrows(s: System, t: Trigger)
    requires DeliveredIn(s.delivered, s.triggers, s.calls)
    ensures DeliveredIn(s.delivered, s.triggers + [t], s.calls)
  {
    forall n | n in s.delivered ensures HasKey(s.calls, RowOf((s.triggers + [t])[n]).key) {
      assert (s.triggers + [t])[n] == s.triggers[n];
    }
  }

  lemma ExecuteKeepsSerial(s: System)
    requires Serial(s) && |s.callers| == 1 && Enabled(s, Execute(0))
    ensures Serial(Apply(s, Execute(0)))
  {
    HasKeyGrows(s.calls, s.callers[0].row);
  }

  lemma LookupKeepsSerial(s: System)
    requires Serial(s) && |s.callers| == 1 && Enabled(s, Lookup(0))
    ensures Serial(Apply(s, Lookup(0)))
  {
    if !s.hubRestarted && HasKey(s.rows, s.callers[0].row.key) {
      var i :| 0 <= i < |s.rows| && s.rows[i].key == s.callers[0].row.key;
      assert HasKey(s.calls, s.rows[i].key);
    }
  }

  lemma InsertKeepsSerial(s: System)
    requires Serial(s) && |s.callers| == 1 && Enabled(s, Insert(0)) && AbsentStaysAbsent(s.callers, s.rows)
    ensures Serial(Apply(s, Insert(0)))
  {}

  lemma HearKeepsSerial(s: System, d: DeviceId, m: UdpMessage)
    requires Serial(s) && SendersSound(s.nodes, s.triggers, s.sends) && Enabled(s, Hear(d, m))
    ensures Serial(Apply(s, Hear(d, m)))
  {
    assert SenderSound(d, s.nodes[d], s.triggers, s.sends);
  }

  lemma TakeKeepsSerial(s: System, d: DeviceId)
    requires Serial(s) && Enabled(s, Take(d)) && |s.triggers| == |s.sends|
    ensures Serial(Apply(s, Take(d)))
  {
    var s' := Apply(s, Take(d));
    if |s.callers| == 1 && !s.hubRestarted && |s'.triggers| > |s.triggers| {
      DeliveredGrows(s, s'.triggers[|s.triggers|]);
    }
  }

  lemma NetworkStepKeepsSerial(s: System, step: Step)
    requires Serial(s) && Enabled(s, step) && OfNetwork(step)
    ensures Serial(Apply(s, step))
  {
    hide NodeApply, HubApply, RowsCalled, DeliveredIn, HasKey;
  }

  /** Hub steps that leave the table and the log alone, and send no ACK. */
  lemma QuietCallerKeepsSerial(s: System, step: Step)
    requires Serial(s) && |s.callers| == 1 && Enabled(s, step)
    requires step.Reject? || step.Validate?
    ensures Serial(Apply(s, step))
  {
    hide NodeApply, DeliveredIn, HasKey;
  }

  lemma ArrivalKeepsSerial(s: System, m: UdpMessage)
    requires Serial(s) && |s.callers| == 1 && Enabled(s, Deliver(0, m))
    ensures Serial(Apply(s, Deliver(0, m)))
  {
    hide NodeApply, DeliveredIn, HasKey;
  }

  lemma AnswerKeepsSerial(s: System)
    requires Serial(s) && |s.callers| == 1 && Enabled(s, Answer(0))
    ensures Serial(Apply(s, Answer(0)))
  {
    hide NodeApply, DeliveredIn, HasKey;
  }

  lemma SendKeepsSerial(s: System, d: DeviceId)
    requires Serial(s) && |s.callers| == 1 && Enabled(s, Send(d))
    ensures Serial(Apply(s, Send(d)))
  {}

  /** Node steps that touch neither the network nor the histories. */
  lemma QuietStepKeepsSerial(s: System, step: Step)
    requires Serial(s) && Enabled(s, step)
    requires OfNode(step) && !step.Take? && !step.Send? && !step.Hear?
    ensures Serial(Apply(s, step))
  {
    hide Apply, RowsCalled, AcksCalled, DeliveredIn;
    NodeStepFrame(s, step);
  }

  lemma SerialKept(s: System, step: Step)
    requires Serial(s) && AbsentStaysAbsent(s.callers, s.rows) && SendersSound(s.nodes, s.triggers, s.sends)
    requires Enabled(s, step) && |s.callers| == 1
    ensures Serial(Apply(s, step))
  {
    hide Apply, Serial;
    match step
    case Execute(c) => ExecuteKeepsSerial(s);
    case Lookup(c) => LookupKeepsSerial(s);
    case Insert(c) => InsertKeepsSerial(s);
    case Take(d) => TakeKeepsSerial(s, d);
    case Hear(d, m) => HearKeepsSerial(s, d, m);
    case Send(d) => SendKeepsSerial(s, d);
    case Lose(_) => NetworkStepKeepsSerial(s, step);
    case Duplicate(_) => NetworkStepKeepsSerial(s, step);
    case Deliver(_, m) => ArrivalKeepsSerial(s, m);
    case Reject(_) => QuietCallerKeepsSerial(s, step);
    case Validate(_) => QuietCallerKeepsSerial(s, step);
    case Answer(_) => AnswerKeepsSerial(s);
    case HubRestart => RestartKeepsSerial(s);
    case _ => QuietStepKeepsSerial(s, step);
  }

  lemma RestartKeepsSerial(s: System)
    ensures Serial(Apply(s, HubRestart))
  {}

  /** With several callers nothing is claimed, and their number never changes. */
  lemma ManyCallersSerial(s: System, step: Step)
    requires Enabled(s, step) && |s.callers| != 1
    ensures Serial(Apply(s, step))
  {
    hide Apply, RowsCalled, AcksCalled, DeliveredIn;
    if OfNode(step) { NodeStepFrame(s, step); } else { OtherStepFrame(s, step); }
  }

  // ---- Order -----------------------------------------------------------------------

  lemma TakeKeepsOrder(s: System, d: DeviceId)
    requires NothingForged(s) && ExecutedOnce(s.callers, s.rows, s.calls) && Enabled(s, Take(d)) && InOrder(s)
    ensures InOrder(Apply(s, Take(d)))
  {
    var s' := Apply(s, Take(d));
    if |s.callers| == 1 && !s.hubRestarted && DistinctIds(s'.triggers) && |s'.triggers| > |s.triggers| {
      var last := |s.triggers|;
      assert forall n :: 0 <= n < last ==> s'.triggers[n] == s.triggers[n];
      forall q | 0 <= q < |s.calls| ensures s.calls[q].key != RowOf(s'.triggers[last]).key {
        assert s.calls[q] in s.calls;
        var i :| 0 <= i < |s.rows| && s.rows[i] == s.calls[q];
        assert Created(s.triggers, s.rows[i]);
        var n :| 0 <= n < |s.triggers| && RowOf(s.triggers[n]) == s.rows[i];
        assert RowOf(s'.triggers[n]).key != RowOf(s'.triggers[last]).key;
      }
    }
  }

  /** What is appended to a log comes after all that confirmed events left there. */
  lemma AppendKeepsOrder(delivered: set<nat>, triggers: seq<Trigger>, log: seq<Row>, row: Row)
    requires ConfirmedFirst(delivered, triggers, log) && DeliveredIn(delivered, triggers, log)
    ensures ConfirmedFirst(delivered, triggers, log + [row])
  {
    hide RowOf;
    var grown := log + [row];
    forall n, m, q | n in delivered && 0 <= n < m < |triggers| && 0 <= q < |grown|
      && triggers[m].device == triggers[n].device && grown[q].key == RowOf(triggers[m]).key
      ensures CalledBefore(grown, RowOf(triggers[n]).key, q)
    {
      var key := RowOf(triggers[n]).key;
      assert q < |log| ==> CalledBefore(log, key, q);
      assert HasKey(log, key);
      var p :| 0 <= p < |log| && p < q && log[p].key == key;
      assert grown[p] == log[p];
    }
  }

  lemma ExecuteKeepsOrder(s: System, c: nat)
    requires InOrder(s) && Serial(s) && Enabled(s, Execute(c))
    ensures InOrder(Apply(s, Execute(c)))
  {
    OtherStepFrame(s, Execute(c));
    hide NodeApply, CallerAfter, ConfirmedFirst, DeliveredIn, DistinctIds, RowsCalled, AcksCalled;
    if |s.callers| == 1 && !s.hubRestarted && DistinctIds(s.triggers) {
      AppendKeepsOrder(s.delivered, s.triggers, s.calls, s.callers[c].row);
    }
  }

  /** The event just confirmed is the latest of its node, so no later one has been executed. */
  lemma HearKeepsOrder(s: System, d: DeviceId, m: UdpMessage)
    requires InOrder(s) && SendersSound(s.nodes, s.triggers, s.sends) && Enabled(s, Hear(d, m))
    ensures InOrder(Apply(s, Hear(d, m)))
  {
    assert SenderSound(d, s.nodes[d], s.triggers, s.sends);
  }

  /** The remaining steps leave what the order is about alone. */
  lemma OtherStepKeepsOrder(s: System, step: Step)
    requires InOrder(s) && Enabled(s, step) && !step.Take? && !step.Execute? && !step.Hear?
    ensures InOrder(Apply(s, step))
  {
    hide Apply, ConfirmedFirst, DistinctIds;
    if OfNode(step) {
      NodeStepFrame(s, step);
    } else {
      OtherStepFrame(s, step);
      if step.HubRestart? { RestartMarks(s); }
    }
  }

  lemma RestartMarks(s: System)
    ensures Apply(s, HubRestart).hubRestarted
  {}

  lemma OrderKept(s: System, step: Step)
    requires Inv(s) && Enabled(s, step)
    ensures InOrder(Apply(s, step))
  {
    hide Apply, InOrder, SendersSound, NothingForged, ExecutedOnce, IdsFresh, AbsentStaysAbsent, Serial, Enabled;
    match step
    case Take(d) => TakeKeepsOrder(s, d);
    case Execute(c) => ExecuteKeepsOrder(s, c);
    case Hear(d, m) => HearKeepsOrder(s, d, m);
    case _ => OtherStepKeepsOrder(s, step);
  }

  // ---- Every reachable state ---------------------------------------------------------

  lemma StepKeepsInv(s: System, step: Step)
    requires Inv(s) && Enabled(s, step)
    ensures Inv(Apply(s, step))
  {
    hide SendersSound, NothingForged, ExecutedOnce, IdsFresh, AbsentStaysAbsent, Serial, InOrder, Enabled, Apply;
    SendersStaySound(s, step);
    OriginsKept(s, step);
    OnceKept(s, step);
    IdsKept(s, step);
    AbsenceKept(s, step);
    if |s.callers| == 1 { SerialKept(s, step); } else { ManyCallersSerial(s, step); }
    OrderKept(s, step);
  }

  lemma {:induction false} Reachable(callers: nat, steps: seq<Step>)
    requires Execution(callers, steps).Some?
    ensures Inv(Execution(callers, steps).value)
  {
    if steps != [] {
      hide Inv, Apply, Enabled;
      Reachable(callers, steps[..|steps| - 1]);
      StepKeepsInv(Execution(callers, steps[..|steps| - 1]).value, steps[|steps| - 1]);
    }
  }
}
