/** Exactly which stored actions are lost, which event ids clash, and what becomes of the presses. */
module DeliveryFates {
  import opened Wrappers
  import opened Messages
  import opened EventIds
  import opened NodeUdp
  import opened Delivery
  import opened DeliveryProofs
  import opened DeliveryTheorems

  // ---- Stored rows: executed, about to be, or struck down --------------------------

  /** Some caller has stored the row and not executed it yet. */
  ghost predicate Holds(callers: seq<Caller>, row: Row) {
    exists c :: 0 <= c < |callers| && callers[c] == Stored(row)
  }

  /** Step k restarted the hub while a caller held the row. */
  ghost predicate StruckAt(callers: nat, steps: seq<Step>, row: Row, k: nat) {
    && k < |steps| && steps[k].HubRestart?
    && Execution(callers, steps[..k]).Some?
    && Holds(Execution(callers, steps[..k]).value.callers, row)
  }

  ghost predicate Struck(callers: nat, steps: seq<Step>, row: Row) {
    exists k: nat :: StruckAt(callers, steps, row, k)
  }

  lemma StruckSnoc(callers: nat, steps: seq<Step>, step: Step, row: Row)
    requires Execution(callers, steps).Some?
    ensures Struck(callers, steps + [step], row) <==>
      Struck(callers, steps, row) || (step.HubRestart? && Holds(Execution(callers, steps).value.callers, row))
  {
    hide Execution, Holds;
    var all := steps + [step];
    assert all[..|steps|] == steps;
    forall k: nat | k < |steps|
      ensures StruckAt(callers, all, row, k) <==> StruckAt(callers, steps, row, k)
    {
      assert all[..k] == steps[..k] && all[k] == steps[k];
    }
    if Struck(callers, steps, row) {
      var k: nat :| StruckAt(callers, steps, row, k);
      assert StruckAt(callers, all, row, k);
    }
    if step.HubRestart? && Holds(Execution(callers, steps).value.callers, row) {
      assert StruckAt(callers, all, row, |steps|);
    }
  }

  /** Stored, but neither executed nor still held. */
  ghost predicate Unserved(s: System, row: Row) {
    row in s.rows && row !in s.calls && !Holds(s.callers, row)
  }

  lemma HoldsUpdated(callers: seq<Caller>, c: nat, caller: Caller, row: Row)
    requires c < |callers| && callers[c] != Stored(row)
    ensures Holds(callers[c := caller], row) <==> Holds(callers, row) || caller == Stored(row)
  {
    var after := callers[c := caller];
    if Holds(callers, row) {
      var e :| 0 <= e < |callers| && callers[e] == Stored(row);
      assert after[e] == Stored(row);
    }
    if caller == Stored(row) {
      assert after[c] == Stored(row);
    }
  }

  lemma HeldIsStored(s: System, row: Row)
    requires ExecutedOnce(s.callers, s.rows, s.calls) && Holds(s.callers, row)
    ensures row in s.rows && row !in s.calls
  {
    var c :| 0 <= c < |s.callers| && s.callers[c] == Stored(row);
    if row in s.calls {
      var i :| 0 <= i < |s.calls| && s.calls[i] == row;
      assert HasKey(s.calls, row.key);
    }
  }

  lemma RestartStrikes(s: System, row: Row)
    requires ExecutedOnce(s.callers, s.rows, s.calls)
    ensures Unserved(Apply(s, HubRestart), row) <==> Unserved(s, row) || Holds(s.callers, row)
  {
    hide ExecutedOnce;
    if Holds(s.callers, row) { HeldIsStored(s, row); }
  }

  lemma InsertServes(s: System, c: nat, row: Row)
    requires Enabled(s, Insert(c))
    ensures Unserved(Apply(s, Insert(c)), row) <==> Unserved(s, row)
  {
    hide NodeApply, Holds;
    HoldsUpdated(s.callers, c, CallerAfter(s, Insert(c)), row);
    var stored := s.callers[c].row;
    if row in s.rows && row.key == stored.key {
      var i :| 0 <= i < |s.rows| && s.rows[i] == row;
      assert HasKey(s.rows, stored.key);
    }
  }

  lemma ExecuteServes(s: System, c: nat, row: Row)
    requires Enabled(s, Execute(c))
    ensures Unserved(Apply(s, Execute(c)), row) <==> Unserved(s, row)
  {
    hide NodeApply;
    if s.callers[c] != Stored(row) {
      HoldsUpdated(s.callers, c, CallerAfter(s, Execute(c)), row);
    }
  }

  lemma NotStoredBefore(s: System, step: Step)
    requires Enabled(s, step) && (step.Deliver? || step.Reject? || step.Lookup? || step.Validate? || step.Answer?)
    ensures step.caller < |s.callers| && !s.callers[step.caller].Stored?
  {}

  /** A step strikes a row exactly when it restarts the hub while the row is held. */
  lemma StepStrikes(s: System, step: Step, row: Row)
    requires ExecutedOnce(s.callers, s.rows, s.calls) && Enabled(s, step)
    ensures Unserved(Apply(s, step), row) <==>
      Unserved(s, row) || (step.HubRestart? && Holds(s.callers, row))
  {
    hide Apply, Holds, ExecutedOnce;
    if OfNode(step) {
      NodeStepFrame(s, step);
    } else if OfNetwork(step) {
      OtherStepFrame(s, step);
    } else if step.HubRestart? {
      RestartStrikes(s, row);
    } else if step.Insert? {
      InsertServes(s, step.caller, row);
    } else if step.Execute? {
      ExecuteServes(s, step.caller, row);
    } else {
      OtherStepFrame(s, step);
      CallerFrame(s, step);
      NotStoredBefore(s, step);
      NotStoredAfter(s, step);
      HoldsUpdated(s.callers, step.caller, CallerAfter(s, step), row);
    }
  }

  lemma {:induction false} UnservedIffStruck(callers: nat, steps: seq<Step>, row: Row)
    requires Execution(callers, steps).Some?
    ensures Unserved(Execution(callers, steps).value, row) <==> Struck(callers, steps, row)
  {
    hide Apply, Enabled, Struck, Unserved;
    if steps == [] {
      assert !Struck(callers, [], row) by { NothingStruckYet(callers, row); }
      assert !Unserved(Start(callers), row) by { NothingStoredYet(callers, row); }
    } else {
      var init, step := steps[..|steps| - 1], steps[|steps| - 1];
      var s := Execution(callers, init).value;
      UnservedIffStruck(callers, init, row);
      Reachable(callers, init);
      StepStrikes(s, step, row);
      StruckSnoc(callers, init, step, row);
      assert steps == init + [step];
    }
  }

  lemma NothingStruckYet(callers: nat, row: Row)
    ensures !Struck(callers, [], row)
  {}

  lemma NothingStoredYet(callers: nat, row: Row)
    ensures !Unserved(Start(callers), row)
  {}

  /**
  The fate of a stored row, for any number of callers and restarts: it was executed, a caller is still about to
  execute it, or a restart struck that caller; never two of these at once.
  */
  lemma StoredRowFate(callers: nat, steps: seq<Step>, s: System, row: Row)
    requires Reached(s, callers, steps)
    ensures row in s.rows <==> row in s.calls || Holds(s.callers, row) || Struck(callers, steps, row)
    ensures !(row in s.calls && Holds(s.callers, row))
    ensures !(row in s.calls && Struck(callers, steps, row))
    ensures !(Holds(s.callers, row) && Struck(callers, steps, row))
  {
    Reachable(callers, steps);
    UnservedIffStruck(callers, steps, row);
    hide Struck, Holds, Execution;
    if Holds(s.callers, row) { HeldIsStored(s, row); }
  }

  /** A confirmed event is unexecuted exactly while a caller holds its row, and for good once a restart struck it. */
  lemma ConfirmedUnexecutedIff(callers: nat, steps: seq<Step>, s: System, n: nat)
    requires Reached(s, callers, steps) && DistinctIds(s.triggers) && n in s.delivered
    ensures n < |s.triggers|
    ensures RowOf(s.triggers[n]) !in s.calls <==>
      Holds(s.callers, RowOf(s.triggers[n])) || Struck(callers, steps, RowOf(s.triggers[n]))
  {
    Reachable(callers, steps);
    var row := RowOf(s.triggers[n]);
    var i :| 0 <= i < |s.rows| && s.rows[i].key == row.key;
    assert Created(s.triggers, s.rows[i]);
    CreatedOnce(s.triggers, s.rows[i], n);
    StoredRowFate(callers, steps, s, row);
  }

  // ---- The order of the table ------------------------------------------------------------

  /** Rows of confirmed events stand before those of all events their node created later. */
  ghost predicate RowsInOrder(s: System) {
    DistinctIds(s.triggers) ==> ConfirmedFirst(s.delivered, s.triggers, s.rows)
  }

  lemma TakeKeepsRowOrder(s: System, step: Step)
    requires NothingForged(s) && RowsInOrder(s) && Enabled(s, step) && step.Take?
    ensures RowsInOrder(Apply(s, step))
  {
    var s' := Apply(s, step);
    NodeStepFrame(s, step);
    StepTriggers(s, step);
    hide Apply, NothingForged, Enabled, NewTrigger;
    var created := NewTrigger(s, step);
    if created.Some? && DistinctIds(s'.triggers) {
      DistinctSnoc(s.triggers, created.value);
      forall q | 0 <= q < |s.rows| ensures s.rows[q].key != RowOf(created.value).key {
        RowsAreCreated(s, q);
      }
    }
  }

  lemma RowsAreCreated(s: System, q: nat)
    requires NothingForged(s) && q < |s.rows|
    ensures exists n :: 0 <= n < |s.triggers| && RowOf(s.triggers[n]) == s.rows[q]
  {
    assert Created(s.triggers, s.rows[q]);
  }

  lemma InsertKeepsRowOrder(s: System, step: Step)
    requires NothingForged(s) && RowsInOrder(s) && Enabled(s, step) && step.Insert?
    ensures RowsInOrder(Apply(s, step))
  {
    OtherStepFrame(s, step);
    hide NodeApply, CallerAfter, ConfirmedFirst, DeliveredIn, DistinctIds, NetworkVouched, CallersVouched, RowsVouched;
    if DistinctIds(s.triggers) {
      AppendKeepsOrder(s.delivered, s.triggers, s.rows, s.callers[step.caller].row);
    }
  }

  lemma HearKeepsRowOrder(s: System, step: Step)
    requires RowsInOrder(s) && SendersSound(s.nodes, s.triggers, s.sends) && Enabled(s, step) && step.Hear?
    ensures RowsInOrder(Apply(s, step))
  {
    assert SenderSound(step.device, s.nodes[step.device], s.triggers, s.sends);
    NodeStepFrame(s, step);
  }

  lemma RowOrderKept(s: System, step: Step)
    requires Inv(s) && RowsInOrder(s) && Enabled(s, step)
    ensures RowsInOrder(Apply(s, step))
  {
    hide Apply, Enabled, ConfirmedFirst, DistinctIds, SendersSound, NothingForged, ExecutedOnce, IdsFresh,
      AbsentStaysAbsent, Serial, InOrder;
    if step.Take? {
      TakeKeepsRowOrder(s, step);
    } else if step.Insert? {
      InsertKeepsRowOrder(s, step);
    } else if step.Hear? {
      HearKeepsRowOrder(s, step);
    } else if OfNode(step) {
      NodeStepFrame(s, step);
    } else {
      OtherStepFrame(s, step);
    }
  }

  lemma {:induction false} RowOrderReached(callers: nat, steps: seq<Step>)
    requires Execution(callers, steps).Some?
    ensures RowsInOrder(Execution(callers, steps).value)
  {
    if steps != [] {
      hide Apply, Enabled, RowsInOrder, Inv;
      RowOrderReached(callers, steps[..|steps| - 1]);
      Reachable(callers, steps[..|steps| - 1]);
      RowOrderKept(Execution(callers, steps[..|steps| - 1]).value, steps[|steps| - 1]);
    }
  }

  /** Event n has row p alone, and the rows of the later events of its node all follow. */
  ghost predicate RowLeads(s: System, n: nat, p: int)
    requires n < |s.triggers|
  {
    && 0 <= p < |s.rows| && s.rows[p] == RowOf(s.triggers[n])
    && (forall q :: 0 <= q < |s.rows| && s.rows[q].key == s.rows[p].key ==> q == p)
    && (forall m, q | n < m < |s.triggers| && 0 <= q < |s.rows| ::
          s.triggers[m].device == s.triggers[n].device && s.rows[q] == RowOf(s.triggers[m]) ==> p < q)
  }

  /** For any number of callers and restarts: a confirmed event is stored once, with its own action, and before every
      event its node created later. */
  lemma ConfirmedIsStoredFirst(callers: nat, steps: seq<Step>, s: System, n: nat) returns (p: nat)
    requires Reached(s, callers, steps) && DistinctIds(s.triggers) && n in s.delivered
    ensures n < |s.triggers| && RowLeads(s, n, p)
  {
    Reachable(callers, steps);
    RowOrderReached(callers, steps);
    var key := RowOf(s.triggers[n]).key;
    assert HasKey(s.rows, key);
    p :| 0 <= p < |s.rows| && s.rows[p].key == key;
    assert Created(s.triggers, s.rows[p]);
    CreatedOnce(s.triggers, s.rows[p], n);
    forall m, q | n < m < |s.triggers| && s.triggers[m].device == s.triggers[n].device
           && 0 <= q < |s.rows| && s.rows[q] == RowOf(s.triggers[m])
      ensures p < q
    {
      assert s.rows[q].key == RowOf(s.triggers[m]).key;
      assert CalledBefore(s.rows, key, q);
      var p' :| 0 <= p' < q && p' < |s.rows| && s.rows[p'].key == key;
      assert p' == p;
    }
  }

  // ---- Event ids ------------------------------------------------------------------------

  /** The sequence was handed out to the device under the boot id. */
  ghost predicate HandedOut(triggers: seq<Trigger>, d: DeviceId, boot: u64, sequence: u64) {
    exists n :: 0 <= n < |triggers|
                && triggers[n].device == d && triggers[n].boot == boot && triggers[n].sequence == sequence
  }

  ghost predicate AllBelow(triggers: seq<Trigger>, d: DeviceId, boot: u64, limit: u64) {
    forall q: u64 :: 1 <= q < limit ==> HandedOut(triggers, d, boot, q)
  }

  /** Under one device and boot id the sequences handed out have no gaps. */
  ghost predicate NoGaps(nodes: map<DeviceId, Node>, triggers: seq<Trigger>) {
    && (forall n :: 0 <= n < |triggers| ==>
          triggers[n].sequence >= 1 && AllBelow(triggers, triggers[n].device, triggers[n].boot, triggers[n].sequence))
    && (forall d :: d in nodes ==>
          nodes[d].nextSequence >= 1 && AllBelow(triggers, d, nodes[d].boot, nodes[d].nextSequence))
  }

  lemma AllBelowGrows(triggers: seq<Trigger>, t: Trigger, d: DeviceId, boot: u64, limit: u64)
    requires AllBelow(triggers, d, boot, limit)
    ensures AllBelow(triggers + [t], d, boot, limit)
  {
    forall q: u64 | 1 <= q < limit ensures HandedOut(triggers + [t], d, boot, q) {
      assert HandedOut(triggers, d, boot, q);
      var n :| 0 <= n < |triggers|
               && triggers[n].device == d && triggers[n].boot == boot && triggers[n].sequence == q;
      assert (triggers + [t])[n] == triggers[n];
    }
  }

  /** A new event takes the node's next sequence, and the counter moves past it. */
  lemma TriggerKeepsNoGaps(nodes: map<DeviceId, Node>, triggers: seq<Trigger>, t: Trigger, node: Node)
    requires NoGaps(nodes, triggers) && t.device in nodes
    requires t.boot == nodes[t.device].boot == node.boot && t.sequence == nodes[t.device].nextSequence
    requires node.nextSequence == t.sequence + 1
    ensures NoGaps(nodes[t.device := node], triggers + [t])
  {
    hide AllBelow;
    var grown := triggers + [t];
    forall n | 0 <= n < |grown|
      ensures grown[n].sequence >= 1 && AllBelow(grown, grown[n].device, grown[n].boot, grown[n].sequence)
    {
      AllBelowGrows(triggers, t, grown[n].device, grown[n].boot, grown[n].sequence);
    }
    forall d | d in nodes && d != t.device ensures AllBelow(grown, d, nodes[d].boot, nodes[d].nextSequence) {
      AllBelowGrows(triggers, t, d, nodes[d].boot, nodes[d].nextSequence);
    }
    AllBelowGrows(triggers, t, t.device, t.boot, t.sequence);
    NextBelow(triggers, t);
  }

  lemma NextBelow(triggers: seq<Trigger>, t: Trigger)
    requires AllBelow(triggers + [t], t.device, t.boot, t.sequence) && t.sequence + 1 < U64_LIMIT
    ensures AllBelow(triggers + [t], t.device, t.boot, t.sequence + 1)
  {
    assert (triggers + [t])[|triggers|] == t;
    assert HandedOut(triggers + [t], t.device, t.boot, t.sequence);
  }

  lemma TakeKeepsNoGaps(s: System, step: Step)
    requires NoGaps(s.nodes, s.triggers) && Enabled(s, step) && step.Take?
    ensures var s' := Apply(s, step); NoGaps(s'.nodes, s'.triggers)
  {
    hide NoGaps, HubApply, EventMessage, RowOf;
    var created := NewTrigger(s, step);
    if created.Some? {
      TriggerKeepsNoGaps(s.nodes, s.triggers, created.value, NodeAfter(s, step));
    } else {
      NodeKeepsNoGaps(s.nodes, s.triggers, step.device, NodeAfter(s, step));
    }
  }

  lemma NodeKeepsNoGaps(nodes: map<DeviceId, Node>, triggers: seq<Trigger>, d: DeviceId, node: Node)
    requires NoGaps(nodes, triggers)
    requires if d in nodes && node.boot == nodes[d].boot then node.nextSequence in {1, nodes[d].nextSequence}
             else node.nextSequence == 1
    ensures NoGaps(nodes[d := node], triggers)
  {}

  lemma NoGapsKept(s: System, step: Step)
    requires NoGaps(s.nodes, s.triggers) && Enabled(s, step)
    ensures var s' := Apply(s, step); NoGaps(s'.nodes, s'.triggers)
  {
    hide Apply, NoGaps;
    if !OfNode(step) {
      OtherStepFrame(s, step);
    } else if step.Take? {
      TakeKeepsNoGaps(s, step);
    } else {
      NodeStepFrame(s, step);
      if !step.Reboot? { NodeStepKeepsBoot(s, step); }
      NodeKeepsNoGaps(s.nodes, s.triggers, step.device, NodeAfter(s, step));
    }
  }

  lemma {:induction false} NoGapsReached(callers: nat, steps: seq<Step>)
    requires Execution(callers, steps).Some?
    ensures var s := Execution(callers, steps).value; NoGaps(s.nodes, s.triggers)
  {
    if steps != [] {
      hide Apply, Enabled, NoGaps;
      NoGapsReached(callers, steps[..|steps| - 1]);
      NoGapsKept(Execution(callers, steps[..|steps| - 1]).value, steps[|steps| - 1]);
    }
  }

  /** The node's next sequence is no longer fresh under its boot id. */
  ghost predicate Overtaken(s: System, d: DeviceId)
    requires d in s.nodes
  {
    exists n :: 0 <= n < |s.triggers|
                && s.triggers[n].device == d && s.triggers[n].boot == s.nodes[d].boot
                && s.triggers[n].sequence >= s.nodes[d].nextSequence
  }

  /** A new event id clashes with an earlier one exactly when some event under the same boot id got as far. */
  lemma ClashIffOvertaken(callers: nat, steps: seq<Step>, s: System, d: DeviceId)
    requires Reached(s, callers, steps) && d in s.nodes
    ensures (exists n :: 0 <= n < |s.triggers|
                         && RowOf(s.triggers[n]).key == Key(d, EventId(s.nodes[d].boot, s.nodes[d].nextSequence)))
            <==> Overtaken(s, d)
  {
    hide EventId;
    NoGapsReached(callers, steps);
    var boot, next := s.nodes[d].boot, s.nodes[d].nextSequence;
    forall n | 0 <= n < |s.triggers| && RowOf(s.triggers[n]).key == Key(d, EventId(boot, next))
      ensures s.triggers[n].boot == boot && s.triggers[n].sequence == next
    {
      EventIdInjective(s.triggers[n].boot, s.triggers[n].sequence, boot, next);
    }
    if Overtaken(s, d) {
      var n :| 0 <= n < |s.triggers| && s.triggers[n].device == d && s.triggers[n].boot == boot
               && s.triggers[n].sequence >= next;
      assert AllBelow(s.triggers, d, boot, s.triggers[n].sequence);
      assert HandedOut(s.triggers, d, boot, next);
      var m :| 0 <= m < |s.triggers| && s.triggers[m].device == d && s.triggers[m].boot == boot
               && s.triggers[m].sequence == next;
      assert RowOf(s.triggers[m]).key == Key(d, EventId(boot, next));
    }
  }

  /** Step k created an event for a node whose next sequence was overtaken. */
  ghost predicate ClashAt(callers: nat, steps: seq<Step>, k: nat) {
    && k < |steps| && Execution(callers, steps[..k]).Some?
    && var s := Execution(callers, steps[..k]).value;
       Enabled(s, steps[k]) && NewTrigger(s, steps[k]).Some? && Overtaken(s, steps[k].device)
  }

  lemma DistinctSnoc(triggers: seq<Trigger>, t: Trigger)
    ensures DistinctIds(triggers + [t]) <==>
      DistinctIds(triggers) && forall n :: 0 <= n < |triggers| ==> RowOf(triggers[n]).key != RowOf(t).key
  {
    var all := triggers + [t];
    assert forall n :: 0 <= n < |triggers| ==> all[n] == triggers[n];
    assert all[|triggers|] == t;
    if DistinctIds(all) {
      forall n | 0 <= n < |triggers| ensures RowOf(triggers[n]).key != RowOf(t).key {
        assert RowOf(all[n]).key != RowOf(all[|triggers|]).key;
      }
    }
  }

  lemma StepTriggers(s: System, step: Step)
    requires Enabled(s, step)
    ensures Apply(s, step).triggers ==
      if NewTrigger(s, step).Some? then s.triggers + [NewTrigger(s, step).value] else s.triggers
  {
    hide NodeAfter, HubApply, RowOf, EventMessage, NextSequence;
    if !OfNode(step) { OtherStepFrame(s, step); }
  }

  /** Whether an event id of the run repeats is decided at each creation, by a test on the node before it. */
  lemma {:induction false} IdsDistinctIff(callers: nat, steps: seq<Step>)
    requires Execution(callers, steps).Some?
    ensures DistinctIds(Execution(callers, steps).value.triggers) <==> forall k: nat :: !ClashAt(callers, steps, k)
  {
    hide Apply, Enabled, Overtaken, DistinctIds;
    if steps == [] {
      assert DistinctIds([]) by { NoIdsYet(); }
    } else {
      var init, step := steps[..|steps| - 1], steps[|steps| - 1];
      var s := Execution(callers, init).value;
      IdsDistinctIff(callers, init);
      StepTriggers(s, step);
      forall k: nat | k < |init| ensures ClashAt(callers, steps, k) <==> ClashAt(callers, init, k) {
        assert steps[..k] == init[..k] && steps[k] == init[k];
      }
      assert steps[..|init|] == init;
      if NewTrigger(s, step).Some? {
        var t := NewTrigger(s, step).value;
        TakenSequence(s, step);
        DistinctSnoc(s.triggers, t);
        ClashIffOvertaken(callers, init, s, step.device);
      }
      assert ClashAt(callers, steps, |init|) <==> NewTrigger(s, step).Some? && Overtaken(s, step.device);
    }
  }

  lemma NoIdsYet()
    ensures DistinctIds([])
  {}

  lemma TakenSequence(s: System, step: Step)
    requires Enabled(s, step) && NewTrigger(s, step).Some?
    ensures step.Take? && step.device in s.nodes
    ensures RowOf(NewTrigger(s, step).value).key
         == Key(step.device, EventId(s.nodes[step.device].boot, s.nodes[step.device].nextSequence))
  {
    hide EventId;
  }

  // ---- From the press to the event -----------------------------------------------------

  /** The presses of a device since its last boot. */
  function Pressed(steps: seq<Step>, d: DeviceId): seq<ActionId> {
    if steps == [] then []
    else
      var before := Pressed(steps[..|steps| - 1], d);
      match steps[|steps| - 1]
      case Reboot(e, _, _) => if e == d then [] else before
      case Press(e, a) => if e == d then before + [a] else before
      case _ => before
  }

  /** The actions of the events of a device, in the order of their creation. */
  function ActionsOf(triggers: seq<Trigger>, d: DeviceId): seq<ActionId> {
    if triggers == [] then []
    else
      var last := triggers[|triggers| - 1];
      ActionsOf(triggers[..|triggers| - 1], d) + if last.device == d then [last.action] else []
  }

  lemma ActionsSnoc(triggers: seq<Trigger>, t: Trigger, d: DeviceId)
    ensures ActionsOf(triggers + [t], d) ==
      if t.device == d then ActionsOf(triggers, d) + [t.action] else ActionsOf(triggers, d)
  {
    assert (triggers + [t])[..|triggers|] == triggers;
  }

  /** Of the presses since the boot, the first became events, the last still wait in the channel, and between
      them some were dropped only once the ids were used up. */
  ghost predicate InPressOrder(pressed: seq<ActionId>, actions: seq<ActionId>, node: Node) {
    && 1 <= node.nextSequence <= |actions| + 1
    && var created := actions[|actions| - (node.nextSequence - 1)..];
       && |created| + |node.channel| <= |pressed|
       && created <= pressed
       && node.channel == pressed[|pressed| - |node.channel|..]
       && (node.nextSequence < U64_LIMIT - 1 ==> pressed == created + node.channel)
  }

  lemma TakeKeepsPressOrder(s: System, step: Step, pressed: seq<ActionId>)
    requires Enabled(s, step) && step.Take?
    requires InPressOrder(pressed, ActionsOf(s.triggers, step.device), s.nodes[step.device])
    ensures InPressOrder(pressed, ActionsOf(Apply(s, step).triggers, step.device), NodeAfter(s, step))
  {
    var d := step.device;
    var node, all := s.nodes[d], ActionsOf(s.triggers, d);
    StepTriggers(s, step);
    hide Apply, InPressOrder;
    if NewTrigger(s, step).Some? {
      var t := NewTrigger(s, step).value;
      ActionsSnoc(s.triggers, t, d);
      CreatedNext(pressed, all, node, NodeAfter(s, step));
    } else {
      DroppedNext(pressed, all, node, NodeAfter(s, step));
    }
  }

  lemma CreatedNext(pressed: seq<ActionId>, actions: seq<ActionId>, node: Node, next: Node)
    requires InPressOrder(pressed, actions, node) && node.channel != [] && node.nextSequence < U64_LIMIT - 1
    requires next.channel == node.channel[1..] && next.nextSequence == node.nextSequence + 1
    ensures InPressOrder(pressed, actions + [node.channel[0]], next)
  {
    var created := actions[|actions| - (node.nextSequence - 1)..];
    var all := actions + [node.channel[0]];
    assert all[|all| - (next.nextSequence - 1)..] == created + [node.channel[0]];
    assert node.channel == [node.channel[0]] + next.channel;
    assert pressed == created + [node.channel[0]] + next.channel;
  }

  lemma DroppedNext(pressed: seq<ActionId>, actions: seq<ActionId>, node: Node, next: Node)
    requires InPressOrder(pressed, actions, node) && node.channel != [] && node.nextSequence == U64_LIMIT - 1
    requires next.channel == node.channel[1..] && next.nextSequence == node.nextSequence
    ensures InPressOrder(pressed, actions, next)
  {}

  /** A node step of the device other than taking. */
  lemma NodeKeepsPressOrder(s: System, step: Step, pressed: seq<ActionId>, actions: seq<ActionId>)
    requires OfNode(step) && !step.Take? && Enabled(s, step)
    requires step.device in s.nodes ==> InPressOrder(pressed, actions, s.nodes[step.device])
    ensures InPressOrder(if step.Reboot? then [] else if step.Press? then pressed + [step.action] else pressed,
                         actions, NodeAfter(s, step))
  {
    hide RowOf, EventMessage, AckMatches;
  }

  /**
  Since its last boot a device's events carry its presses in order, without gaps, from the first one on; what is
  not an event yet waits in the channel, and nothing is lost before the ids are used up.
  */
  lemma {:induction false} EventsFollowPresses(callers: nat, steps: seq<Step>, d: DeviceId)
    requires Execution(callers, steps).Some? && d in Execution(callers, steps).value.nodes
    ensures var s := Execution(callers, steps).value;
      InPressOrder(Pressed(steps, d), ActionsOf(s.triggers, d), s.nodes[d])
  {
    hide Apply, Enabled, InPressOrder, ActionsOf, NodeAfter;
    if steps != [] {
      var init, step := steps[..|steps| - 1], steps[|steps| - 1];
      var s := Execution(callers, init).value;
      if d in s.nodes {
        EventsFollowPresses(callers, init, d);
      }
      StepTriggers(s, step);
      if !OfNode(step) {
        OtherStepFrame(s, step);
      } else {
        NodeStepFrame(s, step);
        if step.device != d {
          if NewTrigger(s, step).Some? {
            TakenSequence(s, step);
            ActionsSnoc(s.triggers, NewTrigger(s, step).value, d);
            assert NewTrigger(s, step).value.device == step.device;
          }
        } else if step.Take? {
          EnabledNode(s, step);
          TakeKeepsPressOrder(s, step, Pressed(init, d));
        } else {
          NodeKeepsPressOrder(s, step, Pressed(init, d), ActionsOf(s.triggers, d));
        }
      }
    }
  }

  lemma EnabledNode(s: System, step: Step)
    requires Enabled(s, step) && step.Take?
    ensures step.device in s.nodes
  {}
}
