/** What holds of every run of the delivery system, and where it stops holding. */
module DeliveryTheorems {
  import opened Wrappers
  import opened Messages
  import opened EventIds
  import opened Delivery
  import opened DeliveryProofs

  /** A state some run of the system reaches. */
  ghost predicate Reached(s: System, callers: nat, steps: seq<Step>) {
    Execution(callers, steps) == Some(s)
  }

  /** An event's action is executed at most once, and every execution is of a created event. */
  lemma AtMostOneExecution(callers: nat, steps: seq<Step>, s: System, n: nat)
    requires Reached(s, callers, steps) && n < |s.triggers|
    ensures forall i, j | 0 <= i < |s.calls| && 0 <= j < |s.calls| ::
      s.calls[i].key == s.calls[j].key == RowOf(s.triggers[n]).key ==> i == j
    ensures forall i :: 0 <= i < |s.calls| ==> Created(s.triggers, s.calls[i])
    ensures DistinctIds(s.triggers) ==> forall i :: 0 <= i < |s.calls| && s.calls[i].key == RowOf(s.triggers[n]).key ==>
      s.calls[i] == RowOf(s.triggers[n])
  {
    Reachable(callers, steps);
    forall i | 0 <= i < |s.calls| ensures Created(s.triggers, s.calls[i]) {
      assert s.calls[i] in s.calls;
      var k :| 0 <= k < |s.rows| && s.rows[k] == s.calls[i];
      assert Created(s.triggers, s.rows[k]);
    }
    if DistinctIds(s.triggers) {
      forall i | 0 <= i < |s.calls| && s.calls[i].key == RowOf(s.triggers[n]).key
        ensures s.calls[i] == RowOf(s.triggers[n])
      {
        CreatedOnce(s.triggers, s.calls[i], n);
      }
    }
  }

  lemma CreatedOnce(triggers: seq<Trigger>, row: Row, n: nat)
    requires DistinctIds(triggers) && Created(triggers, row)
    requires n < |triggers| && RowOf(triggers[n]).key == row.key
    ensures RowOf(triggers[n]) == row
  {
    var m :| 0 <= m < |triggers| && RowOf(triggers[m]) == row;
    assert m == n;
  }

  /** Boot ids that are never reused keep all event ids apart. */
  lemma FreshBootsKeepIdsApart(callers: nat, steps: seq<Step>, s: System)
    requires Reached(s, callers, steps) && !s.bootReused
    ensures DistinctIds(s.triggers)
  {
    Reachable(callers, steps);
  }

  /** What a caller takes for a duplicate is the stored row of the very same event. */
  lemma DuplicatesAreTheSameEvent(callers: nat, steps: seq<Step>, s: System, c: nat)
    requires Reached(s, callers, steps) && DistinctIds(s.triggers)
    requires c < |s.callers| && (s.callers[c].Received? || s.callers[c].Validated?)
    requires HasKey(s.rows, s.callers[c].row.key)
    ensures s.callers[c].row in s.rows
  {
    Reachable(callers, steps);
    var row := s.callers[c].row;
    assert CallerVouched(s.callers[c], s.triggers, s.rows);
    var n :| 0 <= n < |s.triggers| && RowOf(s.triggers[n]) == row;
    var i :| 0 <= i < |s.rows| && s.rows[i].key == row.key;
    assert Created(s.triggers, s.rows[i]);
    CreatedOnce(s.triggers, s.rows[i], n);
  }

  /** An ACK on the network, or about to be sent, answers a stored row. */
  lemma AcksAnswerStoredRows(callers: nat, steps: seq<Step>, s: System, device: DeviceId, eventId: string)
    requires Reached(s, callers, steps)
    requires Ack(device, eventId) in s.network || Answering(Key(device, eventId)) in s.callers
    ensures HasKey(s.rows, Key(device, eventId))
  {
    Reachable(callers, steps);
    if Ack(device, eventId) in s.network {
      assert Vouched(Ack(device, eventId), s.triggers, s.rows);
    } else {
      var c :| 0 <= c < |s.callers| && s.callers[c] == Answering(Key(device, eventId));
      assert CallerVouched(s.callers[c], s.triggers, s.rows);
    }
  }

  lemma StepOnlyAppendsRows(s: System, step: Step)
    requires Enabled(s, step)
    ensures s.rows <= Apply(s, step).rows
  {
    hide NodeApply, CallerAfter, HasKey;
    if OfNode(step) { NodeStepFrame(s, step); }
  }

  /** The event table only ever grows: the first row of a key is the row of that key for good. */
  lemma {:induction false} StoredRowsNeverChange(callers: nat, steps: seq<Step>, k: nat)
    requires Execution(callers, steps).Some? && k <= |steps|
    ensures Execution(callers, steps[..k]).Some?
    ensures Execution(callers, steps[..k]).value.rows <= Execution(callers, steps).value.rows
    ensures DistinctKeys(Execution(callers, steps).value.rows)
    decreases |steps|
  {
    Reachable(callers, steps);
    if k == |steps| {
      assert steps[..k] == steps;
    } else {
      hide Apply, Enabled;
      var init := steps[..|steps| - 1];
      StoredRowsNeverChange(callers, init, k);
      assert init[..k] == steps[..k];
      StepOnlyAppendsRows(Execution(callers, init).value, steps[|steps| - 1]);
    }
  }

  /** With a single caller an insert never finds the key already there. */
  lemma SingleCallerInsertSucceeds(steps: seq<Step>, s: System)
    requires Reached(s, 1, steps) && Enabled(s, Insert(0))
    ensures !HasKey(s.rows, s.callers[0].row.key)
    ensures Apply(s, Insert(0)).callers[0] == Stored(s.callers[0].row)
  {
    Reachable(1, steps);
    CallersConstant(1, steps);
  }

  lemma StepKeepsCallers(s: System, step: Step)
    requires Enabled(s, step)
    ensures |Apply(s, step).callers| == |s.callers|
    ensures s.hubRestarted ==> Apply(s, step).hubRestarted
  {
    hide Apply;
    if OfNode(step) {
      NodeStepFrame(s, step);
    } else {
      OtherStepFrame(s, step);
      if step.HubRestart? { RestartMarks(s); }
    }
  }

  lemma {:induction false} CallersConstant(callers: nat, steps: seq<Step>)
    requires Execution(callers, steps).Some?
    ensures |Execution(callers, steps).value.callers| == callers
  {
    if steps != [] {
      hide Apply, Enabled;
      CallersConstant(callers, steps[..|steps| - 1]);
      StepKeepsCallers(Execution(callers, steps[..|steps| - 1]).value, steps[|steps| - 1]);
    }
  }

  /** Every event is sent at most once more than its retry count. */
  lemma SendsBounded(callers: nat, steps: seq<Step>, s: System, n: nat)
    requires Reached(s, callers, steps) && n < |s.triggers|
    ensures |s.sends| == |s.triggers| && s.sends[n] <= s.triggers[n].retryCount + 1
  {
    Reachable(callers, steps);
  }

  // ---- Confirmed means executed, for one caller that never restarted ------------

  ghost predicate ConfirmedExecuted(s: System) {
    DeliveredIn(s.delivered, s.triggers, s.calls)
  }

  lemma SingleCallerConfirms(steps: seq<Step>, s: System)
    requires Reached(s, 1, steps) && !s.hubRestarted
    ensures ConfirmedExecuted(s)
  {
    Reachable(1, steps);
    CallersConstant(1, steps);
  }

  /** Event n was executed at position p only, and the later events of its node only after it. */
  ghost predicate ExecutedFirst(s: System, n: nat, p: int)
    requires n < |s.triggers|
  {
    && 0 <= p < |s.calls| && s.calls[p] == RowOf(s.triggers[n])
    && (forall q :: 0 <= q < |s.calls| && s.calls[q].key == s.calls[p].key ==> q == p)
    && (forall m, q | n < m < |s.triggers| && 0 <= q < |s.calls| ::
          s.triggers[m].device == s.triggers[n].device && s.calls[q] == RowOf(s.triggers[m]) ==> p < q)
  }

  /**
  One caller, no restart, distinct event ids: a confirmed event was executed exactly
  once, with its own action, and before every event its node created later.
  */
  lemma ConfirmedEventExecutesFirst(steps: seq<Step>, s: System, n: nat)
    requires Reached(s, 1, steps) && !s.hubRestarted && DistinctIds(s.triggers) && n in s.delivered
    ensures n < |s.triggers| && RowOf(s.triggers[n]) in s.rows
    ensures exists p :: ExecutedFirst(s, n, p)
  {
    Reachable(1, steps);
    CallersConstant(1, steps);
    var key := RowOf(s.triggers[n]).key;
    assert HasKey(s.calls, key);
    var p :| 0 <= p < |s.calls| && s.calls[p].key == key;
    AtMostOneExecution(1, steps, s, n);
    assert s.calls[p] == RowOf(s.triggers[n]) && s.calls[p] in s.calls;
    forall m, q | n < m < |s.triggers| && s.triggers[m].device == s.triggers[n].device
           && 0 <= q < |s.calls| && s.calls[q] == RowOf(s.triggers[m])
      ensures p < q
    {
      assert s.calls[q].key == RowOf(s.triggers[m]).key;
      assert CalledBefore(s.calls, key, q);
      var p' :| 0 <= p' < q && p' < |s.calls| && s.calls[p'].key == key;
      assert p' == p;
    }
    assert ExecutedFirst(s, n, p);
  }

  // ---- Where it fails ------------------------------------------------------------

  lemma Continue(callers: nat, steps: seq<Step>, s: System, step: Step) returns (steps': seq<Step>, s': System)
    requires Reached(s, callers, steps) && Enabled(s, step)
    ensures s' == Apply(s, step) && Reached(s', callers, steps')
  {
    steps', s' := steps + [step], Apply(s, step);
    assert (steps + [step])[..|steps|] == steps;
  }

  const EXAMPLE: Trigger := Trigger("n", 7, 1, 42, 3)

  function ExampleMessage(): UdpMessage { EventMessage(RowOf(EXAMPLE)) }

  /** A node that created one event and sent it twice; both copies are under way. */
  function SentTwice(callers: nat): System {
    Start(callers).(nodes := map["n" := Node(7, 2, 3, true, [], Waiting(0, 2))],
                    network := multiset{ExampleMessage(), ExampleMessage()},
                    triggers := [EXAMPLE], sends := [2], boots := {("n", 7)})
  }

  lemma ReachPressed(callers: nat) returns (steps: seq<Step>, s: System)
    ensures Reached(s, callers, steps)
    ensures s == Start(callers).(nodes := map["n" := Node(7, 1, 3, true, [42], Idle)], boots := {("n", 7)})
  {
    steps, s := Continue(callers, [], Start(callers), Reboot("n", 7, 3));
    steps, s := Continue(callers, steps, s, Discover("n"));
    steps, s := Continue(callers, steps, s, Press("n", 42));
    assert s.nodes["n"].channel == [] + [42] == [42];
    assert s.nodes == map["n" := Node(7, 1, 3, true, [42], Idle)];
  }

  lemma ReachTaken(callers: nat) returns (steps: seq<Step>, s: System)
    ensures Reached(s, callers, steps)
    ensures s == Start(callers).(nodes := map["n" := Node(7, 2, 3, true, [], Ready(0, 0))],
                                 triggers := [EXAMPLE], sends := [0], boots := {("n", 7)})
  {
    hide EventId;
    steps, s := ReachPressed(callers);
    assert s.nodes["n"].channel[1..] == [];
    steps, s := Continue(callers, steps, s, Take("n"));
    assert s.nodes == map["n" := Node(7, 2, 3, true, [], Ready(0, 0))];
  }

  lemma ReachSentOnce(callers: nat) returns (steps: seq<Step>, s: System)
    ensures Reached(s, callers, steps)
    ensures s == Start(callers).(nodes := map["n" := Node(7, 2, 3, true, [], Ready(0, 1))],
                                 network := multiset{ExampleMessage()},
                                 triggers := [EXAMPLE], sends := [1], boots := {("n", 7)})
  {
    hide EventId, HubApply, Idling;
    steps, s := ReachTaken(callers);
    steps, s := Continue(callers, steps, s, Send("n"));
    steps, s := Continue(callers, steps, s, Timeout("n"));
    assert s.nodes == map["n" := Node(7, 2, 3, true, [], Ready(0, 1))];
  }

  lemma ReachSentTwice(callers: nat) returns (steps: seq<Step>)
    ensures Reached(SentTwice(callers), callers, steps)
  {
    hide EventId, HubApply, Idling;
    var s: System;
    steps, s := ReachSentOnce(callers);
    steps, s := Continue(callers, steps, s, Send("n"));
    assert s.sends == [2] && s == SentTwice(callers);
  }

  /** Caller 0 has stored the first copy and not executed it yet. */
  function StoredFirst(callers: nat): System
    requires callers >= 1
  {
    var s := SentTwice(callers);
    s.(network := multiset{ExampleMessage()}, rows := [RowOf(EXAMPLE)],
       callers := s.callers[0 := Stored(RowOf(EXAMPLE))])
  }

  /** A free caller receives a copy and looks its key up. */
  lemma CopyArrives(callers: nat, steps: seq<Step>, s: System, c: nat) returns (steps': seq<Step>, s': System)
    requires Reached(s, callers, steps) && c < |s.callers| && s.callers[c] == Free && ExampleMessage() in s.network
    ensures Reached(s', callers, steps')
    ensures s' == s.(network := s.network - multiset{ExampleMessage()},
                     callers := s.callers[c := if HasKey(s.rows, RowOf(EXAMPLE).key) then Answering(RowOf(EXAMPLE).key)
                                               else Unseen(RowOf(EXAMPLE))])
  {
    hide EventId, NodeApply, HasKey;
    steps', s' := Continue(callers, steps, s, Deliver(c, ExampleMessage()));
    assert s'.callers[c] == Received(RowOf(EXAMPLE));
    steps', s' := Continue(callers, steps', s', Lookup(c));
  }

  lemma ReachStoredFirst(callers: nat) returns (steps: seq<Step>)
    requires callers >= 1
    ensures Reached(StoredFirst(callers), callers, steps)
  {
    hide EventId, NodeApply, RowOf;
    steps := ReachSentTwice(callers);
    var s := SentTwice(callers);
    steps, s := CopyArrives(callers, steps, s, 0);
    steps, s := Continue(callers, steps, s, Validate(0));
    assert s.callers == SentTwice(callers).callers[0 := Validated(RowOf(EXAMPLE))];
    steps, s := Continue(callers, steps, s, Insert(0));
    assert s == StoredFirst(callers);
  }

  /** A free caller answers the second copy from the table, and the node takes that as confirmation. */
  lemma DuplicateConfirms(callers: nat, steps: seq<Step>, s: System, c: nat) returns (steps': seq<Step>, s': System)
    requires Reached(s, callers, steps) && c < |s.callers| && s.callers[c] == Free
    requires s.nodes == SentTwice(callers).nodes && s.triggers == [EXAMPLE]
    requires s.rows == [RowOf(EXAMPLE)] && s.network == multiset{ExampleMessage()} && s.calls == []
    ensures Reached(s', callers, steps') && 0 in s'.delivered && s'.calls == [] && s'.triggers == s.triggers
    ensures s'.hubRestarted == s.hubRestarted
  {
    hide EventId, NodeApply;
    assert HasKey(s.rows, RowOf(EXAMPLE).key) by { assert s.rows[0].key == RowOf(EXAMPLE).key; }
    steps', s' := CopyArrives(callers, steps, s, c);
    steps', s' := Continue(callers, steps', s', Answer(c));
    steps', s' := AckArrives(callers, steps', s');
  }

  lemma AckArrives(callers: nat, steps: seq<Step>, s: System) returns (steps': seq<Step>, s': System)
    requires Reached(s, callers, steps) && AckMessage(RowOf(EXAMPLE).key) in s.network
    requires s.nodes == SentTwice(callers).nodes && s.triggers == [EXAMPLE]
    ensures Reached(s', callers, steps') && 0 in s'.delivered
    ensures s'.calls == s.calls && s'.triggers == s.triggers && s'.hubRestarted == s.hubRestarted
  {
    hide EventId, HubApply;
    steps', s' := Continue(callers, steps, s, Hear("n", AckMessage(RowOf(EXAMPLE).key)));
  }

  ghost predicate AlwaysConfirmedExecuted(callers: nat) {
    forall steps :: Execution(callers, steps).Some? && !Execution(callers, steps).value.hubRestarted ==>
      ConfirmedExecuted(Execution(callers, steps).value)
  }

  /** Without restarts, confirmation implies execution exactly when the hub has a single caller. */
  lemma ConfirmedMeansExecutedIff(callers: nat)
    requires callers >= 1
    ensures AlwaysConfirmedExecuted(callers) <==> callers == 1
  {
    if callers == 1 {
      forall steps | Execution(1, steps).Some? && !Execution(1, steps).value.hubRestarted
        ensures ConfirmedExecuted(Execution(1, steps).value)
      {
        SingleCallerConfirms(steps, Execution(1, steps).value);
      }
    } else {
      var steps := ReachStoredFirst(callers);
      var steps', s' := DuplicateConfirms(callers, steps, StoredFirst(callers), 1);
      assert !ConfirmedExecuted(s');
      assert Execution(callers, steps') == Some(s');
    }
  }

  /** Even one caller: a restart between insert and execution loses the action but not the ACK. */
  lemma RestartCanLoseAnAction() returns (steps: seq<Step>, s: System)
    ensures Reached(s, 1, steps) && s.hubRestarted && 0 in s.delivered && s.calls == []
  {
    hide EventId;
    steps := ReachStoredFirst(1);
    s := StoredFirst(1);
    steps, s := Continue(1, steps, s, HubRestart);
    steps, s := DuplicateConfirms(1, steps, s, 0);
  }

  /** The single caller has executed and answered the example event. */
  lemma ReachAnswered() returns (steps: seq<Step>, s: System)
    ensures Reached(s, 1, steps) && s.triggers == [EXAMPLE] && s.sends == [2] && ("n", 7) in s.boots
    ensures s.rows == [RowOf(EXAMPLE)] && s.callers == [Free]
  {
    hide EventId;
    steps := ReachStoredFirst(1);
    s := StoredFirst(1);
    steps, s := Continue(1, steps, s, Execute(0));
    steps, s := Continue(1, steps, s, Answer(0));
    assert s.callers == [Free];
  }

  /** A rebooted node that draws its old boot id again has a fresh event answered as a duplicate. */
  lemma ReusedBootIdSuppresses() returns (steps: seq<Step>, s: System)
    ensures Reached(s, 1, steps) && s.bootReused && |s.triggers| == 2 && |s.callers| == 1
    ensures s.callers[0] == Answering(RowOf(s.triggers[1]).key) && RowOf(s.triggers[1]) !in s.rows
  {
    hide EventId;
    steps, s := ReachAnswered();
    steps, s := RebootAndSend(steps, s);
    assert HasKey(s.rows, RowOf(s.triggers[1]).key) by { assert s.rows[0].key == RowOf(EXAMPLE).key; }
    steps, s := Continue(1, steps, s, Deliver(0, EventMessage(RowOf(s.triggers[1]))));
    steps, s := Continue(1, steps, s, Lookup(0));
  }

  lemma RebootAndSend(steps: seq<Step>, s: System) returns (steps': seq<Step>, s': System)
    requires Reached(s, 1, steps) && s.triggers == [EXAMPLE] && s.sends == [2] && ("n", 7) in s.boots
    ensures Reached(s', 1, steps') && s'.bootReused
    ensures s'.triggers == [EXAMPLE, EXAMPLE.(action := 43)] && s'.rows == s.rows && s'.callers == s.callers
    ensures EventMessage(RowOf(s'.triggers[1])) in s'.network
  {
    hide EventId, HubApply;
    steps', s' := RebootAndPress(steps, s);
    steps', s' := Continue(1, steps', s', Take("n"));
    steps', s' := Continue(1, steps', s', Send("n"));
  }

  lemma RebootAndPress(steps: seq<Step>, s: System) returns (steps': seq<Step>, s': System)
    requires Reached(s, 1, steps) && ("n", 7) in s.boots
    ensures Reached(s', 1, steps') && s'.bootReused && "n" in s'.nodes
    ensures s'.nodes["n"] == Node(7, 1, 3, true, [43], Idle)
    ensures s'.triggers == s.triggers && s'.sends == s.sends && s'.rows == s.rows && s'.callers == s.callers
  {
    hide EventId, HubApply;
    steps', s' := Continue(1, steps, s, Reboot("n", 7, 3));
    steps', s' := Continue(1, steps', s', Discover("n"));
    steps', s' := Continue(1, steps', s', Press("n", 43));
  }
}
