/** The life of an event at its sender: its attempts, the wait for the ACK, and how it ends. */
module DeliverySenders {
  import opened Wrappers
  import opened Messages
  import opened EventIds
  import opened NodeUdp
  import opened Delivery
  import opened DeliveryProofs
  import opened DeliveryTheorems
  import opened DeliveryFates

  /** The event's own node is still busy with it. */
  predicate Sending(s: System, n: nat)
    requires n < |s.triggers|
  {
    var d := s.triggers[n].device;
    d in s.nodes && !s.nodes[d].sender.Idle? && s.nodes[d].sender.trigger == n
  }

  /** No other node ever works on an event. */
  lemma OnlyItsNodeSends(s: System, d: DeviceId)
    requires SendersSound(s.nodes, s.triggers, s.sends) && d in s.nodes && !s.nodes[d].sender.Idle?
    ensures s.nodes[d].sender.trigger < |s.triggers| && s.triggers[s.nodes[d].sender.trigger].device == d
    ensures Sending(s, s.nodes[d].sender.trigger)
  {
    assert SenderSound(d, s.nodes[d], s.triggers, s.sends);
  }

  /** The node gives the event up, or loses it to a reboot. */
  predicate Ends(s: System, step: Step, n: nat)
    requires n < |s.triggers|
  {
    Sending(s, n) && (step.Abandon? || step.Reboot?) && step.device == s.triggers[n].device
  }

  /** The matching ACK reaches the node that waits for it. */
  predicate Arrives(s: System, step: Step, n: nat)
    requires n < |s.triggers| && Enabled(s, step)
  {
    Sending(s, n) && Confirms(s, step) && step.device == s.triggers[n].device
  }

  // ---- One step ------------------------------------------------------------------------

  lemma NodeStepSending(s: System, step: Step, n: nat)
    requires Enabled(s, step) && OfNode(step) && n < |s.triggers| && step.device == s.triggers[n].device
    ensures var node := NodeAfter(s, step);
      (!node.sender.Idle? && node.sender.trigger == n) <==>
        Sending(s, n) && !Ends(s, step, n) && !Arrives(s, step, n)
  {
    hide RowOf, AckMatches, NextSequence, EventMessage;
  }

  /** A node stays busy with an event until it gives it up, reboots, or hears the matching ACK. */
  lemma StepSending(s: System, step: Step, n: nat)
    requires SendersSound(s.nodes, s.triggers, s.sends) && Enabled(s, step) && n < |s.triggers|
    ensures var s' := Apply(s, step);
      && n < |s'.triggers| && s'.triggers[n] == s.triggers[n]
      && (Sending(s', n) <==> Sending(s, n) && !Ends(s, step, n) && !Arrives(s, step, n))
  {
    StepTriggers(s, step);
    hide Apply, Enabled, NewTrigger, NodeAfter, Confirms, SendersSound;
    if OfNode(step) {
      NodeStepFrame(s, step);
      if step.device == s.triggers[n].device { NodeStepSending(s, step, n); }
    } else {
      OtherStepFrame(s, step);
      NotConfirmed(s, step);
    }
  }

  lemma NotConfirmed(s: System, step: Step)
    requires Enabled(s, step) && !OfNode(step)
    ensures !Confirms(s, step)
  {
    hide RowOf, AckMatches;
  }

  /** An event becomes confirmed exactly at that ACK. */
  lemma StepDelivers(s: System, step: Step, n: nat)
    requires SendersSound(s.nodes, s.triggers, s.sends) && Enabled(s, step) && n < |s.triggers|
    ensures n in Apply(s, step).delivered <==> n in s.delivered || Arrives(s, step, n)
  {
    if OfNode(step) {
      if step.Hear? {
        HearDelivers(s, step);
        OnlyItsNodeSends(s, step.device);
        hide Apply, RowOf, AckMatches, SendersSound, NodeApply;
      } else {
        NodeStepFrame(s, step);
        hide Apply, SendersSound, RowOf;
      }
    } else {
      OtherStepFrame(s, step);
      NotConfirmed(s, step);
      hide Apply, SendersSound, Confirms;
    }
  }

  lemma HearDelivers(s: System, step: Step)
    requires Enabled(s, step) && step.Hear?
    ensures step.device in s.nodes && !s.nodes[step.device].sender.Idle?
    ensures Apply(s, step).delivered ==
      if Confirms(s, step) then s.delivered + {s.nodes[step.device].sender.trigger} else s.delivered
  {
    hide RowOf, AckMatches, HubApply;
  }

  /** A new event is what its node is busy with. */
  lemma NewEventIsSent(s: System, step: Step)
    requires Enabled(s, step) && NewTrigger(s, step).Some?
    ensures var s' := Apply(s, step);
      |s'.triggers| == |s.triggers| + 1 && Sending(s', |s.triggers|) && s'.delivered == s.delivered
  {
    hide HubApply, RowOf, NextSequence, EventMessage;
  }

  // ---- A confirmed event is done with ---------------------------------------------------

  ghost predicate ConfirmedAreDone(s: System) {
    forall n :: n in s.delivered && n < |s.triggers| ==> !Sending(s, n)
  }

  lemma DoneKept(s: System, step: Step)
    requires Inv(s) && ConfirmedAreDone(s) && Enabled(s, step)
    ensures ConfirmedAreDone(Apply(s, step))
  {
    var s' := Apply(s, step);
    StepTriggers(s, step);
    hide Apply, Enabled, NewTrigger, Sending, SendersSound, ExecutedOnce, IdsFresh, AbsentStaysAbsent, Serial, InOrder,
      Arrives, Ends;
    forall n | n in s'.delivered && n < |s'.triggers| ensures !Sending(s', n) {
      if n < |s.triggers| {
        StepSending(s, step, n);
        StepDelivers(s, step, n);
      } else {
        NewEventIsSent(s, step);
      }
    }
  }

  lemma {:induction false} DoneReached(callers: nat, steps: seq<Step>)
    requires Execution(callers, steps).Some?
    ensures ConfirmedAreDone(Execution(callers, steps).value)
  {
    if steps != [] {
      hide Apply, Enabled, ConfirmedAreDone, Inv;
      DoneReached(callers, steps[..|steps| - 1]);
      Reachable(callers, steps[..|steps| - 1]);
      DoneKept(Execution(callers, steps[..|steps| - 1]).value, steps[|steps| - 1]);
    }
  }

  /** In every reachable state no node at all is busy with a confirmed event. */
  lemma NoSenderHoldsConfirmed(callers: nat, steps: seq<Step>, s: System, n: nat, d: DeviceId)
    requires Reached(s, callers, steps) && n in s.delivered && d in s.nodes
    ensures s.nodes[d].sender.Idle? || s.nodes[d].sender.trigger != n
  {
    Reachable(callers, steps);
    DoneReached(callers, steps);
    if !s.nodes[d].sender.Idle? { OnlyItsNodeSends(s, d); }
  }

  /** The matching ACK confirms the event and frees the sender. */
  lemma MatchingAckEndsTheWait(s: System, step: Step)
    requires Enabled(s, step) && step.Hear?
    requires step.message == AckMessage(RowOf(s.triggers[s.nodes[step.device].sender.trigger]).key)
    requires s.triggers[s.nodes[step.device].sender.trigger].device == step.device
    ensures var s' := Apply(s, step);
      && s'.nodes[step.device] == s.nodes[step.device].(sender := Idle)
      && s.nodes[step.device].sender.trigger in s'.delivered
  {}

  /** Any other datagram leaves the node waiting on the same attempt. */
  lemma OtherDatagramKeepsWaiting(s: System, step: Step)
    requires Enabled(s, step) && step.Hear?
    requires step.message !=
      Ack(step.device, EventId(s.triggers[s.nodes[step.device].sender.trigger].boot,
                               s.triggers[s.nodes[step.device].sender.trigger].sequence))
    ensures Apply(s, step) == s.(network := s.network - multiset{step.message})
  {
    hide EventId, HubApply;
    assert s.nodes[step.device := s.nodes[step.device]] == s.nodes;
  }

  lemma NodeStepSends(s: System, step: Step)
    requires SendersSound(s.nodes, s.triggers, s.sends) && Enabled(s, step) && OfNode(step)
    ensures var s' := Apply(s, step);
      if NewTrigger(s, step).Some? then s'.sends == s.sends + [0]
      else if step.Send? then
        && step.device in s.nodes && !s.nodes[step.device].sender.Idle?
        && s.nodes[step.device].sender.trigger < |s.sends| == |s'.sends|
        && forall m :: 0 <= m < |s.sends| && m != s.nodes[step.device].sender.trigger ==> s'.sends[m] == s.sends[m]
      else s'.sends == s.sends
  {
    hide HubApply, RowOf, EventMessage, AckMatches, NodeAfter, NextSequence, SendersSound;
  }

  lemma StepSends(s: System, step: Step, n: nat)
    requires SendersSound(s.nodes, s.triggers, s.sends) && Enabled(s, step) && n < |s.triggers| && !Sending(s, n)
    ensures n < |Apply(s, step).sends| && Apply(s, step).sends[n] == s.sends[n]
  {
    SendsPerTrigger(s);
    if OfNode(step) {
      NodeStepSends(s, step);
      if step.Send? { OnlyItsNodeSends(s, step.device); }
    } else {
      OtherStepFrame(s, step);
    }
    hide Apply, Enabled, SendersSound, NewTrigger;
  }

  lemma SendsPerTrigger(s: System)
    requires SendersSound(s.nodes, s.triggers, s.sends)
    ensures |s.sends| == |s.triggers|
  {}

  /** Once confirmed, an event is never sent again, whatever the run goes on to do. */
  lemma {:induction false} ConfirmedIsNeverSentAgain(callers: nat, steps: seq<Step>, k: nat, n: nat)
    requires Execution(callers, steps).Some? && k <= |steps|
    requires Execution(callers, steps[..k]).Some? && n in Execution(callers, steps[..k]).value.delivered
    ensures var before, after := Execution(callers, steps[..k]).value, Execution(callers, steps).value;
      && n in after.delivered && n < |before.sends| && n < |after.sends| && after.sends[n] == before.sends[n]
    decreases |steps|
  {
    Reachable(callers, steps[..k]);
    if k == |steps| {
      assert steps[..k] == steps;
    } else {
      var init, step := steps[..|steps| - 1], steps[|steps| - 1];
      assert init[..k] == steps[..k];
      ConfirmedIsNeverSentAgain(callers, init, k, n);
      Reachable(callers, init);
      DoneReached(callers, init);
      var s := Execution(callers, init).value;
      hide Apply, Enabled, Sending, NothingForged, ExecutedOnce, IdsFresh, AbsentStaysAbsent, Serial, InOrder, Arrives;
      SendsPerTrigger(s);
      StepDelivers(s, step, n);
      StepSends(s, step, n);
    }
  }

  // ---- Every event's end -----------------------------------------------------------------

  /** Step k gave the event up or lost it to a reboot. */
  ghost predicate EndedAt(callers: nat, steps: seq<Step>, n: nat, k: nat) {
    && k < |steps| && Execution(callers, steps[..k]).Some?
    && n < |Execution(callers, steps[..k]).value.triggers|
    && Ends(Execution(callers, steps[..k]).value, steps[k], n)
  }

  ghost predicate Ended(callers: nat, steps: seq<Step>, n: nat) {
    exists k: nat :: EndedAt(callers, steps, n, k)
  }

  lemma EndedSnoc(callers: nat, steps: seq<Step>, step: Step, n: nat)
    requires Execution(callers, steps).Some?
    ensures var s := Execution(callers, steps).value;
      Ended(callers, steps + [step], n) <==> Ended(callers, steps, n) || (n < |s.triggers| && Ends(s, step, n))
  {
    hide Execution, Ends;
    var all := steps + [step];
    assert all[..|steps|] == steps && all[|steps|] == step;
    forall k: nat | k < |steps| ensures EndedAt(callers, all, n, k) <==> EndedAt(callers, steps, n, k) {
      assert all[..k] == steps[..k] && all[k] == steps[k];
    }
    if Ended(callers, steps, n) {
      var k: nat :| EndedAt(callers, steps, n, k);
      assert EndedAt(callers, all, n, k);
    }
    if n < |Execution(callers, steps).value.triggers| && Ends(Execution(callers, steps).value, step, n) {
      assert EndedAt(callers, all, n, |steps|);
    }
  }

  lemma {:induction false} EndedIff(callers: nat, steps: seq<Step>, n: nat)
    requires Execution(callers, steps).Some?
    ensures var s := Execution(callers, steps).value;
      Ended(callers, steps, n) <==> n < |s.triggers| && n !in s.delivered && !Sending(s, n)
  {
    if steps == [] {
      assert !Ended(callers, [], n);
    } else {
      var init, step := steps[..|steps| - 1], steps[|steps| - 1];
      var s := Execution(callers, init).value;
      EndedIff(callers, init, n);
      Reachable(callers, init);
      DoneReached(callers, init);
      EndedSnoc(callers, init, step, n);
      assert steps == init + [step];
      StepTriggers(s, step);
      hide Apply, Enabled, Ended, NewTrigger, ExecutedOnce, IdsFresh, AbsentStaysAbsent, Serial, InOrder, Confirms,
        SendersSound;
      if n < |s.triggers| {
        StepSending(s, step, n);
        StepDelivers(s, step, n);
      } else if NewTrigger(s, step).Some? {
        NewEventIsSent(s, step);
      }
    }
  }

  /** Every event is confirmed, still being sent, or was ended by its node; exactly one of the three. */
  lemma EventFate(callers: nat, steps: seq<Step>, s: System, n: nat)
    requires Reached(s, callers, steps) && n < |s.triggers|
    ensures n in s.delivered || Sending(s, n) || Ended(callers, steps, n)
    ensures !(n in s.delivered && Sending(s, n))
    ensures Ended(callers, steps, n) ==> n !in s.delivered && !Sending(s, n)
  {
    EndedIff(callers, steps, n);
    DoneReached(callers, steps);
  }

  // ---- Attempts ---------------------------------------------------------------------------

  /** The step starts an attempt for the event: a transmission, or, unless only these count, one that failed. */
  predicate StartsAttempt(s: System, step: Step, n: nat, sentOnly: bool) {
    && (step.Send? || (step.SendFails? && !sentOnly))
    && step.device in s.nodes && !s.nodes[step.device].sender.Idle? && s.nodes[step.device].sender.trigger == n
  }

  /** How many attempts a run made for an event. */
  function Attempts(callers: nat, steps: seq<Step>, n: nat, sentOnly: bool): nat {
    if steps == [] then 0
    else
      var init := steps[..|steps| - 1];
      var s := Execution(callers, init);
      Attempts(callers, init, n, sentOnly)
      + if s.Some? && StartsAttempt(s.value, steps[|steps| - 1], n, sentOnly) then 1 else 0
  }

  /** What the attempts of an event say about the state. */
  ghost predicate Counted(s: System, n: nat, sent: nat, tried: nat) {
    if n < |s.triggers| then
      && n < |s.sends| && s.sends[n] == sent <= tried <= s.triggers[n].retryCount + 1
      && (Sending(s, n) ==> s.nodes[s.triggers[n].device].sender.started == tried)
    else sent == tried == 0
  }

  lemma AttemptIsOfItsEvent(s: System, step: Step, n: nat, sentOnly: bool)
    requires SendersSound(s.nodes, s.triggers, s.sends) && StartsAttempt(s, step, n, sentOnly)
    ensures n < |s.triggers| && Sending(s, n) && step.device == s.triggers[n].device
  {
    OnlyItsNodeSends(s, step.device);
  }

  /** An attempt is started only while some are left, and is counted by the sender. */
  lemma AttemptCounts(s: System, step: Step, n: nat)
    requires SendersSound(s.nodes, s.triggers, s.sends) && Enabled(s, step) && StartsAttempt(s, step, n, false)
    ensures n < |s.triggers| && step.device == s.triggers[n].device
    ensures s.nodes[step.device].sender.started <= s.triggers[n].retryCount
    ensures Apply(s, step).nodes[step.device].sender.started == s.nodes[step.device].sender.started + 1
    ensures n < |s.sends| && Apply(s, step).sends == if step.Send? then s.sends[n := s.sends[n] + 1] else s.sends
  {
    OnlyItsNodeSends(s, step.device);
    assert SenderSound(step.device, s.nodes[step.device], s.triggers, s.sends);
    hide HubApply, RowOf, EventMessage, AckMatches, SendersSound;
  }

  /** Other steps of a busy node keep its count. */
  lemma OtherStepsKeepTheCount(s: System, step: Step, n: nat)
    requires SendersSound(s.nodes, s.triggers, s.sends) && Enabled(s, step) && n < |s.triggers|
    requires !StartsAttempt(s, step, n, false)
    ensures n < |s.sends| && n < |Apply(s, step).sends| && Apply(s, step).sends[n] == s.sends[n]
    ensures var s' := Apply(s, step);
      n < |s'.triggers| && s'.triggers[n] == s.triggers[n]
      && (Sending(s', n) ==>
            && Sending(s, n)
            && s'.nodes[s.triggers[n].device].sender.started == s.nodes[s.triggers[n].device].sender.started)
  {
    SendsPerTrigger(s);
    StepSending(s, step, n);
    if OfNode(step) {
      CountAfter(s, step, n);
      NodeStepFrame(s, step);
    } else {
      OtherStepFrame(s, step);
    }
    hide Apply, SendersSound, Ends, Arrives;
  }

  lemma CountAfter(s: System, step: Step, n: nat)
    requires Enabled(s, step) && OfNode(step) && n < |s.triggers| == |s.sends| && !StartsAttempt(s, step, n, false)
    ensures n < |Apply(s, step).sends| && Apply(s, step).sends[n] == s.sends[n]
    ensures step.device == s.triggers[n].device && Sending(s, n) && !NodeAfter(s, step).sender.Idle? ==>
      NodeAfter(s, step).sender.started == s.nodes[step.device].sender.started
  {
    hide HubApply, RowOf, EventMessage, AckMatches, NextSequence;
  }

  lemma CountedKept(s: System, step: Step, n: nat, sent: nat, tried: nat)
    requires SendersSound(s.nodes, s.triggers, s.sends) && Enabled(s, step) && Counted(s, n, sent, tried)
    ensures Counted(Apply(s, step), n, sent + (if StartsAttempt(s, step, n, true) then 1 else 0),
                    tried + (if StartsAttempt(s, step, n, false) then 1 else 0))
  {
    StepTriggers(s, step);
    if n >= |s.triggers| {
      if StartsAttempt(s, step, n, false) { AttemptIsOfItsEvent(s, step, n, false); }
      if NewTrigger(s, step).Some? { NewEventStarts(s, step); }
      hide Apply, Enabled, NewTrigger, SendersSound;
    } else if StartsAttempt(s, step, n, false) {
      AttemptIsOfItsEvent(s, step, n, false);
      AttemptCounts(s, step, n);
      StepSending(s, step, n);
      hide Apply, Enabled, NewTrigger, SendersSound, Ends, Arrives;
    } else {
      OtherStepsKeepTheCount(s, step, n);
      hide Apply, Enabled, NewTrigger, SendersSound;
    }
  }

  lemma NewEventStarts(s: System, step: Step)
    requires SendersSound(s.nodes, s.triggers, s.sends) && Enabled(s, step) && NewTrigger(s, step).Some?
    ensures var s' := Apply(s, step);
      && |s'.triggers| == |s.triggers| + 1 && |s'.sends| == |s.triggers| + 1 && s'.sends[|s.triggers|] == 0
      && s'.triggers[|s.triggers|].device == step.device && step.device in s'.nodes
      && s'.nodes[step.device].sender == Ready(|s.triggers|, 0)
  {
    SendsPerTrigger(s);
    hide HubApply, RowOf, EventMessage, NextSequence, SendersSound;
  }

  /** The sender's counter and the send counts are the attempts and transmissions of the run, within the retries. */
  lemma {:induction false} AttemptsCounted(callers: nat, steps: seq<Step>, n: nat)
    requires Execution(callers, steps).Some?
    ensures Counted(Execution(callers, steps).value, n,
                    Attempts(callers, steps, n, true), Attempts(callers, steps, n, false))
  {
    if steps != [] {
      var init, step := steps[..|steps| - 1], steps[|steps| - 1];
      AttemptsCounted(callers, init, n);
      Reachable(callers, init);
      var s := Execution(callers, init).value;
      assert SendersSound(s.nodes, s.triggers, s.sends);
      CountedKept(s, step, n, Attempts(callers, init, n, true), Attempts(callers, init, n, false));
      hide Apply, Enabled, Counted, Inv;
    }
  }

  /** A node gives an event up only when all its attempts were started, or while it knows no hub. */
  lemma GivenUpOnlyAtTheEnd(callers: nat, steps: seq<Step>, n: nat, k: nat)
    requires Execution(callers, steps).Some? && EndedAt(callers, steps, n, k) && steps[k].Abandon?
    ensures var s := Execution(callers, steps[..k]).value;
      && n < |s.triggers| && s.triggers[n].device in s.nodes
      && (Attempts(callers, steps[..k], n, false) == s.triggers[n].retryCount + 1
          || !s.nodes[s.triggers[n].device].hubKnown)
  {
    var s := Execution(callers, steps[..k]).value;
    StoredRowsNeverChange(callers, steps, k + 1);
    assert steps[..k + 1][..k] == steps[..k];
    AttemptsCounted(callers, steps[..k], n);
    Reachable(callers, steps[..k]);
    SenderAtTheEnd(s, steps[k], n);
    hide Execution, Attempts, Inv;
  }

  lemma SenderAtTheEnd(s: System, step: Step, n: nat)
    requires SendersSound(s.nodes, s.triggers, s.sends) && n < |s.triggers|
    requires Enabled(s, step) && step.Abandon? && Ends(s, step, n)
    ensures s.nodes[step.device].sender.started == s.triggers[n].retryCount + 1 || !s.nodes[step.device].hubKnown
  {
    assert SenderSound(step.device, s.nodes[step.device], s.triggers, s.sends);
  }

  // ---- Discovery ------------------------------------------------------------------------------

  /** Since its last boot the device discovered the hub. */
  predicate Discovered(steps: seq<Step>, d: DeviceId) {
    steps != []
    && (match steps[|steps| - 1]
        case Discover(e) => e == d || Discovered(steps[..|steps| - 1], d)
        case Reboot(e, _, _) => e != d && Discovered(steps[..|steps| - 1], d)
        case _ => Discovered(steps[..|steps| - 1], d))
  }

  lemma KnownAfter(s: System, step: Step)
    requires Enabled(s, step) && OfNode(step)
    ensures NodeAfter(s, step).hubKnown <==>
      step.Discover? || (!step.Reboot? && step.device in s.nodes && s.nodes[step.device].hubKnown)
  {
    hide RowOf, AckMatches, NextSequence;
  }

  /** A node knows the hub exactly when it discovered it since its last boot; until then it sends nothing. */
  lemma {:induction false} KnownIffDiscovered(callers: nat, steps: seq<Step>, d: DeviceId)
    requires Execution(callers, steps).Some? && d in Execution(callers, steps).value.nodes
    ensures Execution(callers, steps).value.nodes[d].hubKnown <==> Discovered(steps, d)
  {
    if steps != [] {
      var init, step := steps[..|steps| - 1], steps[|steps| - 1];
      var s := Execution(callers, init).value;
      if d in s.nodes { KnownIffDiscovered(callers, init, d); }
      if OfNode(step) {
        NodeStepFrame(s, step);
        KnownAfter(s, step);
        if d !in s.nodes { FirstBoot(s, step); }
      } else {
        OtherStepFrame(s, step);
      }
      hide Apply, Enabled, NodeAfter;
    }
  }

  lemma FirstBoot(s: System, step: Step)
    requires Enabled(s, step) && OfNode(step)
    ensures step.device in s.nodes || step.Reboot?
  {}

  /** The boot id and the retry count of the last boot. */
  function LastBoot(steps: seq<Step>, d: DeviceId): Option<(u64, nat)> {
    if steps == [] then None
    else
      match steps[|steps| - 1]
      case Reboot(e, boot, retryCount) => if e == d then Some((boot, retryCount)) else LastBoot(steps[..|steps| - 1], d)
      case _ => LastBoot(steps[..|steps| - 1], d)
  }

  lemma BootAfter(s: System, step: Step)
    requires Enabled(s, step) && OfNode(step)
    ensures step.Reboot? || step.device in s.nodes
    ensures var node := NodeAfter(s, step);
      if step.Reboot? then node.boot == step.boot && node.retryCount == step.retryCount
      else node.boot == s.nodes[step.device].boot && node.retryCount == s.nodes[step.device].retryCount
  {
    hide RowOf, AckMatches, NextSequence;
  }

  /** A node exists exactly once it booted, and runs with the boot id and the retry count of its last boot. */
  lemma {:induction false} NodesRunAsBooted(callers: nat, steps: seq<Step>, d: DeviceId)
    requires Execution(callers, steps).Some?
    ensures var s := Execution(callers, steps).value;
      && (d in s.nodes <==> LastBoot(steps, d).Some?)
      && (d in s.nodes ==> LastBoot(steps, d) == Some((s.nodes[d].boot, s.nodes[d].retryCount)))
  {
    if steps != [] {
      var init, step := steps[..|steps| - 1], steps[|steps| - 1];
      var s := Execution(callers, init).value;
      NodesRunAsBooted(callers, init, d);
      if OfNode(step) {
        NodeStepFrame(s, step);
        BootAfter(s, step);
      } else {
        OtherStepFrame(s, step);
      }
      hide Apply, Enabled, NodeAfter;
    }
  }

  // ---- Progress ---------------------------------------------------------------------------------

  lemma ReadyNodeCanAct(s: System, d: DeviceId)
    requires d in s.nodes && s.nodes[d].sender.Ready?
    requires s.nodes[d].sender.trigger < |s.triggers| == |s.sends|
    ensures if s.nodes[d].sender.started <= s.nodes[d].retryCount && s.nodes[d].hubKnown
            then Enabled(s, Send(d)) && Enabled(s, SendFails(d)) && !Enabled(s, Abandon(d))
            else Enabled(s, Abandon(d)) && !Enabled(s, Send(d))
  {}

  lemma WaitingNodeCanAct(s: System, d: DeviceId)
    requires d in s.nodes && s.nodes[d].sender.Waiting? && s.nodes[d].sender.trigger < |s.triggers|
    ensures Enabled(s, Timeout(d)) && forall m :: m in s.network ==> Enabled(s, Hear(d, m))
  {}

  /** In every reachable state a node with work has a step to take: an idle one takes its next action, a ready one
      sends or gives up, a waiting one can always time out. */
  lemma NodesAreNeverStuck(callers: nat, steps: seq<Step>, s: System, d: DeviceId)
    requires Reached(s, callers, steps) && d in s.nodes
    ensures match s.nodes[d].sender
            case Idle => s.nodes[d].channel != [] ==> Enabled(s, Take(d))
            case Ready(_, started) =>
              if started <= s.nodes[d].retryCount && s.nodes[d].hubKnown
              then Enabled(s, Send(d)) && Enabled(s, SendFails(d)) && !Enabled(s, Abandon(d))
              else Enabled(s, Abandon(d)) && !Enabled(s, Send(d))
            case Waiting(_, _) => Enabled(s, Timeout(d)) && forall m :: m in s.network ==> Enabled(s, Hear(d, m))
  {
    Reachable(callers, steps);
    SendsPerTrigger(s);
    if s.nodes[d].sender.Idle? {
      IdleNodeCanAct(s, d);
    } else {
      OnlyItsNodeSends(s, d);
      if s.nodes[d].sender.Ready? { ReadyNodeCanAct(s, d); } else { WaitingNodeCanAct(s, d); }
    }
    hide Inv, SendersSound, Execution, Sending, Enabled;
  }

  lemma IdleNodeCanAct(s: System, d: DeviceId)
    requires d in s.nodes && s.nodes[d].sender.Idle?
    ensures s.nodes[d].channel != [] ==> Enabled(s, Take(d))
  {}

  /** Each datagram under way can be lost or be duplicated. */
  lemma NetworkIsUnreliable(s: System, m: UdpMessage)
    requires m in s.network
    ensures Enabled(s, Lose(m)) && Apply(s, Lose(m)) == s.(network := s.network - multiset{m})
    ensures Enabled(s, Duplicate(m)) && Apply(s, Duplicate(m)) == s.(network := s.network + multiset{m})
  {
    hide NodeApply, HubApply;
  }

  /** A free caller can take any datagram, and a busy one can move on. */
  lemma CallersAreNeverStuck(s: System, m: UdpMessage, c: nat)
    requires m in s.network && c < |s.callers|
    ensures match s.callers[c]
            case Free => Enabled(s, Deliver(c, m))
            case Received(_) => Enabled(s, Lookup(c)) && Enabled(s, Reject(c))
            case Unseen(_) => Enabled(s, Validate(c)) && Enabled(s, Reject(c))
            case Validated(_) => Enabled(s, Insert(c)) && Enabled(s, Reject(c))
            case Stored(_) => Enabled(s, Execute(c))
            case Answering(_) => Enabled(s, Answer(c))
  {}
}
