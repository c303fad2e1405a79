/** Saving a configuration as one transaction over the hub's tables. */
module HubTransaction {
  import opened Wrappers
  import opened Messages
  import opened Ordering
  import opened HubTables
  import opened HubConfig

  /** A datagram's bytes, one character a byte. */
  type Payload = seq<char>

  /** A row of the event history, which no configuration statement touches. */
  datatype EventRow = EventRow(receivedAt: string, deviceId: DeviceId, eventId: string, payload: Payload)

  predicate HasEvent(events: seq<EventRow>, deviceId: DeviceId, eventId: string) {
    exists i :: 0 <= i < |events| && events[i].deviceId == deviceId && events[i].eventId == eventId
  }

  ghost predicate NoFaults(faults: nat -> bool) {
    forall n :: !faults(n)
  }

  datatype SaveError = Refused(defect: ConfigDefect) | DatabaseRefused

  /**
  An open connection. `faults` says which statements, by their number, fail for a
  reason outside the schema, such as a full disk or a locked file.
  */
  class Connection {
    var tables: Tables
    var devices: map<DeviceId, bool>
    var events: seq<EventRow>
    var executed: nat
    const faults: nat -> bool

    constructor (tables: Tables, devices: map<DeviceId, bool>, events: seq<EventRow>, faults: nat -> bool)
      ensures this.tables == tables && this.devices == devices && this.events == events && this.faults == faults
    {
      this.tables, this.devices, this.events, this.executed, this.faults := tables, devices, events, 0, faults;
    }

    /** A statement either takes effect as a whole or leaves the tables alone and fails. */
    method Execute(stmt: Statement) returns (ok: bool)
      modifies this`tables, this`executed
      ensures tables == if ok then Perform(old(tables), stmt) else old(tables)
      ensures ok ==> Allowed(old(tables), stmt)
      ensures NoFaults(faults) ==> (ok <==> Allowed(old(tables), stmt))
      ensures Schema(old(tables)) ==> Schema(tables)
    {
      hide Schema;
      if Schema(tables) && Allowed(tables, stmt) {
        PerformKeepsSchema(tables, stmt);
      }
      ok := !faults(executed) && Allowed(tables, stmt);
      executed := executed + 1;
      if ok {
        tables := Perform(tables, stmt);
      }
    }

    /** A query reads and changes nothing; it may fail like any statement. */
    method Query() returns (ok: bool)
      modifies this`executed
      ensures NoFaults(faults) ==> ok
    {
      ok := !faults(executed);
      executed := executed + 1;
    }

    /** INSERT OR IGNORE under the unique key; the reference to the device is not ignored. */
    method InsertEvent(row: EventRow) returns (inserted: Option<bool>)
      modifies this`events, this`executed
      ensures inserted == Some(true) ==>
        row.deviceId in devices && !HasEvent(old(events), row.deviceId, row.eventId) && events == old(events) + [row]
      ensures inserted == Some(false) ==> HasEvent(events, row.deviceId, row.eventId)
      ensures inserted != Some(true) ==> events == old(events)
      ensures NoFaults(faults) && row.deviceId in devices ==> inserted.Some?
    {
      executed := executed + 1;
      if faults(executed - 1) {
        return None;
      }
      if HasEvent(events, row.deviceId, row.eventId) {
        return Some(false);
      }
      if row.deviceId !in devices {
        return None;
      }
      events := events + [row];
      return Some(true);
    }

    method DeleteAll() returns (ok: bool)
      modifies this`tables, this`executed
      ensures Schema(old(tables)) ==> Schema(tables)
      ensures ok ==> tables == Tables([], [], [], [], [], [], old(tables).nextDestinationId)
      ensures NoFaults(faults) ==> ok
    {
      hide Schema;
      ok := Execute(DeleteTargets);
      if ok { ok := Execute(DeleteSettings); }
      if ok { ok := Execute(DeleteChanges); }
      if ok { ok := Execute(DeleteActions); }
      if ok { ok := Execute(DeleteDestinations); }
      if ok { ok := Execute(DeleteFamilies); }
    }

    method InsertFamilies(families: seq<FamilyRow>) returns (ok: bool)
      requires tables.families == []
      modifies this`tables, this`executed
      ensures Schema(old(tables)) ==> Schema(tables)
      ensures ok ==> tables == old(tables).(families := families)
      ensures NoFaults(faults) ==>
        (ok <==> forall i, j :: 0 <= i < j < |families| ==> families[i].familyId != families[j].familyId)
    {
      hide Schema;
      ok := true;
      for k := 0 to |families|
        invariant ok
        invariant Schema(old(tables)) ==> Schema(tables)
        invariant tables == old(tables).(families := families[..k])
        invariant forall i, j :: 0 <= i < j < k ==> families[i].familyId != families[j].familyId
      {
        assert families[..k + 1] == families[..k] + [families[k]];
        ok := Execute(InsertFamily(families[k]));
        if !ok {
          return;
        }
        assert GetFamily(old(tables).(families := families[..k]), families[k].familyId).None?;
        assert forall i :: 0 <= i < k ==> families[..k][i].familyId != families[k].familyId;
      }
      assert families[..|families|] == families;
    }

    method InsertChanges(a: ActionConfig) returns (ok: bool)
      requires GetAction(tables, a.action.actionId).Some?
      requires forall i :: 0 <= i < |tables.changes| ==> tables.changes[i].actionId != a.action.actionId
      requires forall i, j :: 0 <= i < j < |a.stateChanges| ==>
          a.stateChanges[i].stateType != a.stateChanges[j].stateType
      modifies this`tables, this`executed
      ensures Schema(old(tables)) ==> Schema(tables)
      ensures ok ==> tables == old(tables).(changes := old(tables).changes + ChangesOf(a))
      ensures NoFaults(faults) ==> ok
    {
      hide Schema;
      ok := true;
      var rows := ChangesOf(a);
      for k := 0 to |rows|
        invariant ok
        invariant Schema(old(tables)) ==> Schema(tables)
        invariant tables == old(tables).(changes := old(tables).changes + rows[..k])
      {
        assert rows[..k + 1] == rows[..k] + [rows[k]];
        assert Allowed(tables, InsertChange(rows[k]));
        ok := Execute(InsertChange(rows[k]));
        if !ok {
          return;
        }
      }
      assert rows[..|rows|] == rows;
    }

    method InsertTargets(a: ActionConfig) returns (ok: bool)
      requires GetAction(tables, a.action.actionId).Some?
      requires forall i :: 0 <= i < |tables.targets| ==> tables.targets[i].actionId != a.action.actionId
      requires forall i :: 0 <= i < |a.notificationTargets| ==> GetFamily(tables, a.notificationTargets[i]).Some?
      modifies this`tables, this`executed
      ensures Schema(old(tables)) ==> Schema(tables)
      ensures ok ==> tables == old(tables).(targets := old(tables).targets + TargetsOf(a)) && DistinctTargets(a)
      ensures NoFaults(faults) ==> (ok <==> DistinctTargets(a))
    {
      hide Schema;
      ok := true;
      var rows := TargetsOf(a);
      for k := 0 to |rows|
        invariant ok
        invariant Schema(old(tables)) ==> Schema(tables)
        invariant tables == old(tables).(targets := old(tables).targets + rows[..k])
        invariant forall i, j :: 0 <= i < j < k ==> rows[i] != rows[j]
      {
        assert rows[..k + 1] == rows[..k] + [rows[k]];
        ghost var before := tables;
        ok := Execute(InsertTarget(rows[k]));
        assert rows[k] in before.targets <==> exists i :: 0 <= i < k && rows[i] == rows[k] by {
          assert forall i :: 0 <= i < k ==> rows[..k][i] == rows[i];
        }
        if !ok {
          return;
        }
      }
      assert rows[..|rows|] == rows;
      assert forall i, j :: 0 <= i < j < |rows| ==> rows[i] != rows[j];
    }

    method InsertSettings(a: ActionConfig) returns (ok: bool)
      requires GetAction(tables, a.action.actionId).Some? && GetSetting(tables, a.action.actionId).None?
      modifies this`tables, this`executed
      ensures Schema(old(tables)) ==> Schema(tables)
      ensures ok ==> tables == old(tables).(settings := old(tables).settings + SettingsOf(a))
      ensures NoFaults(faults) ==> ok
    {
      hide Schema;
      ok := true;
      if a.notificationEnabled || a.notificationMessage.Some? {
        ok := Execute(InsertSetting(SettingRow(a.action.actionId, a.notificationEnabled, a.notificationMessage)));
      }
    }

    /** One action with its state changes, its notification setting and its notification targets. */
    method InsertWholeAction(a: ActionConfig) returns (ok: bool)
      requires ActionAccepted(tables.families, a) && Absent(tables, a.action.actionId)
      modifies this`tables, this`executed
      ensures Schema(old(tables)) ==> Schema(tables)
      ensures ok ==> tables == WithAction(old(tables), a) && DistinctTargets(a)
      ensures NoFaults(faults) ==> (ok <==> DistinctTargets(a))
    {
      hide Schema;
      AcceptedActionAllowed(tables, a);
      ok := Execute(InsertAction(a.action));
      if !ok { return; }
      InsertedActionFound(old(tables), a.action);
      ok := InsertChanges(a);
      if !ok { return; }
      ok := InsertSettings(a);
      if !ok { return; }
      ok := InsertTargets(a);
    }

    method InsertActions(actions: seq<ActionConfig>) returns (ok: bool)
      requires tables.actions == [] && tables.changes == [] && tables.settings == [] && tables.targets == []
      requires forall i, j :: 0 <= i < j < |actions| ==> actions[i].action.actionId != actions[j].action.actionId
      requires forall i :: 0 <= i < |actions| ==> ActionAccepted(tables.families, actions[i])
      modifies this`tables, this`executed
      ensures Schema(old(tables)) ==> Schema(tables)
      ensures ok ==> tables == WithActions(old(tables), actions)
      ensures ok ==> forall i :: 0 <= i < |actions| ==> DistinctTargets(actions[i])
      ensures NoFaults(faults) ==> (ok <==> forall i :: 0 <= i < |actions| ==> DistinctTargets(actions[i]))
    {
      hide Schema;
      ok := true;
      for k := 0 to |actions|
        invariant ok
        invariant Schema(old(tables)) ==> Schema(tables)
        invariant tables == WithActions(old(tables), actions[..k])
        invariant forall i :: 0 <= i < k ==> DistinctTargets(actions[i])
      {
        NoRowsOf(actions[..k], actions[k].action.actionId);
        ok := InsertWholeAction(actions[k]);
        if !ok {
          return;
        }
        assert actions[..k + 1][..k] == actions[..k];
        assert ActionRows(actions[..k + 1]) == ActionRows(actions[..k]) + [actions[k].action];
      }
      assert actions[..|actions|] == actions;
    }

    method InsertDestinations(ds: seq<DestinationConfig>) returns (ok: bool)
      requires tables.destinations == []
      requires forall i :: 0 <= i < |ds| ==> Known(tables.families, ds[i].familyId)
      modifies this`tables, this`executed
      ensures Schema(old(tables)) ==> Schema(tables)
      ensures ok ==> tables == old(tables).(destinations := DestinationRows(ds, old(tables).nextDestinationId),
                                            nextDestinationId := old(tables).nextDestinationId + |ds|)
      ensures NoFaults(faults) ==> ok
    {
      hide Schema;
      ok := true;
      ghost var first := tables.nextDestinationId;
      for k := 0 to |ds|
        invariant ok
        invariant Schema(old(tables)) ==> Schema(tables)
        invariant tables == old(tables).(destinations := DestinationRows(ds[..k], first),
            nextDestinationId := first + k)
      {
        KnownFound(tables, ds[k].familyId);
        var stmt := InsertDestination(ds[k].familyId, ds[k].notificationType, ds[k].destination, ds[k].enabled);
        ok := Execute(stmt);
        if !ok {
          return;
        }
        assert DestinationRows(ds[..k + 1], first) == DestinationRows(ds[..k], first) + [DestinationRows(ds, first)[k]];
      }
      assert ds[..|ds|] == ds;
    }

    /** The body between BEGIN and COMMIT. */
    method Rewrite(c: ParentConfig) returns (ok: bool)
      requires Accepted(c)
      modifies this`tables, this`executed
      ensures Schema(old(tables)) ==> Schema(tables)
      ensures ok ==> tables == Stored(c, old(tables).nextDestinationId) && Storable(c)
      ensures NoFaults(faults) ==> (ok <==> Storable(c))
    {
      hide Schema;
      ok := DeleteAll();
      if !ok { return; }
      ok := InsertFamilies(c.families);
      if !ok { return; }
      ok := InsertActions(c.actions);
      if !ok { return; }
      ok := InsertDestinations(c.destinations);
    }

    /** All or nothing: the tables hold the whole configuration or what they held before. */
    method SaveConfig(c: ParentConfig) returns (r: Result<(), SaveError>)
      modifies this`tables, this`executed
      ensures events == old(events) && devices == old(devices)
      ensures Schema(old(tables)) ==> Schema(tables)
      ensures r.Ok? ==> Storable(c) && tables == Stored(c, old(tables).nextDestinationId)
      ensures r.Err? ==> tables == old(tables)
      ensures r.Err? && r.error.Refused? <==> !Accepted(c)
      ensures r.Err? && r.error.Refused? ==> Has(c, r.error.defect)
      ensures NoFaults(faults) ==> (r.Ok? <==> Storable(c))
    {
      hide Schema;
      var defect := ValidateConfig(c);
      if defect.Some? {
        return Err(Refused(defect.value));
      }
      if faults(executed) {
        executed := executed + 1;
        return Err(DatabaseRefused);
      }
      executed := executed + 1;
      var snapshot := tables;
      var ok := Rewrite(c);
      if !ok {
        tables := snapshot;
        return Err(DatabaseRefused);
      }
      r := Ok(());
    }

    /** Three queries for each action. */
    method ReadAction(a: ActionRow) returns (c: Option<ActionConfig>)
      modifies this`executed
      ensures c.Some? ==> c.value == LoadAction(tables, a)
      ensures NoFaults(faults) ==> c.Some?
    {
      var ok := Query();
      if !ok { return None; }
      ok := Query();
      if !ok { return None; }
      ok := Query();
      if !ok { return None; }
      c := Some(LoadAction(tables, a));
    }

    /** Reads everything back, or fails with the first query that fails. */
    method LoadConfig() returns (c: Option<ParentConfig>)
      modifies this`executed
      ensures c.Some? ==> c.value == Load(tables)
      ensures NoFaults(faults) ==> c.Some?
    {
      hide LoadAction, ListFamilies, ListActions;
      var ok := Query();
      if !ok { return None; }
      var families := ListFamilies(tables);
      ok := Query();
      if !ok { return None; }
      var rows := ListActions(tables);
      var actions: seq<ActionConfig> := [];
      for i := 0 to |rows|
        invariant |actions| == i && forall k :: 0 <= k < i ==> actions[k] == LoadAction(tables, rows[k])
      {
        var action := ReadAction(rows[i]);
        if action.None? { return None; }
        actions := actions + [action.value];
      }
      var destinations: seq<DestinationConfig> := [];
      for i := 0 to |families|
        invariant destinations == AllDestinations(tables, families[..i])
      {
        ok := Query();
        if !ok { return None; }
        assert families[..i + 1][..i] == families[..i];
        destinations := destinations + DestinationsFor(tables, families[i].familyId);
      }
      assert families[..|families|] == families;
      c := Some(ParentConfig(families, actions, destinations));
      assert actions == Load(tables).actions;
    }
  }

  /** No action row and no dependent row carries the id. */
  ghost predicate Absent(t: Tables, id: ActionId) {
    && (forall i :: 0 <= i < |t.actions| ==> t.actions[i].actionId != id)
    && (forall i :: 0 <= i < |t.changes| ==> t.changes[i].actionId != id)
    && (forall i :: 0 <= i < |t.settings| ==> t.settings[i].actionId != id)
    && (forall i :: 0 <= i < |t.targets| ==> t.targets[i].actionId != id)
  }

  function WithAction(t: Tables, a: ActionConfig): Tables {
    t.(actions := t.actions + [a.action], changes := t.changes + ChangesOf(a),
       settings := t.settings + SettingsOf(a), targets := t.targets + TargetsOf(a))
  }

  function WithActions(t: Tables, actions: seq<ActionConfig>): Tables {
    t.(actions := ActionRows(actions), changes := AllChanges(actions),
       settings := AllSettings(actions), targets := AllTargets(actions))
  }

  lemma KnownFound(t: Tables, id: FamilyId)
    ensures Known(t.families, id) <==> GetFamily(t, id).Some?
  {}

  lemma AcceptedActionAllowed(t: Tables, a: ActionConfig)
    requires ActionAccepted(t.families, a) && Absent(t, a.action.actionId)
    ensures Allowed(t, InsertAction(a.action))
    ensures GetSetting(t, a.action.actionId).None?
    ensures forall i :: 0 <= i < |a.notificationTargets| ==> GetFamily(t, a.notificationTargets[i]).Some?
  {
    if a.action.targetFamilyId.Some? {
      KnownFound(t, a.action.targetFamilyId.value);
    }
    forall i | 0 <= i < |a.notificationTargets| ensures GetFamily(t, a.notificationTargets[i]).Some? {
      KnownFound(t, a.notificationTargets[i]);
    }
  }

  lemma InsertedActionFound(t: Tables, a: ActionRow)
    ensures GetAction(Perform(t, InsertAction(a)), a.actionId).Some?
  {
    assert (t.actions + [a])[|t.actions|] == a;
  }

  lemma NoRowsOf(actions: seq<ActionConfig>, id: ActionId)
    requires forall i :: 0 <= i < |actions| ==> actions[i].action.actionId != id
    ensures forall i :: 0 <= i < |ActionRows(actions)| ==> ActionRows(actions)[i].actionId != id
    ensures forall i :: 0 <= i < |AllChanges(actions)| ==> AllChanges(actions)[i].actionId != id
    ensures forall i :: 0 <= i < |AllSettings(actions)| ==> AllSettings(actions)[i].actionId != id
    ensures forall i :: 0 <= i < |AllTargets(actions)| ==> AllTargets(actions)[i].actionId != id
  {
    FlatMapAll(actions, ChangesOf, (row: ChangeRow) => row.actionId != id);
    FlatMapAll(actions, SettingsOf, (row: SettingRow) => row.actionId != id);
    FlatMapAll(actions, TargetsOf, (row: TargetRow) => row.actionId != id);
  }
}
