/** The hub's action engine: validation against the tables and the in-memory business state. */
module HubActions {
  import opened Wrappers
  import opened Messages
  import opened Ordering
  import opened HubTables
  import opened HubTransaction

  datatype Scope = CommonScope | FamilyScope(familyId: FamilyId)

  datatype ValueKey = ValueKey(scope: Scope, stateType: StateType)

  type Values = map<ValueKey, StateValue>

  // ---- Applying a batch ----------------------------------------------------------------

  function Merged(values: Values, scope: Scope, changes: seq<ChangeRow>): Values {
    if changes == [] then values
    else
      var last := changes[|changes| - 1];
      Merged(values, scope, changes[..|changes| - 1])[ValueKey(scope, last.stateType) := last.stateValue]
  }

  ghost predicate Repeats(changes: seq<ChangeRow>, t: StateType) {
    exists i, j :: 0 <= i < j < |changes| && changes[i].stateType == changes[j].stateType == t
  }

  ghost predicate NoRepeats(changes: seq<ChangeRow>) {
    forall i, j :: 0 <= i < j < |changes| ==> changes[i].stateType != changes[j].stateType
  }

  /** The first state type that a change repeats. */
  function FirstRepeat(changes: seq<ChangeRow>): (t: Option<StateType>)
    ensures t.None? <==> NoRepeats(changes)
    ensures t.Some? ==> Repeats(changes, t.value)
  {
    if changes == [] then None
    else
      var init, last := changes[..|changes| - 1], changes[|changes| - 1];
      var before := FirstRepeat(init);
      if before.Some? then before
      else if exists i :: 0 <= i < |init| && init[i].stateType == last.stateType then Some(last.stateType)
      else None
  }

  class ActionStateManager {
    var values: Values

    constructor ()
      ensures values == map[]
    {
      values := map[];
    }

    /** Every change or none: the live map is replaced only after the whole batch was staged. */
    method ApplyBatch(scope: Scope, changes: seq<ChangeRow>) returns (r: Result<(), StateType>)
      modifies this
      ensures r.Ok? <==> NoRepeats(changes)
      ensures r.Ok? ==> values == Merged(old(values), scope, changes)
      ensures r.Err? ==> values == old(values) && FirstRepeat(changes) == Some(r.error)
    {
      hide FirstRepeat;
      var staged := values;
      var seen: seq<StateType> := [];
      for k := 0 to |changes|
        invariant values == old(values)
        invariant staged == Merged(values, scope, changes[..k])
        invariant |seen| == k && forall i :: 0 <= i < k ==> seen[i] == changes[i].stateType
        invariant NoRepeats(changes[..k])
      {
        var change := changes[k];
        if change.stateType in seen {
          var i :| 0 <= i < k && seen[i] == change.stateType;
          FirstRepeatAt(changes, i, k);
          return Err(change.stateType);
        }
        seen := seen + [change.stateType];
        staged := staged[ValueKey(scope, change.stateType) := change.stateValue];
        assert changes[..k + 1][..k] == changes[..k];
      }
      assert changes[..|changes|] == changes;
      values := staged;
      r := Ok(());
    }
  }

  lemma {:induction false} RepeatStands(changes: seq<ChangeRow>, k: nat)
    requires k <= |changes| && FirstRepeat(changes[..k]).Some?
    ensures FirstRepeat(changes) == FirstRepeat(changes[..k])
    decreases |changes|
  {
    if k == |changes| {
      assert changes[..k] == changes;
    } else {
      var init := changes[..|changes| - 1];
      assert init[..k] == changes[..k];
      RepeatStands(init, k);
    }
  }

  lemma FirstRepeatAt(changes: seq<ChangeRow>, i: nat, k: nat)
    requires i < k < |changes| && changes[i].stateType == changes[k].stateType && NoRepeats(changes[..k])
    ensures FirstRepeat(changes) == Some(changes[k].stateType)
  {
    var upTo := changes[..k + 1];
    assert upTo[..k] == changes[..k];
    assert upTo[..k][i].stateType == upTo[k].stateType;
    RepeatStands(changes, k + 1);
  }

  /** The value a batch gives a key, if it writes it. */
  function Written(scope: Scope, changes: seq<ChangeRow>, k: ValueKey): Option<StateValue> {
    if changes == [] then None
    else
      var last := changes[|changes| - 1];
      if k == ValueKey(scope, last.stateType) then Some(last.stateValue)
      else Written(scope, changes[..|changes| - 1], k)
  }

  function ValueAt(values: Values, k: ValueKey): Option<StateValue> { if k in values then Some(values[k]) else None }

  /** A batch changes the keys it writes and no other. */
  lemma {:induction false} MergedValueAt(values: Values, scope: Scope, changes: seq<ChangeRow>, k: ValueKey)
    ensures ValueAt(Merged(values, scope, changes), k) ==
      if Written(scope, changes, k).Some? then Written(scope, changes, k) else ValueAt(values, k)
  {
    if changes != [] {
      MergedValueAt(values, scope, changes[..|changes| - 1], k);
    }
  }

  /** A batch that repeats nothing sets every value it names and no other. */
  lemma {:induction false} BatchApplied(values: Values, scope: Scope, changes: seq<ChangeRow>)
    requires NoRepeats(changes)
    ensures var after := Merged(values, scope, changes);
      && (forall i :: 0 <= i < |changes| ==>
            ValueAt(after, ValueKey(scope, changes[i].stateType)) == Some(changes[i].stateValue))
      && (forall k :: (forall i :: 0 <= i < |changes| ==> k != ValueKey(scope, changes[i].stateType)) ==>
            ValueAt(after, k) == ValueAt(values, k))
  {
    if changes != [] {
      var init := changes[..|changes| - 1];
      BatchApplied(values, scope, init);
      forall k | (forall i :: 0 <= i < |changes| ==> k != ValueKey(scope, changes[i].stateType))
        ensures ValueAt(Merged(values, scope, changes), k) == ValueAt(values, k)
      {
        assert forall i :: 0 <= i < |init| ==> k != ValueKey(scope, init[i].stateType);
      }
    }
  }

  // ---- Validation -----------------------------------------------------------------------

  datatype ActionError =
    | NotFound(actionId: ActionId)
    | Disabled(actionId: ActionId)
    | FamilyTargetMissing(actionId: ActionId)
    | CommonTargetHasFamily(actionId: ActionId)
    | TargetFamilyNotFound(actionId: ActionId, familyId: FamilyId)
    | DatabaseFailed
    | DuplicateStateType(stateType: StateType)

  datatype Plan = Plan(action: ActionRow, scope: Scope, changes: seq<ChangeRow>)

  function ValidateTarget(t: Tables, a: ActionRow): Result<Scope, ActionError> {
    match (a.targetType, a.targetFamilyId)
    case (Family, Some(id)) =>
      if GetFamily(t, id).None? then Err(TargetFamilyNotFound(a.actionId, id))
      else Ok(FamilyScope(id))
    case (Family, None) => Err(FamilyTargetMissing(a.actionId))
    case (Common, Some(_)) => Err(CommonTargetHasFamily(a.actionId))
    case (Common, None) => Ok(CommonScope)
  }

  function ValidateEvent(t: Tables, id: ActionId): Result<Plan, ActionError> {
    match GetAction(t, id)
    case None => Err(NotFound(id))
    case Some(a) =>
      if !a.enabled then Err(Disabled(id))
      else match ValidateTarget(t, a)
           case Err(e) => Err(e)
           case Ok(scope) => Ok(Plan(a, scope, ListChanges(t, id)))
  }

  /** Loading the action again and applying its batch: the new state, or why there is none. */
  function ExecutionResult(t: Tables, values: Values, id: ActionId): Result<Values, ActionError> {
    match ValidateEvent(t, id)
    case Err(e) => Err(e)
    case Ok(plan) =>
      match FirstRepeat(plan.changes)
      case Some(repeated) => Err(DuplicateStateType(repeated))
      case None => Ok(Merged(values, plan.scope, plan.changes))
  }

  /** What one execution does to the business state. */
  function Executed(t: Tables, values: Values, id: ActionId): Values {
    match ExecutionResult(t, values, id)
    case Ok(after) => after
    case Err(_) => values
  }

  /** The keys of the schema leave an action no repeated state type. */
  lemma SchemaRulesOutRepeats(t: Tables, id: ActionId)
    requires Schema(t)
    ensures NoRepeats(ListChanges(t, id))
  {
    hide ReferencesHold;
    var own := Filter(t.changes, ChangeFor(id));
    OwnChangesDistinct(t.changes, id);
    SortKeepsDistinct(own, CHANGE_KEY);
    var sorted := ListChanges(t, id);
    forall i, j | 0 <= i < j < |sorted| ensures sorted[i].stateType != sorted[j].stateType {
      assert CHANGE_KEY(sorted[i]) != CHANGE_KEY(sorted[j]);
    }
  }

  lemma {:induction false} OwnChangesDistinct(rows: seq<ChangeRow>, id: ActionId)
    requires forall i, j :: 0 <= i < j < |rows| ==>
      rows[i].actionId != rows[j].actionId || rows[i].stateType != rows[j].stateType
    ensures DistinctBy(Filter(rows, ChangeFor(id)), CHANGE_KEY)
  {
    if rows != [] {
      var init, last := rows[..|rows| - 1], rows[|rows| - 1];
      OwnChangesDistinct(init, id);
      FilterElements(init, ChangeFor(id));
      var before := Filter(init, ChangeFor(id));
      if last.actionId == id {
        forall i | 0 <= i < |before| ensures CHANGE_KEY(before[i]) != CHANGE_KEY(last) {
          assert before[i] in before;
          var k :| 0 <= k < |init| && init[k] == before[i];
          assert rows[k].stateType != last.stateType;
          RankInjective(rows[k].stateType, last.stateType);
        }
      }
    }
  }

  lemma FamilyFound(t: Tables, id: FamilyId)
    requires HasFamily(t, id)
    ensures GetFamily(t, id).Some?
  {
    var f :| f in t.families && f.familyId == id;
    var i :| 0 <= i < |t.families| && t.families[i] == f;
    assert FamilyIs(id)(t.families[i]);
  }

  /** Under the schema only a missing or disabled action is refused. */
  lemma SchemaRulesOutBadTargets(t: Tables, id: ActionId)
    requires Schema(t)
    ensures ValidateEvent(t, id) == match GetAction(t, id)
                                    case None => Err(NotFound(id))
                                    case Some(a) =>
                                      if !a.enabled then Err(Disabled(id))
                                      else Ok(Plan(a, if a.targetFamilyId.Some? then FamilyScope(a.targetFamilyId.value)
                                                      else CommonScope, ListChanges(t, id)))
  {
    hide KeysHold, ListChanges;
    var found := GetAction(t, id);
    if found.Some? && found.value.targetFamilyId.Some? {
      FamilyFound(t, found.value.targetFamilyId.value);
    }
  }

  // ---- The engine in place ----------------------------------------------------------------

  class ActionEngine {
    const database: Connection
    const state: ActionStateManager

    constructor (database: Connection)
      ensures this.database == database && fresh(state) && state.values == map[]
    {
      this.database := database;
      state := new ActionStateManager();
    }

    /** Reads the action, its target and its changes; a query that fails ends the validation. */
    method Validate(id: ActionId) returns (r: Result<Plan, ActionError>)
      modifies database`executed
      ensures r == ValidateEvent(database.tables, id) || r == Err(DatabaseFailed)
      ensures NoFaults(database.faults) ==> r == ValidateEvent(database.tables, id)
    {
      var ok := database.Query();
      if !ok { return Err(DatabaseFailed); }
      var found := GetAction(database.tables, id);
      if found.None? { return Err(NotFound(id)); }
      var action := found.value;
      if !action.enabled { return Err(Disabled(id)); }
      if action.targetType.Family? && action.targetFamilyId.Some? {
        ok := database.Query();
        if !ok { return Err(DatabaseFailed); }
      }
      var scope := ValidateTarget(database.tables, action);
      if scope.Err? { return Err(scope.error); }
      ok := database.Query();
      if !ok { return Err(DatabaseFailed); }
      r := Ok(Plan(action, scope.value, ListChanges(database.tables, id)));
    }

    /** Loads the action again and applies its changes, all or none. */
    method Execute(id: ActionId) returns (r: Result<Plan, ActionError>)
      modifies database`executed, state
      ensures r.Ok? ==> r == ValidateEvent(database.tables, id)
      ensures r == Err(DatabaseFailed) ==> state.values == old(state.values)
      ensures r != Err(DatabaseFailed) ==>
        match ExecutionResult(database.tables, old(state.values), id)
        case Ok(after) => r.Ok? && state.values == after
        case Err(e) => r == Err(e) && state.values == old(state.values)
      ensures NoFaults(database.faults) ==> r != Err(DatabaseFailed)
    {
      r := Validate(id);
      if r.Err? {
        return;
      }
      var applied := state.ApplyBatch(r.value.scope, r.value.changes);
      if applied.Err? {
        r := Err(DuplicateStateType(applied.error));
      }
    }
  }
}
