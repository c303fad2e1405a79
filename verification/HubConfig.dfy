/** The hub configuration as one value, its validation, and its normal form. */
module HubConfig {
  import opened Wrappers
  import opened Messages
  import opened Ordering
  import opened HubTables
  import opened Text

  datatype StateChange = StateChange(stateType: StateType, stateValue: StateValue)

  datatype ActionConfig = ActionConfig(
    action: ActionRow,
    stateChanges: seq<StateChange>,
    notificationEnabled: bool,
    notificationMessage: Option<string>,
    notificationTargets: seq<FamilyId>)

  datatype DestinationConfig = DestinationConfig(
    familyId: FamilyId, notificationType: string, destination: string, enabled: bool)

  datatype ParentConfig = ParentConfig(
    families: seq<FamilyRow>, actions: seq<ActionConfig>, destinations: seq<DestinationConfig>)

  // ---- Validation ------------------------------------------------------------------

  ghost predicate Known(families: seq<FamilyRow>, id: FamilyId) {
    exists i :: 0 <= i < |families| && families[i].familyId == id
  }

  ghost predicate ActionAccepted(families: seq<FamilyRow>, a: ActionConfig) {
    && (if a.action.targetType.Family?
        then a.action.targetFamilyId.Some? && Known(families, a.action.targetFamilyId.value)
        else a.action.targetFamilyId.None?)
    && (forall i, j :: 0 <= i < j < |a.stateChanges| ==> a.stateChanges[i].stateType != a.stateChanges[j].stateType)
    && (forall i :: 0 <= i < |a.notificationTargets| ==> Known(families, a.notificationTargets[i]))
  }

  ghost predicate DestinationAccepted(families: seq<FamilyRow>, d: DestinationConfig) {
    Known(families, d.familyId) && !IsBlank(d.notificationType) && !IsBlank(d.destination)
  }

  ghost predicate DistinctFamilies(c: ParentConfig) {
    forall i, j :: 0 <= i < j < |c.families| ==> c.families[i].familyId != c.families[j].familyId
  }

  ghost predicate DistinctActions(c: ParentConfig) {
    forall i, j :: 0 <= i < j < |c.actions| ==> c.actions[i].action.actionId != c.actions[j].action.actionId
  }

  /** What `validate_config` demands. */
  ghost predicate Accepted(c: ParentConfig) {
    && DistinctFamilies(c)
    && DistinctActions(c)
    && (forall i :: 0 <= i < |c.actions| ==> ActionAccepted(c.families, c.actions[i]))
    && (forall i :: 0 <= i < |c.destinations| ==> DestinationAccepted(c.families, c.destinations[i]))
  }

  /** What validation forgets and only the primary key demands. */
  ghost predicate DistinctTargets(a: ActionConfig) {
    forall i, j :: 0 <= i < j < |a.notificationTargets| ==> a.notificationTargets[i] != a.notificationTargets[j]
  }

  ghost predicate Storable(c: ParentConfig) {
    Accepted(c) && forall i :: 0 <= i < |c.actions| ==> DistinctTargets(c.actions[i])
  }

  datatype ConfigDefect =
    | RepeatedFamilyId(familyId: FamilyId)
    | RepeatedActionId(actionId: ActionId)
    | InvalidTargetFamily(actionId: ActionId)
    | CommonWithFamily(actionId: ActionId)
    | RepeatedStateType(actionId: ActionId)
    | InvalidNotificationTarget(actionId: ActionId)
    | InvalidDestinationFamily(familyId: FamilyId)
    | BlankDestination

  /** The defect of one action that is named is really there. */
  ghost predicate ActionHas(families: seq<FamilyRow>, a: ActionConfig, defect: ConfigDefect) {
    var target := a.action.targetFamilyId;
    match defect
    case InvalidTargetFamily(id) =>
      a.action.actionId == id && a.action.targetType.Family? && !(target.Some? && Known(families, target.value))
    case CommonWithFamily(id) => a.action.actionId == id && a.action.targetType.Common? && target.Some?
    case RepeatedStateType(id) =>
      && a.action.actionId == id
      && exists i, j :: 0 <= i < j < |a.stateChanges| && a.stateChanges[i].stateType == a.stateChanges[j].stateType
    case InvalidNotificationTarget(id) =>
      a.action.actionId == id && exists f :: f in a.notificationTargets && !Known(families, f)
    case _ => false
  }

  /** The defect a refusal names is really there. */
  ghost predicate Has(c: ParentConfig, defect: ConfigDefect) {
    match defect
    case RepeatedFamilyId(id) =>
      exists i, j :: 0 <= i < j < |c.families| && c.families[i].familyId == c.families[j].familyId == id
    case RepeatedActionId(id) =>
      exists i, j :: 0 <= i < j < |c.actions| && c.actions[i].action.actionId == c.actions[j].action.actionId == id
    case InvalidDestinationFamily(id) => !Known(c.families, id) && exists d :: d in c.destinations && d.familyId == id
    case BlankDestination =>
      exists d :: d in c.destinations && (IsBlank(d.notificationType) || IsBlank(d.destination))
    case _ => exists a :: a in c.actions && ActionHas(c.families, a, defect)
  }

  ghost predicate Distinct(ids: seq<nat>) {
    forall i, j :: 0 <= i < j < |ids| ==> ids[i] != ids[j]
  }

  /** Collects identifiers until one repeats, and names the first that does. */
  method UniqueIds(ids: seq<nat>) returns (r: Result<set<nat>, nat>)
    ensures r.Ok? <==> forall i, j :: 0 <= i < j < |ids| ==> ids[i] != ids[j]
    ensures r.Ok? ==> r.value == set i | 0 <= i < |ids| :: ids[i]
    ensures r.Err? ==> exists i, j :: 0 <= i < j < |ids| && ids[i] == ids[j] == r.error && Distinct(ids[..j])
  {
    var found := {};
    for k := 0 to |ids|
      invariant found == set i | 0 <= i < k :: ids[i]
      invariant forall i, j :: 0 <= i < j < k ==> ids[i] != ids[j]
    {
      if ids[k] in found {
        assert Distinct(ids[..k]);
        return Err(ids[k]);
      }
      found := found + {ids[k]};
    }
    r := Ok(found);
  }

  method ValidateAction(families: seq<FamilyRow>, familyIds: set<FamilyId>, a: ActionConfig)
    returns (defect: Option<ConfigDefect>)
    requires forall id :: id in familyIds <==> Known(families, id)
    ensures defect.None? <==> ActionAccepted(families, a)
    ensures defect.Some? ==> ActionHas(families, a, defect.value)
  {
    var id := a.action.actionId;
    match (a.action.targetType, a.action.targetFamilyId) {
      case (Family, Some(family)) => if family !in familyIds { return Some(InvalidTargetFamily(id)); }
      case (Family, None) => return Some(InvalidTargetFamily(id));
      case (Common, None) =>
      case (Common, Some(_)) => return Some(CommonWithFamily(id));
    }
    var seen: set<StateType> := {};
    for k := 0 to |a.stateChanges|
      invariant seen == set i | 0 <= i < k :: a.stateChanges[i].stateType
      invariant forall i, j :: 0 <= i < j < k ==> a.stateChanges[i].stateType != a.stateChanges[j].stateType
    {
      if a.stateChanges[k].stateType in seen {
        return Some(RepeatedStateType(id));
      }
      seen := seen + {a.stateChanges[k].stateType};
    }
    for k := 0 to |a.notificationTargets|
      invariant forall i :: 0 <= i < k ==> Known(families, a.notificationTargets[i])
    {
      if a.notificationTargets[k] !in familyIds {
        return Some(InvalidNotificationTarget(id));
      }
    }
    return None;
  }

  method ValidateDestinations(c: ParentConfig, familyIds: set<FamilyId>) returns (defect: Option<ConfigDefect>)
    requires forall id :: id in familyIds <==> Known(c.families, id)
    ensures defect.None? <==>
      forall i :: 0 <= i < |c.destinations| ==> DestinationAccepted(c.families, c.destinations[i])
    ensures defect.Some? ==> Has(c, defect.value)
  {
    hide IsBlank;
    for k := 0 to |c.destinations|
      invariant forall i :: 0 <= i < k ==> DestinationAccepted(c.families, c.destinations[i])
    {
      var d := c.destinations[k];
      assert d in c.destinations;
      if d.familyId !in familyIds {
        return Some(InvalidDestinationFamily(d.familyId));
      }
      if IsBlank(d.notificationType) || IsBlank(d.destination) {
        return Some(BlankDestination);
      }
    }
    return None;
  }

  method ValidateConfig(c: ParentConfig) returns (defect: Option<ConfigDefect>)
    ensures defect.None? <==> Accepted(c)
    ensures defect.Some? ==> Has(c, defect.value)
  {
    hide ActionAccepted, ActionHas, IsBlank;
    var families := Map(c.families, FAMILY_KEY);
    var familyIds := UniqueIds(families);
    if familyIds.Err? {
      var i, j :| 0 <= i < j < |families| && families[i] == families[j] == familyIds.error;
      assert c.families[i].familyId == c.families[j].familyId;
      return Some(RepeatedFamilyId(familyIds.error));
    }
    forall id ensures id in familyIds.value <==> Known(c.families, id) {}
    var actions := Map(c.actions, CONFIG_KEY);
    var actionIds := UniqueIds(actions);
    if actionIds.Err? {
      var i, j :| 0 <= i < j < |actions| && actions[i] == actions[j] == actionIds.error;
      assert c.actions[i].action.actionId == c.actions[j].action.actionId;
      return Some(RepeatedActionId(actionIds.error));
    }
    for k := 0 to |c.actions|
      invariant forall i :: 0 <= i < k ==> ActionAccepted(c.families, c.actions[i])
    {
      var wrong := ValidateAction(c.families, familyIds.value, c.actions[k]);
      if wrong.Some? {
        assert c.actions[k] in c.actions;
        ActionDefectIsDefect(c, c.actions[k], wrong.value);
        return wrong;
      }
    }
    defect := ValidateDestinations(c, familyIds.value);
  }

  lemma ActionDefectIsDefect(c: ParentConfig, a: ActionConfig, defect: ConfigDefect)
    requires a in c.actions && ActionHas(c.families, a, defect)
    ensures Has(c, defect)
  {}

  // ---- The rows of a configuration ---------------------------------------------------

  function AsChangeRow(id: ActionId): StateChange -> ChangeRow {
    (s: StateChange) => ChangeRow(id, s.stateType, s.stateValue)
  }

  function AsTargetRow(id: ActionId): FamilyId -> TargetRow { (f: FamilyId) => TargetRow(id, f) }

  const AS_ACTION_ROW := (a: ActionConfig) => a.action

  function ChangesOf(a: ActionConfig): seq<ChangeRow> {
    Map(a.stateChanges, AsChangeRow(a.action.actionId))
  }

  function SettingsOf(a: ActionConfig): seq<SettingRow> {
    if a.notificationEnabled || a.notificationMessage.Some?
    then [SettingRow(a.action.actionId, a.notificationEnabled, a.notificationMessage)] else []
  }

  function TargetsOf(a: ActionConfig): seq<TargetRow> {
    Map(a.notificationTargets, AsTargetRow(a.action.actionId))
  }

  function ActionRows(actions: seq<ActionConfig>): seq<ActionRow> { Map(actions, AS_ACTION_ROW) }

  function AllChanges(actions: seq<ActionConfig>): seq<ChangeRow> { FlatMap(actions, ChangesOf) }

  function AllSettings(actions: seq<ActionConfig>): seq<SettingRow> { FlatMap(actions, SettingsOf) }

  function AllTargets(actions: seq<ActionConfig>): seq<TargetRow> { FlatMap(actions, TargetsOf) }

  function DestinationRows(ds: seq<DestinationConfig>, first: nat): (rows: seq<DestinationRow>)
    ensures |rows| == |ds|
    ensures forall i :: 0 <= i < |ds| ==>
      rows[i] == DestinationRow(first + i, ds[i].familyId, ds[i].notificationType, ds[i].destination, ds[i].enabled)
  {
    seq(|ds|, i requires 0 <= i < |ds| =>
      DestinationRow(first + i, ds[i].familyId, ds[i].notificationType, ds[i].destination, ds[i].enabled))
  }

  /** The tables after a configuration was saved over whatever was there. */
  function Stored(c: ParentConfig, nextDestinationId: nat): Tables {
    Tables(c.families, ActionRows(c.actions), AllChanges(c.actions), AllSettings(c.actions), AllTargets(c.actions),
           DestinationRows(c.destinations, nextDestinationId), nextDestinationId + |c.destinations|)
  }

  // ---- Reading back --------------------------------------------------------------------

  const FROM_CHANGE_ROW := (c: ChangeRow) => StateChange(c.stateType, c.stateValue)

  const FROM_DESTINATION_ROW :=
    (d: DestinationRow) => DestinationConfig(d.familyId, d.notificationType, d.destination, d.enabled)

  function LoadAction(t: Tables, a: ActionRow): ActionConfig {
    var setting := GetSetting(t, a.actionId);
    ActionConfig(
      a,
      Map(ListChanges(t, a.actionId), FROM_CHANGE_ROW),
      setting.Some? && setting.value.enabled,
      if setting.Some? then setting.value.message else None,
      Map(ListTargets(t, a.actionId), TARGET_KEY))
  }

  function DestinationsFor(t: Tables, id: FamilyId): seq<DestinationConfig> {
    Map(ListDestinations(t, id), FROM_DESTINATION_ROW)
  }

  function AllDestinations(t: Tables, families: seq<FamilyRow>): seq<DestinationConfig> {
    if families == [] then []
    else AllDestinations(t, families[..|families| - 1]) + DestinationsFor(t, families[|families| - 1].familyId)
  }

  function Load(t: Tables): ParentConfig {
    ParentConfig(ListFamilies(t), Map(ListActions(t), (a: ActionRow) => LoadAction(t, a)),
                 AllDestinations(t, ListFamilies(t)))
  }

  // ---- The normal form -------------------------------------------------------------------

  const STATE_KEY := (s: StateChange) => Rank(s.stateType)
  const ID_KEY := (f: FamilyId) => f
  const CONFIG_KEY := (a: ActionConfig) => a.action.actionId

  function BelongsTo(id: FamilyId): DestinationConfig -> bool { (d: DestinationConfig) => d.familyId == id }

  function NormalAction(a: ActionConfig): ActionConfig {
    a.(stateChanges := SortBy(a.stateChanges, STATE_KEY), notificationTargets := SortBy(a.notificationTargets, ID_KEY))
  }

  function GroupByFamily(families: seq<FamilyRow>, ds: seq<DestinationConfig>): seq<DestinationConfig> {
    if families == [] then []
    else GroupByFamily(families[..|families| - 1], ds)
         + Filter(ds, BelongsTo(families[|families| - 1].familyId))
  }

  /**
  Families and actions by id, state changes by stored name, targets by family id, and
  destinations grouped by family with their relative order kept.
  */
  function Normal(c: ParentConfig): ParentConfig {
    var families := SortBy(c.families, FAMILY_KEY);
    ParentConfig(families, SortBy(Map(c.actions, NormalAction), CONFIG_KEY),
                 GroupByFamily(families, c.destinations))
  }
}
