/**
The hub's configuration tables with the keys, references and checks of the schema,
and the statements that change them. A table is the sequence of its rows in the
order they were inserted.
*/
module HubTables {
  import opened Wrappers
  import opened Messages
  import opened Ordering
  import opened Text

  datatype TargetType = Family | Common
  datatype StateType = EntryPermission | MealNotice | SnackNotice | HelpNotice | Mailbox
  datatype StateValue = Unset | On | Off | Okay | Ng | Meeting

  datatype FamilyRow = FamilyRow(familyId: FamilyId, displayName: string, enabled: bool)
  datatype ActionRow = ActionRow(
    actionId: ActionId, actionName: string, targetType: TargetType, targetFamilyId: Option<FamilyId>,
    webMessage: Option<string>, enabled: bool)
  datatype ChangeRow = ChangeRow(actionId: ActionId, stateType: StateType, stateValue: StateValue)
  datatype SettingRow = SettingRow(actionId: ActionId, enabled: bool, message: Option<string>)
  datatype TargetRow = TargetRow(actionId: ActionId, familyId: FamilyId)
  datatype DestinationRow = DestinationRow(
    id: nat, familyId: FamilyId, notificationType: string, destination: string, enabled: bool)

  /** The six configuration tables and the AUTOINCREMENT counter of the last one. */
  datatype Tables = Tables(
    families: seq<FamilyRow>,
    actions: seq<ActionRow>,
    changes: seq<ChangeRow>,
    settings: seq<SettingRow>,
    targets: seq<TargetRow>,
    destinations: seq<DestinationRow>,
    nextDestinationId: nat)

  // ---- Stored names -----------------------------------------------------------

  function StateTypeName(t: StateType): string {
    match t
    case EntryPermission => "ENTRY_PERMISSION"
    case MealNotice => "MEAL_NOTICE"
    case SnackNotice => "SNACK_NOTICE"
    case HelpNotice => "HELP_NOTICE"
    case Mailbox => "MAILBOX"
  }

  /** The place of a state type in the text order of the stored names. */
  function Rank(t: StateType): nat {
    match t
    case EntryPermission => 0
    case HelpNotice => 1
    case Mailbox => 2
    case MealNotice => 3
    case SnackNotice => 4
  }

  /** Ordering by rank is ordering by stored name. */
  lemma RankOrdersNames(a: StateType, b: StateType)
    ensures Rank(a) < Rank(b) <==> TextLess(StateTypeName(a), StateTypeName(b))
    ensures Rank(a) == Rank(b) <==> StateTypeName(a) == StateTypeName(b)
  {
    var x, y := StateTypeName(a), StateTypeName(b);
    assert a != b ==> x[0] != y[0] || x[1] != y[1];
    if a == b {
      TextNotLessThanItself(x);
    } else {
      assert x[1..][0] == x[1] && y[1..][0] == y[1];
    }
  }

  lemma RankInjective(a: StateType, b: StateType)
    ensures Rank(a) == Rank(b) <==> a == b
  {}

  // ---- Queries ------------------------------------------------------------------

  const FAMILY_KEY := (f: FamilyRow) => f.familyId
  const ACTION_KEY := (a: ActionRow) => a.actionId
  const CHANGE_KEY := (c: ChangeRow) => Rank(c.stateType)
  const TARGET_KEY := (t: TargetRow) => t.familyId
  const DESTINATION_KEY := (d: DestinationRow) => d.id

  ghost predicate HasFamily(t: Tables, id: FamilyId) {
    exists f :: f in t.families && f.familyId == id
  }

  ghost predicate HasAction(t: Tables, id: ActionId) {
    exists a :: a in t.actions && a.actionId == id
  }

  function Find<T>(rows: seq<T>, matches: T -> bool): (r: Option<T>)
    ensures r.Some? ==> r.value in rows && matches(r.value)
    ensures r.None? ==> forall i :: 0 <= i < |rows| ==> !matches(rows[i])
  {
    if rows == [] then None
    else if matches(rows[0]) then Some(rows[0])
    else Find(rows[1..], matches)
  }

  function FamilyIs(id: FamilyId): FamilyRow -> bool { (f: FamilyRow) => f.familyId == id }
  function ActionIs(id: ActionId): ActionRow -> bool { (a: ActionRow) => a.actionId == id }
  function ChangeFor(id: ActionId): ChangeRow -> bool { (c: ChangeRow) => c.actionId == id }
  function SettingFor(id: ActionId): SettingRow -> bool { (s: SettingRow) => s.actionId == id }
  function TargetFor(id: ActionId): TargetRow -> bool { (r: TargetRow) => r.actionId == id }
  function DestinationFor(id: FamilyId): DestinationRow -> bool { (d: DestinationRow) => d.familyId == id }

  function GetFamily(t: Tables, id: FamilyId): Option<FamilyRow> { Find(t.families, FamilyIs(id)) }

  function GetAction(t: Tables, id: ActionId): Option<ActionRow> { Find(t.actions, ActionIs(id)) }

  function GetSetting(t: Tables, id: ActionId): Option<SettingRow> { Find(t.settings, SettingFor(id)) }

  function ListFamilies(t: Tables): seq<FamilyRow> { SortBy(t.families, FAMILY_KEY) }

  function ListActions(t: Tables): seq<ActionRow> { SortBy(t.actions, ACTION_KEY) }

  function ListChanges(t: Tables, id: ActionId): seq<ChangeRow> {
    SortBy(Filter(t.changes, ChangeFor(id)), CHANGE_KEY)
  }

  function ListTargets(t: Tables, id: ActionId): seq<TargetRow> {
    SortBy(Filter(t.targets, TargetFor(id)), TARGET_KEY)
  }

  function ListDestinations(t: Tables, id: FamilyId): seq<DestinationRow> {
    SortBy(Filter(t.destinations, DestinationFor(id)), DESTINATION_KEY)
  }

  // ---- Schema ---------------------------------------------------------------------

  /** The CHECK between target type and target family. */
  predicate TargetCheck(a: ActionRow) {
    a.targetType.Family? == a.targetFamilyId.Some?
  }

  ghost predicate KeysHold(t: Tables) {
    && (forall i, j :: 0 <= i < j < |t.families| ==> t.families[i].familyId != t.families[j].familyId)
    && (forall i, j :: 0 <= i < j < |t.actions| ==> t.actions[i].actionId != t.actions[j].actionId)
    && (forall i, j :: 0 <= i < j < |t.changes| ==>
          t.changes[i].actionId != t.changes[j].actionId || t.changes[i].stateType != t.changes[j].stateType)
    && (forall i, j :: 0 <= i < j < |t.settings| ==> t.settings[i].actionId != t.settings[j].actionId)
    && (forall i, j :: 0 <= i < j < |t.targets| ==> t.targets[i] != t.targets[j])
    && (forall i, j :: 0 <= i < j < |t.destinations| ==> t.destinations[i].id != t.destinations[j].id)
    && (forall d :: d in t.destinations ==> d.id < t.nextDestinationId)
  }

  ghost predicate ReferencesHold(t: Tables) {
    && (forall a :: a in t.actions ==>
          TargetCheck(a) && (a.targetFamilyId.Some? ==> HasFamily(t, a.targetFamilyId.value)))
    && (forall c :: c in t.changes ==> HasAction(t, c.actionId))
    && (forall s :: s in t.settings ==> HasAction(t, s.actionId))
    && (forall r :: r in t.targets ==> HasAction(t, r.actionId) && HasFamily(t, r.familyId))
    && (forall d :: d in t.destinations ==> HasFamily(t, d.familyId))
  }

  ghost predicate Schema(t: Tables) { KeysHold(t) && ReferencesHold(t) }

  // ---- Statements ------------------------------------------------------------------

  datatype Statement =
    | DeleteTargets | DeleteSettings | DeleteChanges | DeleteActions | DeleteDestinations | DeleteFamilies
    | InsertFamily(family: FamilyRow)
    | InsertAction(action: ActionRow)
    | InsertChange(change: ChangeRow)
    | InsertSetting(setting: SettingRow)
    | InsertTarget(target: TargetRow)
    | InsertDestination(familyId: FamilyId, notificationType: string, destination: string, enabled: bool)

  /** Whether a statement breaks no key, reference or check. Deleting actions cascades to their rows. */
  predicate Allowed(t: Tables, stmt: Statement) {
    match stmt
    case DeleteFamilies => forall i :: 0 <= i < |t.actions| ==> t.actions[i].targetFamilyId.None?
    case InsertFamily(f) => GetFamily(t, f.familyId).None?
    case InsertAction(a) =>
      && GetAction(t, a.actionId).None? && TargetCheck(a)
      && (a.targetFamilyId.Some? ==> GetFamily(t, a.targetFamilyId.value).Some?)
    case InsertChange(c) =>
      && GetAction(t, c.actionId).Some?
      && forall i :: 0 <= i < |t.changes| ==>
          t.changes[i].actionId != c.actionId || t.changes[i].stateType != c.stateType
    case InsertSetting(s) => GetSetting(t, s.actionId).None? && GetAction(t, s.actionId).Some?
    case InsertTarget(r) => r !in t.targets && GetAction(t, r.actionId).Some? && GetFamily(t, r.familyId).Some?
    case InsertDestination(f, _, _, _) => GetFamily(t, f).Some?
    case _ => true
  }

  function Perform(t: Tables, stmt: Statement): Tables {
    match stmt
    case DeleteTargets => t.(targets := [])
    case DeleteSettings => t.(settings := [])
    case DeleteChanges => t.(changes := [])
    case DeleteActions => t.(actions := [], changes := [], settings := [], targets := [])
    case DeleteDestinations => t.(destinations := [])
    case DeleteFamilies => t.(families := [], targets := [], destinations := [])
    case InsertFamily(f) => t.(families := t.families + [f])
    case InsertAction(a) => t.(actions := t.actions + [a])
    case InsertChange(c) => t.(changes := t.changes + [c])
    case InsertSetting(s) => t.(settings := t.settings + [s])
    case InsertTarget(r) => t.(targets := t.targets + [r])
    case InsertDestination(f, kind, to, enabled) =>
      t.(destinations := t.destinations + [DestinationRow(t.nextDestinationId, f, kind, to, enabled)],
         nextDestinationId := t.nextDestinationId + 1)
  }

  lemma PerformKeepsKeys(t: Tables, stmt: Statement)
    requires KeysHold(t) && Allowed(t, stmt)
    ensures KeysHold(Perform(t, stmt))
  {}

  lemma PerformKeepsReferences(t: Tables, stmt: Statement)
    requires ReferencesHold(t) && Allowed(t, stmt)
    ensures ReferencesHold(Perform(t, stmt))
  {
    var t' := Perform(t, stmt);
    if stmt.InsertFamily? {
      forall id | HasFamily(t, id) ensures HasFamily(t', id) {
        var f :| f in t.families && f.familyId == id;
        assert f in t'.families;
      }
    }
    if stmt.InsertAction? {
      forall id | HasAction(t, id) ensures HasAction(t', id) {
        var a :| a in t.actions && a.actionId == id;
        assert a in t'.actions;
      }
    }
  }

  /** Every statement the constraints allow keeps the schema. */
  lemma PerformKeepsSchema(t: Tables, stmt: Statement)
    requires Schema(t) && Allowed(t, stmt)
    ensures Schema(Perform(t, stmt))
  {
    hide KeysHold, ReferencesHold, Perform, Allowed;
    PerformKeepsKeys(t, stmt);
    PerformKeepsReferences(t, stmt);
  }
}
