/** Saving and loading a configuration: the round trip, and the laws of the normal form. */
module HubConfigTheorems {
  import opened Wrappers
  import opened Messages
  import opened Ordering
  import opened HubTables
  import opened HubConfig
  import HubTransaction
  import Text

  // ---- The rows of one action among the rows of all ------------------------------

  /** Every table gives an action exactly the rows it contributed. */
  lemma RowsOfOne(actions: seq<ActionConfig>, i: nat)
    requires DistinctBy(actions, CONFIG_KEY) && i < |actions|
    ensures var a := actions[i];
      && Filter(AllChanges(actions), ChangeFor(a.action.actionId)) == ChangesOf(a)
      && Filter(AllTargets(actions), TargetFor(a.action.actionId)) == TargetsOf(a)
      && Filter(AllSettings(actions), SettingFor(a.action.actionId)) == SettingsOf(a)
  {
    hide Filter, FlatMap;
    assert forall j :: 0 <= j < |actions| ==> (CONFIG_KEY(actions[j]) == CONFIG_KEY(actions[i]) <==> j == i);
    FilterFlatMap(actions, i, ChangesOf, ChangeFor(actions[i].action.actionId));
    FilterFlatMap(actions, i, TargetsOf, TargetFor(actions[i].action.actionId));
    FilterFlatMap(actions, i, SettingsOf, SettingFor(actions[i].action.actionId));
  }

  lemma SettingFound(actions: seq<ActionConfig>, i: nat)
    requires DistinctBy(actions, CONFIG_KEY) && i < |actions|
    ensures var found := Find(AllSettings(actions), SettingFor(actions[i].action.actionId));
      if SettingsOf(actions[i]) == [] then found.None? else found == Some(SettingsOf(actions[i])[0])
  {
    var a := actions[i];
    var rows, keep := AllSettings(actions), SettingFor(a.action.actionId);
    RowsOfOne(actions, i);
    FilterElements(rows, keep);
    if SettingsOf(a) != [] {
      assert SettingsOf(a)[0] in Filter(rows, keep);
    }
    var found := Find(rows, keep);
    if found.Some? {
      assert found.value in Filter(rows, keep);
    }
  }

  // ---- The round trip -----------------------------------------------------------------

  lemma ActionLoads(c: ParentConfig, next: nat, i: nat)
    requires DistinctActions(c) && i < |c.actions|
    ensures LoadAction(Stored(c, next), c.actions[i].action) == NormalAction(c.actions[i])
  {
    var a := c.actions[i];
    var id := a.action.actionId;
    RowsOfOne(c.actions, i);
    SettingFound(c.actions, i);
    SortCommutesWithMap(a.stateChanges, AsChangeRow(id), STATE_KEY, CHANGE_KEY);
    SortCommutesWithMap(a.notificationTargets, AsTargetRow(id), ID_KEY, TARGET_KEY);
    assert Map(SortBy(ChangesOf(a), CHANGE_KEY), FROM_CHANGE_ROW) == SortBy(a.stateChanges, STATE_KEY);
    assert Map(SortBy(TargetsOf(a), TARGET_KEY), TARGET_KEY) == SortBy(a.notificationTargets, ID_KEY);
  }

  lemma ListedActions(actions: seq<ActionConfig>)
    ensures SortBy(ActionRows(actions), ACTION_KEY) == Map(SortBy(actions, CONFIG_KEY), AS_ACTION_ROW)
    ensures SortBy(Map(actions, NormalAction), CONFIG_KEY) == Map(SortBy(actions, CONFIG_KEY), NormalAction)
  {
    hide SortBy;
    SortCommutesWithMap(actions, AS_ACTION_ROW, CONFIG_KEY, ACTION_KEY);
    SortCommutesWithMap(actions, NormalAction, CONFIG_KEY, CONFIG_KEY);
  }

  lemma ActionsLoad(c: ParentConfig, next: nat)
    requires DistinctActions(c)
    ensures Load(Stored(c, next)).actions == Normal(c).actions
  {
    hide SortBy, LoadAction, NormalAction, GroupByFamily, AllDestinations;
    var sorted := SortBy(c.actions, CONFIG_KEY);
    ListedActions(c.actions);
    SameElements(c.actions, CONFIG_KEY);
    var loaded := Load(Stored(c, next)).actions;
    forall k | 0 <= k < |sorted| ensures loaded[k] == NormalAction(sorted[k]) {
      assert sorted[k] in sorted;
      var i :| 0 <= i < |c.actions| && c.actions[i] == sorted[k];
      ActionLoads(c, next, i);
    }
    assert loaded == Map(sorted, NormalAction);
  }

  lemma DestinationsLoad(ds: seq<DestinationConfig>, next: nat, id: FamilyId)
    ensures Map(SortBy(Filter(DestinationRows(ds, next), DestinationFor(id)), DESTINATION_KEY), FROM_DESTINATION_ROW)
         == Filter(ds, BelongsTo(id))
  {
    var rows := DestinationRows(ds, next);
    FilterKeepsSorted(rows, DestinationFor(id), DESTINATION_KEY);
    SortOfSorted(Filter(rows, DestinationFor(id)), DESTINATION_KEY);
    FilterCommutesWithMap(rows, FROM_DESTINATION_ROW, DestinationFor(id), BelongsTo(id));
    assert Map(rows, FROM_DESTINATION_ROW) == ds;
  }

  lemma {:induction false} AllDestinationsLoad(c: ParentConfig, next: nat, families: seq<FamilyRow>)
    ensures AllDestinations(Stored(c, next), families) == GroupByFamily(families, c.destinations)
  {
    if families != [] {
      AllDestinationsLoad(c, next, families[..|families| - 1]);
      DestinationsLoad(c.destinations, next, families[|families| - 1].familyId);
    }
  }

  /** What was saved is loaded back as exactly its normal form. */
  lemma SaveThenLoad(c: ParentConfig, next: nat)
    requires Accepted(c)
    ensures Load(Stored(c, next)) == Normal(c)
  {
    ActionsLoad(c, next);
    AllDestinationsLoad(c, next, SortBy(c.families, FAMILY_KEY));
  }

  /** The two commands in sequence: what is read after an accepted save is the normal form of what was
      given, and after a refused one what was there before. */
  method SetThenGet(db: HubTransaction.Connection, c: ParentConfig)
    returns (saved: Result<(), HubTransaction.SaveError>, loaded: Option<ParentConfig>)
    modifies db`tables, db`executed
    ensures loaded.Some? ==> loaded.value == if saved.Ok? then Normal(c) else Load(old(db.tables))
    ensures saved.Ok? ==> Storable(c)
    ensures HubTransaction.NoFaults(db.faults) ==> (saved.Ok? <==> Storable(c)) && loaded.Some?
  {
    hide Load, Normal, Stored, Storable;
    ghost var next := db.tables.nextDestinationId;
    saved := db.SaveConfig(c);
    loaded := db.LoadConfig();
    if saved.Ok? {
      assert Accepted(c) by { StorableIsAccepted(c); }
      SaveThenLoad(c, next);
    }
  }

  lemma StorableIsAccepted(c: ParentConfig)
    requires Storable(c)
    ensures Accepted(c)
  {}

  // ---- Laws of the normal form -----------------------------------------------------------

  lemma FilterTwice(ds: seq<DestinationConfig>, a: FamilyId, b: FamilyId)
    ensures Filter(Filter(ds, BelongsTo(a)), BelongsTo(b)) == if a == b then Filter(ds, BelongsTo(a)) else []
  {
    var own := Filter(ds, BelongsTo(a));
    FilterElements(ds, BelongsTo(a));
    assert forall i :: 0 <= i < |own| ==> own[i] in own;
    if a == b {
      FilterAll(own, BelongsTo(b));
    } else {
      FilterNone(own, BelongsTo(b));
    }
  }

  lemma KnownSnoc(init: seq<FamilyRow>, last: FamilyRow, id: FamilyId)
    ensures Known(init + [last], id) <==> Known(init, id) || last.familyId == id
    ensures DistinctBy(init + [last], FAMILY_KEY) ==> DistinctBy(init, FAMILY_KEY) && !Known(init, last.familyId)
  {
    var all := init + [last];
    assert all[|init|] == last;
    if Known(init, id) {
      var i :| 0 <= i < |init| && init[i].familyId == id;
      assert all[i].familyId == id;
    }
    if DistinctBy(all, FAMILY_KEY) {
      forall i | 0 <= i < |init| ensures init[i].familyId != last.familyId {
        assert FAMILY_KEY(all[i]) != FAMILY_KEY(all[|init|]);
      }
      forall i, j | 0 <= i < j < |init| ensures FAMILY_KEY(init[i]) != FAMILY_KEY(init[j]) {
        assert FAMILY_KEY(all[i]) != FAMILY_KEY(all[j]);
      }
    }
  }

  lemma GroupSnoc(init: seq<FamilyRow>, last: FamilyRow, ds: seq<DestinationConfig>, id: FamilyId)
    ensures Filter(GroupByFamily(init + [last], ds), BelongsTo(id))
         == Filter(GroupByFamily(init, ds), BelongsTo(id))
            + if id == last.familyId then Filter(ds, BelongsTo(id)) else []
  {
    hide Filter;
    assert (init + [last])[..|init|] == init;
    FilterConcat(GroupByFamily(init, ds), Filter(ds, BelongsTo(last.familyId)), BelongsTo(id));
    FilterTwice(ds, last.familyId, id);
  }

  lemma {:induction false} GroupFilter(families: seq<FamilyRow>, ds: seq<DestinationConfig>, id: FamilyId)
    requires DistinctBy(families, FAMILY_KEY)
    ensures Filter(GroupByFamily(families, ds), BelongsTo(id))
         == if Known(families, id) then Filter(ds, BelongsTo(id)) else []
  {
    if families == [] {
      assert GroupByFamily(families, ds) == [];
    } else {
      hide *;
      var init, last := families[..|families| - 1], families[|families| - 1];
      assert families == init + [last];
      KnownSnoc(init, last, id);
      GroupFilter(init, ds, id);
      GroupSnoc(init, last, ds, id);
    }
  }

  lemma {:induction false} GroupTwice(families: seq<FamilyRow>, some: seq<FamilyRow>, ds: seq<DestinationConfig>)
    requires DistinctBy(families, FAMILY_KEY) && forall f :: f in some ==> f in families
    ensures GroupByFamily(some, GroupByFamily(families, ds)) == GroupByFamily(some, ds)
  {
    if some != [] {
      var last := some[|some| - 1];
      GroupTwice(families, some[..|some| - 1], ds);
      GroupFilter(families, ds, last.familyId);
      assert last in families;
      var i :| 0 <= i < |families| && families[i] == last;
      assert families[i].familyId == last.familyId;
    }
  }

  lemma NormalActionTwice(a: ActionConfig)
    ensures NormalAction(NormalAction(a)) == NormalAction(a)
  {
    SortIdempotent(a.stateChanges, STATE_KEY);
    SortIdempotent(a.notificationTargets, ID_KEY);
  }

  /** Normalising is idempotent. */
  lemma NormalTwice(c: ParentConfig)
    requires DistinctFamilies(c)
    ensures Normal(Normal(c)) == Normal(c)
  {
    hide SortBy, NormalAction, GroupByFamily;
    var families := SortBy(c.families, FAMILY_KEY);
    SortIdempotent(c.families, FAMILY_KEY);
    SortKeepsDistinct(c.families, FAMILY_KEY);
    GroupTwice(families, families, c.destinations);
    var mapped := Map(c.actions, NormalAction);
    var n := Normal(c).actions;
    SameElements(mapped, CONFIG_KEY);
    forall k | 0 <= k < |n| ensures Map(n, NormalAction)[k] == n[k] {
      assert n[k] in n;
      var i :| 0 <= i < |mapped| && mapped[i] == n[k];
      NormalActionTwice(c.actions[i]);
    }
    assert Map(n, NormalAction) == n;
    SortIdempotent(mapped, CONFIG_KEY);
  }

  lemma SortedFamiliesKnown(families: seq<FamilyRow>, id: FamilyId)
    ensures Known(SortBy(families, FAMILY_KEY), id) <==> Known(families, id)
  {
    var sorted := SortBy(families, FAMILY_KEY);
    SameElements(families, FAMILY_KEY);
    if Known(families, id) {
      var i :| 0 <= i < |families| && families[i].familyId == id;
      assert families[i] in sorted;
      var k :| 0 <= k < |sorted| && sorted[k] == families[i];
      assert sorted[k].familyId == id;
    }
    if Known(sorted, id) {
      var k :| 0 <= k < |sorted| && sorted[k].familyId == id;
      assert sorted[k] in families;
      var i :| 0 <= i < |families| && families[i] == sorted[k];
      assert families[i].familyId == id;
    }
  }

  lemma NormalActionStorable(families: seq<FamilyRow>, a: ActionConfig)
    requires ActionAccepted(families, a) && DistinctTargets(a)
    ensures ActionAccepted(SortBy(families, FAMILY_KEY), NormalAction(a)) && DistinctTargets(NormalAction(a))
  {
    var n := NormalAction(a);
    forall id ensures Known(SortBy(families, FAMILY_KEY), id) <==> Known(families, id) {
      SortedFamiliesKnown(families, id);
    }
    forall i, j | 0 <= i < j < |a.stateChanges| ensures STATE_KEY(a.stateChanges[i]) != STATE_KEY(a.stateChanges[j]) {
      RankInjective(a.stateChanges[i].stateType, a.stateChanges[j].stateType);
    }
    SortKeepsDistinct(a.stateChanges, STATE_KEY);
    assert DistinctBy(a.notificationTargets, ID_KEY);
    SortKeepsDistinct(a.notificationTargets, ID_KEY);
    forall i, j | 0 <= i < j < |n.notificationTargets| ensures n.notificationTargets[i] != n.notificationTargets[j] {
      assert ID_KEY(n.notificationTargets[i]) != ID_KEY(n.notificationTargets[j]);
    }
    forall i, j | 0 <= i < j < |n.stateChanges| ensures n.stateChanges[i].stateType != n.stateChanges[j].stateType {
      assert STATE_KEY(n.stateChanges[i]) != STATE_KEY(n.stateChanges[j]);
    }
    SameElements(a.notificationTargets, ID_KEY);
    forall i | 0 <= i < |n.notificationTargets| ensures Known(families, n.notificationTargets[i]) {
      assert n.notificationTargets[i] in n.notificationTargets;
    }
  }

  lemma {:induction false} GroupedElements(families: seq<FamilyRow>, ds: seq<DestinationConfig>)
    ensures forall d :: d in GroupByFamily(families, ds) ==> d in ds
  {
    if families != [] {
      GroupedElements(families[..|families| - 1], ds);
      FilterElements(ds, BelongsTo(families[|families| - 1].familyId));
    }
  }

  lemma NormalDistinct(c: ParentConfig)
    requires DistinctFamilies(c) && DistinctActions(c)
    ensures DistinctFamilies(Normal(c)) && DistinctActions(Normal(c))
  {
    hide SortBy, NormalAction, GroupByFamily;
    assert DistinctBy(c.families, FAMILY_KEY);
    SortKeepsDistinct(c.families, FAMILY_KEY);
    var mapped := Map(c.actions, NormalAction);
    assert DistinctBy(mapped, CONFIG_KEY) by {
      forall i, j | 0 <= i < j < |mapped| ensures CONFIG_KEY(mapped[i]) != CONFIG_KEY(mapped[j]) {
        NormalActionKeepsId(c.actions[i]);
        NormalActionKeepsId(c.actions[j]);
      }
    }
    SortKeepsDistinct(mapped, CONFIG_KEY);
    var n := Normal(c);
    forall i, j | 0 <= i < j < |n.actions| ensures n.actions[i].action.actionId != n.actions[j].action.actionId {
      assert CONFIG_KEY(n.actions[i]) != CONFIG_KEY(n.actions[j]);
    }
    forall i, j | 0 <= i < j < |n.families| ensures n.families[i].familyId != n.families[j].familyId {
      assert FAMILY_KEY(n.families[i]) != FAMILY_KEY(n.families[j]);
    }
  }

  lemma NormalActionKeepsId(a: ActionConfig)
    ensures NormalAction(a).action == a.action
  {}

  /** The normal form of a storable configuration is storable. */
  lemma NormalStorable(c: ParentConfig)
    requires Storable(c)
    ensures Storable(Normal(c))
  {
    hide SortBy, NormalAction, GroupByFamily, ActionAccepted, DistinctTargets;
    var n := Normal(c);
    NormalDistinct(c);
    var mapped := Map(c.actions, NormalAction);
    SameElements(mapped, CONFIG_KEY);
    forall k | 0 <= k < |n.actions| ensures ActionAccepted(n.families, n.actions[k]) && DistinctTargets(n.actions[k]) {
      assert n.actions[k] in n.actions;
      var i :| 0 <= i < |mapped| && mapped[i] == n.actions[k];
      NormalActionStorable(c.families, c.actions[i]);
    }
    GroupedElements(n.families, c.destinations);
    forall k | 0 <= k < |n.destinations| ensures DestinationAccepted(n.families, n.destinations[k]) {
      assert n.destinations[k] in n.destinations;
      var i :| 0 <= i < |c.destinations| && c.destinations[i] == n.destinations[k];
      SortedFamiliesKnown(c.families, c.destinations[i].familyId);
    }
  }

  /** Saving the normal form loads back unchanged. */
  lemma NormalFormIsFixed(c: ParentConfig, next: nat)
    requires Storable(c)
    ensures Storable(Normal(c)) && Load(Stored(Normal(c), next)) == Normal(c)
  {
    NormalStorable(c);
    SaveThenLoad(Normal(c), next);
    NormalTwice(c);
  }

  /** The normal form orders what it must and invents or loses nothing. */
  lemma NormalIsSortedPermutation(c: ParentConfig)
    requires DistinctFamilies(c) && DistinctActions(c)
    ensures var n := Normal(c);
      && (forall i, j :: 0 <= i < j < |n.families| ==> n.families[i].familyId < n.families[j].familyId)
      && multiset(n.families) == multiset(c.families)
      && (forall i, j :: 0 <= i < j < |n.actions| ==> n.actions[i].action.actionId < n.actions[j].action.actionId)
      && multiset(n.actions) == multiset(Map(c.actions, NormalAction))
      && forall id :: Known(c.families, id) ==>
           Filter(n.destinations, BelongsTo(id)) == Filter(c.destinations, BelongsTo(id))
  {
    hide SortBy, NormalAction, GroupByFamily;
    var n := Normal(c);
    NormalDistinct(c);
    SortBySorts(c.families, FAMILY_KEY);
    SortBySorts(Map(c.actions, NormalAction), CONFIG_KEY);
    forall i, j | 0 <= i < j < |n.families| ensures n.families[i].familyId < n.families[j].familyId {
      assert FAMILY_KEY(n.families[i]) <= FAMILY_KEY(n.families[j]);
    }
    forall i, j | 0 <= i < j < |n.actions| ensures n.actions[i].action.actionId < n.actions[j].action.actionId {
      assert CONFIG_KEY(n.actions[i]) <= CONFIG_KEY(n.actions[j]);
    }
    assert DistinctBy(n.families, FAMILY_KEY);
    forall id | Known(c.families, id)
      ensures Filter(n.destinations, BelongsTo(id)) == Filter(c.destinations, BelongsTo(id))
    {
      SortedFamiliesKnown(c.families, id);
      GroupFilter(n.families, c.destinations, id);
    }
  }

  /** The normal form of an action keeps every field and every element; state changes stand in the order of their
      stored names, notification targets in that of their ids. */
  lemma NormalActionIsSortedPermutation(a: ActionConfig)
    ensures var n := NormalAction(a);
      && n.action == a.action && n.notificationEnabled == a.notificationEnabled
      && n.notificationMessage == a.notificationMessage
      && multiset(n.stateChanges) == multiset(a.stateChanges)
      && multiset(n.notificationTargets) == multiset(a.notificationTargets)
      && (forall i, j :: 0 <= i < j < |n.stateChanges| ==>
            !Text.TextLess(StateTypeName(n.stateChanges[j].stateType), StateTypeName(n.stateChanges[i].stateType)))
      && (forall i, j :: 0 <= i < j < |n.notificationTargets| ==> n.notificationTargets[i] <= n.notificationTargets[j])
  {
    hide SortBy, StateTypeName;
    var n := NormalAction(a);
    SortBySorts(a.stateChanges, STATE_KEY);
    SortBySorts(a.notificationTargets, ID_KEY);
    forall i, j | 0 <= i < j < |n.stateChanges|
      ensures !Text.TextLess(StateTypeName(n.stateChanges[j].stateType), StateTypeName(n.stateChanges[i].stateType))
    {
      assert STATE_KEY(n.stateChanges[i]) <= STATE_KEY(n.stateChanges[j]);
      RankOrdersNames(n.stateChanges[j].stateType, n.stateChanges[i].stateType);
    }
    forall i, j | 0 <= i < j < |n.notificationTargets| ensures n.notificationTargets[i] <= n.notificationTargets[j] {
      assert ID_KEY(n.notificationTargets[i]) <= ID_KEY(n.notificationTargets[j]);
    }
  }

  /** The destinations of one list stand by family. */
  ghost predicate ByFamily(ds: seq<DestinationConfig>) {
    forall i, j :: 0 <= i <= j < |ds| ==> ds[i].familyId <= ds[j].familyId
  }

  lemma ByFamilySnoc(before: seq<DestinationConfig>, own: seq<DestinationConfig>, id: FamilyId)
    requires ByFamily(before) && (forall i :: 0 <= i < |before| ==> before[i].familyId <= id)
    requires forall i :: 0 <= i < |own| ==> own[i].familyId == id
    ensures ByFamily(before + own) && forall i :: 0 <= i < |before + own| ==> (before + own)[i].familyId <= id
  {}

  lemma OwnFamily(ds: seq<DestinationConfig>, id: FamilyId)
    ensures forall i :: 0 <= i < |Filter(ds, BelongsTo(id))| ==> Filter(ds, BelongsTo(id))[i].familyId == id
  {
    FilterElements(ds, BelongsTo(id));
    hide Filter;
    var own := Filter(ds, BelongsTo(id));
    forall i | 0 <= i < |own| ensures own[i].familyId == id {
      assert own[i] in own;
    }
  }

  lemma {:induction false} GroupsAreSorted(families: seq<FamilyRow>, ds: seq<DestinationConfig>, bound: FamilyId)
    requires Sorted(families, FAMILY_KEY) && forall i :: 0 <= i < |families| ==> families[i].familyId <= bound
    ensures ByFamily(GroupByFamily(families, ds))
    ensures forall i :: 0 <= i < |GroupByFamily(families, ds)| ==> GroupByFamily(families, ds)[i].familyId <= bound
  {
    hide Filter;
    if families != [] {
      hide ByFamily;
      var init, last := families[..|families| - 1], families[|families| - 1];
      forall i | 0 <= i < |init| ensures init[i].familyId <= last.familyId {
        assert FAMILY_KEY(families[i]) <= FAMILY_KEY(families[|families| - 1]);
      }
      GroupsAreSorted(init, ds, last.familyId);
      OwnFamily(ds, last.familyId);
      ByFamilySnoc(GroupByFamily(init, ds), Filter(ds, BelongsTo(last.familyId)), last.familyId);
    }
  }

  lemma NormalStandsByFamily(c: ParentConfig)
    ensures ByFamily(Normal(c).destinations)
  {
    hide SortBy, GroupByFamily, ByFamily;
    SortBySorts(c.families, FAMILY_KEY);
    var families := SortBy(c.families, FAMILY_KEY);
    if families == [] {
      GroupsAreSorted(families, c.destinations, 0);
    } else {
      var last := families[|families| - 1];
      forall i | 0 <= i < |families| ensures families[i].familyId <= last.familyId {
        assert i < |families| - 1 ==> FAMILY_KEY(families[i]) <= FAMILY_KEY(last);
      }
      GroupsAreSorted(families, c.destinations, last.familyId);
    }
  }

  lemma NormalKeepsFamily(c: ParentConfig, id: FamilyId)
    requires Accepted(c) && Known(c.families, id)
    ensures Filter(Normal(c).destinations, BelongsTo(id)) == Filter(c.destinations, BelongsTo(id))
  {
    NormalIsSortedPermutation(c);
  }

  lemma NormalKeepsCopies(c: ParentConfig, d: DestinationConfig)
    requires Accepted(c)
    ensures multiset(Normal(c).destinations)[d] == multiset(c.destinations)[d]
  {
    hide SortBy, GroupByFamily, Filter;
    GroupedElements(SortBy(c.families, FAMILY_KEY), c.destinations);
    if Known(c.families, d.familyId) {
      NormalKeepsFamily(c, d.familyId);
      FilterCount(Normal(c).destinations, BelongsTo(d.familyId), d);
      FilterCount(c.destinations, BelongsTo(d.familyId), d);
    } else {
      assert d !in c.destinations;
      assert d !in Normal(c).destinations;
    }
  }

  /** The destinations of the normal form stand by family, and none is lost or added. */
  lemma NormalDestinations(c: ParentConfig)
    requires Accepted(c)
    ensures ByFamily(Normal(c).destinations) && multiset(Normal(c).destinations) == multiset(c.destinations)
  {
    hide Normal, Accepted, ByFamily;
    NormalStandsByFamily(c);
    forall d ensures multiset(Normal(c).destinations)[d] == multiset(c.destinations)[d] {
      NormalKeepsCopies(c, d);
    }
  }
}
