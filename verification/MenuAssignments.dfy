/**
 Menu assignments of the elements of a plan (space-menus.service.ts), and what plan operations
 leave of them.
 */
module MenuAssignments {
  import opened Common
  import opened FloorPlan
  import opened FloorPlanSave
  import opened FloorPlanGuarantees
  import opened FloorPlanOps

  type MenuMap = map<Id, map<Id, bool>>

  /** The element is given a non-empty map. */
  predicate Given(m: MenuMap, e: Id) {
    e in m && m[e] != map[]
  }

  function Pairs(m: MenuMap): (s: set<(Id, Id)>) {
    set e, i | e in m && i in m[e] :: (e, i)
  }

  /** The upserts need their element and their menu item to exist. */
  predicate References(db: Db, catalog: set<Id>, m: MenuMap) {
    forall e :: e in m && m[e] != map[] ==> e in db.elements && m[e].Keys <= catalog
  }

  /** The assignments of a given element become its map; those of every other element stay. */
  function SavedMenus(menus: map<(Id, Id), bool>, m: MenuMap): (r: map<(Id, Id), bool>) {
    map k | k in menus.Keys + Pairs(m) && (Given(m, k.0) ==> k.1 in m[k.0]) :: if Given(m, k.0) then m[k.0][k.1]
        else menus[k]
  }

  function MenuOf(menus: map<(Id, Id), bool>, e: Id): (r: map<Id, bool>) {
    map k | k in menus && k.0 == e :: k.1 := menus[k]
  }

  /** `getMenuConfiguration`: the assignments of the configuration's elements that have any. */
  function LoadedMenus(db: Db, c: Id): (r: MenuMap) {
    map e | e in Existing(db, c) && MenuOf(db.menus, e) != map[] :: MenuOf(db.menus, e)
  }

  /** Saving keeps the references of the table sound. */
  lemma {:induction false} SavedMenusValid(db: Db, catalog: set<Id>, m: MenuMap)
    requires Valid(db) && References(db, catalog, m)
    ensures Valid(db.(menus := SavedMenus(db.menus, m)))
  {
  }

  /** Right after the save each given element has exactly its map, and any other what it had. */
  lemma {:induction false} SavedMenuOf(menus: map<(Id, Id), bool>, m: MenuMap, e: Id)
    ensures MenuOf(SavedMenus(menus, m), e) == if Given(m, e) then m[e] else MenuOf(menus, e)
  {
    var saved, expected := SavedMenus(menus, m), if Given(m, e) then m[e] else MenuOf(menus, e);
    forall i: Id
      ensures (e, i) in saved <==> i in expected
      ensures (e, i) in saved ==> saved[(e, i)] == expected[i]
    {
      SavedMenuAt(menus, m, e, i);
      MenuOfAt(menus, e, i);
    }
    MenuOfIs(saved, e, expected);
  }

  lemma {:induction false} SavedMenuAt(menus: map<(Id, Id), bool>, m: MenuMap, e: Id, i: Id)
    ensures (e, i) in SavedMenus(menus, m) <==> if Given(m, e) then i in m[e] else (e, i) in menus
    ensures (e, i) in SavedMenus(menus, m) ==> SavedMenus(menus, m)[(e, i)] == if Given(m, e) then m[e][i]
            else menus[(e, i)]
  {
  }

  lemma {:induction false} MenuOfAt(menus: map<(Id, Id), bool>, e: Id, i: Id)
    ensures i in MenuOf(menus, e) <==> (e, i) in menus
    ensures i in MenuOf(menus, e) ==> MenuOf(menus, e)[i] == menus[(e, i)]
  {
  }

  lemma {:induction false} MenuOfIs(menus: map<(Id, Id), bool>, e: Id, expected: map<Id, bool>)
    requires forall i: Id :: (e, i) in menus <==> i in expected
    requires forall i: Id :: (e, i) in menus ==> menus[(e, i)] == expected[i]
    ensures MenuOf(menus, e) == expected
  {
  }

  // ----- Over runs of plan operations ---------------------------------------------------------------

  ghost predicate SameMenu(before: Db, after: Db, e: Id) {
    forall i: Id :: ((e, i) in after.menus <==> (e, i) in before.menus)
        && ((e, i) in after.menus ==> after.menus[(e, i)] == before.menus[(e, i)])
  }

  lemma {:induction false} SavePlanKeepsMenu(db: Db, c: Id, space: Id, data: PlanJson, q: Query, e: Id)
    requires Sound(db) && Answers(db, c, q)
    ensures var r := SavePlan(db, c, space, data, q); r.Ok? && e in r.value.db.elements ==> SameMenu(db, r.value.db, e)
  {
    WithConfigSound(db, c, space, data);
    WithConfigAnswers(db, c, space, data, q);
    SavedKeepsMenu(db, WithConfig(db, c, space, data), c, data, q, e);
  }

  lemma {:induction false} SavedKeepsMenu(db: Db, upserted: Db, c: Id, data: PlanJson, q: Query, e: Id)
    requires SaveReady(upserted, c, q) && upserted.menus == db.menus
    ensures e in SaveInto(upserted, c, data, q).db.elements ==> SameMenu(db, SaveInto(upserted, c, data, q).db, e)
  {
    DeletedExactly(upserted, c, data, q, e);
    if e in SaveInto(upserted, c, data, q).db.elements {
      forall i: Id ensures (e, i) in SaveInto(upserted, c, data, q).db.menus <==> (e, i) in db.menus {
        SaveKeepsMenus(upserted, c, data, q, e, i);
        assert (e, i) in db.menus ==> e in upserted.elements;
      }
    }
  }

  lemma {:induction false} DeleteMappingKeepsMenu(db: Db, location: string, e: Id)
    requires e in DeleteMapping(db, location).elements
    ensures SameMenu(db, DeleteMapping(db, location), e)
  {
  }

  /** The operations that create or move elements touch no assignment. */
  lemma {:induction false} PlacingKeepsMenus(db: Db, op: Op)
    requires Possible(db, op)
             && (op.QuickCreateOp? || op.AssignToFloorOp? || op.AssignToForecourtOp? || op.CreateMappingOp?)
    ensures Perform(db, op).menus == db.menus
  {
  }

  lemma {:induction false} PerformKeepsMenu(db: Db, op: Op, e: Id)
    requires Sound(db) && Possible(db, op) && e in Perform(db, op).elements
    ensures SameMenu(db, Perform(db, op), e)
  {
    if op.SavePlanOp? {
      SavePlanKeepsMenu(db, op.config, op.space, op.data, op.q, e);
    } else if op.DeleteMappingOp? {
      DeleteMappingKeepsMenu(db, op.location, e);
    } else {
      PlacingKeepsMenus(db, op);
    }
  }

  /** Whatever plan operations run, an element that stays keeps its assignments. */
  lemma {:induction false} RunKeepsMenu(states: seq<Db>, ops: seq<Op>, e: Id)
    requires Run(states, ops) && Sound(states[0]) && forall k :: 0 <= k <= |ops| ==> e in states[k].elements
    ensures SameMenu(states[0], states[|ops|], e)
  {
    if ops != [] {
      var n := |ops| - 1;
      RunKeepsMenu(states[..n + 1], ops[..n], e);
      RunKeepsMappings(states[..n + 1], ops[..n]);
      assert states[n + 1] == Perform(states[n], ops[n]) && e in states[n + 1].elements;
      PerformKeepsMenu(states[n], ops[n], e);
    }
  }

  /**
   After saving a menu map, and then any run of plan operations that keeps the element, loading the
   menus of a configuration that holds it gives exactly the saved map for a given element, and what
   it had before for any other.
   */
  lemma {:induction false} MenuSurvives(db: Db, catalog: set<Id>, m: MenuMap, states: seq<Db>, ops: seq<Op>, c: Id,
                                        e: Id)
    requires Sound(db) && References(db, catalog, m) && Run(states, ops)
             && states[0] == db.(menus := SavedMenus(db.menus, m))
    requires (forall k :: 0 <= k <= |ops| ==> e in states[k].elements) && e in Existing(states[|ops|], c)
    ensures var loaded, expected := LoadedMenus(states[|ops|], c), if Given(m, e) then m[e] else MenuOf(db.menus, e);
            if expected == map[] then e !in loaded else e in loaded && loaded[e] == expected
  {
    SavedMenusValid(db, catalog, m);
    RunKeepsMenu(states, ops, e);
    SavedMenuOf(db.menus, m, e);
    SameMenuOf(states[0], states[|ops|], e);
  }

  lemma {:induction false} SameMenuOf(before: Db, after: Db, e: Id)
    requires SameMenu(before, after, e)
    ensures MenuOf(after.menus, e) == MenuOf(before.menus, e)
  {
  }
}
