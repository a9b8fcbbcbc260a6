/**
 The agreement of JSON and rows, which loading and saving relies on, under the operations that
 change both: quick creation and the deletion of a mapping keep it, and the two assignments keep it
 exactly under conditions on the JSON forecourt.
 */
module FloorPlanAgreement {
  import opened Common
  import opened FloorPlan
  import opened FloorPlanSave
  import opened FloorPlanLoad
  import opened FloorPlanCollapse
  import opened FloorPlanOps

  /** Every id in the configuration's JSON was generated before. */
  ghost predicate JsonFromPast(db: Db, c: Id)
    requires c in db.configs
  {
    PlanFromPast(db, db.configs[c].data)
  }

  ghost predicate PlanFromPast(db: Db, json: PlanJson) {
    && (forall i :: 0 <= i < |json.floors| ==> FloorFromPast(db, json.floors[i]))
    && (forall x :: x in ZoneIdsOf(json.forecourt) ==> x < db.nextElement)
    && (json.forecourt.Some? && json.forecourt.value.id.Some? ==> json.forecourt.value.id.value < db.nextZone)
  }

  ghost predicate FloorFromPast(db: Db, f: JsonFloor) {
    (f.id.Some? ==> f.id.value < db.nextFloor) && forall x :: x in IdsOf(f.elements) ==> x < db.nextElement
  }

  /** What is from the past stays so. */
  lemma {:induction false} StillFromPast(db: Db, after: Db, json: PlanJson)
    requires PlanFromPast(db, json)
    requires db.nextFloor <= after.nextFloor && db.nextZone <= after.nextZone && db.nextElement <= after.nextElement
    ensures PlanFromPast(after, json)
  {
    forall i | 0 <= i < |json.floors| ensures FloorFromPast(after, json.floors[i]) {
      assert FloorFromPast(db, json.floors[i]);
    }
  }

  /** JSON and rows agree, and the ids of the JSON are from the past: what every operation is to keep. */
  ghost predicate InStep(db: Db, c: Id) {
    c in db.configs && Agrees(db, c) && JsonFromPast(db, c)
  }

  // ----- Quick creation ---------------------------------------------------------------------------

  /** A new floor row disturbs no agreement. */
  lemma {:induction false} EnsureFloorAgrees(db: Db, c: Id, found: Option<Id>, level: int, info: Info)
    requires Valid(db) && c in db.configs && Agrees(db, c) && JsonFromPast(db, c)
             && (found.Some? ==> found.value in FloorsOf(db, c))
    ensures var r := EnsureFloor(db, c, found, level, info).db;
            r.configs == db.configs && Agrees(r, c) && JsonFromPast(r, c)
  {
    var r := EnsureFloor(db, c, found, level, info).db;
    NewRowHoldsNothing(db, r, c);
    forall i | 0 <= i < |db.configs[c].data.floors| ensures FloorAgrees(r, c, db.configs[c].data.floors[i]) {
      assert FloorAgrees(db, c, db.configs[c].data.floors[i]) && FloorFromPast(db, db.configs[c].data.floors[i]);
    }
    assert forall i :: 0 <= i < |db.configs[c].data.floors| ==> FloorFromPast(db, db.configs[c].data.floors[i]);
  }

  lemma {:induction false} NewRowHoldsNothing(db: Db, r: Db, c: Id)
    requires Valid(db) && r.elements == db.elements && forall f :: f in db.floors ==>
               f in r.floors && r.floors[f] == db.floors[f]
    ensures Existing(r, c) == Existing(db, c) && InForecourt(r, c) == InForecourt(db, c)
  {
  }

  /** A floor entry stays in agreement when it lists nothing that has moved or is new. */
  lemma {:induction false} FloorStillAgrees(db: Db, after: Db, c: Id, f: JsonFloor, g: JsonFloor)
    requires FloorAgrees(db, c, f) && g.id == f.id && g.level == f.level && after.floors == db.floors
    requires forall x :: x in IdsOf(g.elements) && x in Existing(after, c) ==>
               (x in IdsOf(f.elements) && x in Existing(db, c) && x in db.elements
                && after.elements[x] == db.elements[x])
               || OnLevel(after, c, x, f.level)
    ensures FloorAgrees(after, c, g)
  {
  }

  /** `quickCreateElement` keeps the agreement. */
  lemma {:induction false} QuickCreateAgrees(db: Db, space: Id, explicit: Option<Id>, oldest: Option<Id>,
                                             lowest: Option<Id>, body: Body, c: Id)
    requires Valid(db) && OldestAnswer(db, space, oldest) && TargetConfig(db, space, explicit, oldest) == Some(c)
             && LowestAnswer(db, c, lowest)
    requires Agrees(db, c) && JsonFromPast(db, c) && space in db.spaces
    ensures var r := QuickCreate(db, space, explicit, oldest, lowest, body);
            r.Ok? && InStep(r.value, c)
  {
    EnsureFloorAgrees(db, c, lowest, 0, "RDC");
    var found := EnsureFloor(db, c, lowest, 0, "RDC");
    EnsuredValid(db, c, lowest, 0, "RDC");
    NewElementAgrees(found.db, c, found.row, body);
    NewElementFromPast(found.db, c, found.row, body);
  }

  lemma {:induction false} NewElementFromPast(db: Db, c: Id, f: Id, body: Body)
    requires Valid(db) && c in db.configs && f in FloorsOf(db, c) && JsonFromPast(db, c)
    ensures var json := JsonWithElement(db.configs[c].data, f, db.floors[f], NewElement(db, body));
            JsonFromPast(WriteJson(WithElement(db, f, body), c, json), c)
  {
    var json := db.configs[c].data;
    var out := JsonWithElement(json, f, db.floors[f], NewElement(db, body));
    var after := WriteJson(WithElement(db, f, body), c, out);
    StillFromPast(db, after, json);
    WithElementFromPast(after, json, f, db.floors[f], NewElement(db, body), out);
  }

  lemma {:induction false} WithElementFromPast(db: Db, json: PlanJson, f: Id, row: FloorRow, el: JsonElement,
                                               out: PlanJson)
    requires PlanFromPast(db, json) && f < db.nextFloor && el.id.Some? && el.id.value < db.nextElement
    requires out == JsonWithElement(json, f, row, el)
    ensures PlanFromPast(db, out)
  {
    IdsOfOne(el);
    forall i | 0 <= i < |out.floors| ensures FloorFromPast(db, out.floors[i]) {
      EntryFromPast(db, json.floors, f, row, i);
      AddedFromPast(db, json.floors, f, row, [el], i);
    }
  }

  /** The entry added for a row, if any, is empty. */
  lemma {:induction false} EntryFromPast(db: Db, fs: seq<JsonFloor>, f: Id, row: FloorRow, i: nat)
    requires (forall j :: 0 <= j < |fs| ==> FloorFromPast(db, fs[j])) && f < db.nextFloor && i < |WithFloor(fs, f, row)|
    ensures FloorFromPast(db, WithFloor(fs, f, row)[i])
  {
    assert i < |fs| ==> FloorFromPast(db, fs[i]) && WithFloor(fs, f, row)[i] == fs[i];
  }

  lemma {:induction false} EnsuredValid(db: Db, c: Id, found: Option<Id>, level: int, info: Info)
    requires Valid(db) && c in db.configs
    ensures Valid(EnsureFloor(db, c, found, level, info).db)
  {
  }

  lemma {:induction false} NewElementAgrees(db: Db, c: Id, f: Id, body: Body)
    requires Valid(db) && c in db.configs && f in FloorsOf(db, c) && Agrees(db, c) && JsonFromPast(db, c)
    ensures Agrees(WriteJson(WithElement(db, f, body), c,
                             JsonWithElement(db.configs[c].data, f, db.floors[f], NewElement(db, body))), c)
  {
    var json, el := db.configs[c].data, NewElement(db, body);
    var out := JsonWithElement(json, f, db.floors[f], el);
    var after := WriteJson(WithElement(db, f, body), c, out);
    var gs, i := WithFloor(json.floors, f, db.floors[f]), FindFloor(json.floors, f);
    EntriesAgree(db, c, f);
    JsonAppended(json, f, db.floors[f], el);
    ElementAdded(db, after, c, f, el.id.value, ElementRow(OnFloor(f), body));
    forall j | 0 <= j < |out.floors| ensures FloorAgrees(after, c, out.floors[j]) {
      FloorStillAgrees(db, after, c, gs[j], out.floors[j]);
    }
    ForecourtUnchanged(db, after, c, json, out);
  }

  lemma {:induction false} EntriesAgree(db: Db, c: Id, f: Id)
    requires Valid(db) && c in db.configs && f in FloorsOf(db, c) && Agrees(db, c) && JsonFromPast(db, c)
    ensures var gs := WithFloor(db.configs[c].data.floors, f, db.floors[f]);
            forall j :: 0 <= j < |gs| ==> FloorAgrees(db, c, gs[j]) && FloorFromPast(db, gs[j])
  {
    var json := db.configs[c].data;
    var gs := WithFloor(json.floors, f, db.floors[f]);
    forall j | 0 <= j < |gs| ensures FloorAgrees(db, c, gs[j]) && FloorFromPast(db, gs[j]) {
      if j < |json.floors| {
        assert gs[j] == json.floors[j] && FloorFromPast(db, json.floors[j]);
      } else {
        assert gs[j].elements == [];
      }
    }
  }

  /** An element whose id the entry does not list is appended to it. */
  lemma {:induction false} JsonAppended(json: PlanJson, f: Id, row: FloorRow, el: JsonElement)
    requires el.id.Some? && el.id.value !in IdsOf(WithFloor(json.floors, f, row)[FindFloor(json.floors, f)].elements)
    ensures var gs, i, out := WithFloor(json.floors, f, row), FindFloor(json.floors, f),
            JsonWithElement(json, f, row, el);
            && |out.floors| == |gs| && out.forecourt == json.forecourt
            && (forall j :: 0 <= j < |gs| && j != i ==> out.floors[j] == gs[j])
            && out.floors[i] == gs[i].(elements := gs[i].elements + [el])
            && IdsOf(out.floors[i].elements) == IdsOf(gs[i].elements) + [el.id.value]
  {
  }

  lemma {:induction false} ForecourtUnchanged(db: Db, after: Db, c: Id, json: PlanJson, out: PlanJson)
    requires ForecourtAgrees(db, c, json) && out.forecourt == json.forecourt && after.forecourts == db.forecourts
    requires InForecourt(after, c) == InForecourt(db, c)
    requires forall x :: x in ZoneIdsOf(json.forecourt) && x in Existing(after, c) ==> x in Existing(db, c)
    ensures ForecourtAgrees(after, c, out)
  {
  }

  lemma {:induction false} ElementAdded(db: Db, after: Db, c: Id, f: Id, e: Id, row: ElementRow)
    requires Valid(db) && f in FloorsOf(db, c) && after.floors == db.floors && e == db.nextElement
    requires row.place == OnFloor(f) && after.elements == db.elements[e := row]
    ensures Existing(after, c) == Existing(db, c) + {e} && InForecourt(after, c) == InForecourt(db, c)
    ensures OnLevel(after, c, e, db.floors[f].level)
    ensures forall x :: x in Existing(db, c) ==> after.elements[x] == db.elements[x]
  {
  }

  // ----- Assignment to a floor --------------------------------------------------------------------

  lemma {:induction false} WithoutIds(els: seq<JsonElement>, moved: seq<Id>, x: Id)
    ensures x in IdsOf(Without(els, moved)) <==> x in IdsOf(els) && x !in moved
  {
    if els != [] {
      var n := |els| - 1;
      WithoutIds(els[..n], moved, x);
      if els[n].id.Some? && els[n].id.value in moved {
        assert Without(els, moved) == Without(els[..n], moved);
      } else {
        IdsConcat(Without(els[..n], moved), [els[n]]);
        IdsOfOne(els[n]);
      }
    }
  }

  lemma {:induction false} StubIds(db: Db, moved: seq<Id>, x: Id)
    ensures x in IdsOf(Stubs(db, moved)) <==> x in moved && x in db.elements
  {
    if moved != [] {
      var n := |moved| - 1;
      assert moved == moved[..n] + [moved[n]];
      StubIds(db, moved[..n], x);
      if moved[n] in db.elements {
        var el := JsonElement(Some(moved[n]), Bare(db.elements[moved[n]].body));
        IdsConcat(Stubs(db, moved[..n]), [el]);
        IdsOfOne(el);
      } else {
        assert Stubs(db, moved) == Stubs(db, moved[..n]);
      }
    }
  }

  lemma {:induction false} NonEmptyAreThere(fs: seq<JsonFloor>, keep: Option<Id>)
    ensures forall f :: f in NonEmptyFloors(fs, keep) ==> f in fs
  {
    if fs != [] {
      NonEmptyAreThere(fs[..|fs| - 1], keep);
    }
  }

  lemma {:induction false} MovableFacts(db: Db, space: Id, ids: seq<Id>)
    ensures forall x :: x in Movable(db, space, ids) <==> x in ids && InSpace(db, x, space)
  {
    if ids != [] {
      var n := |ids| - 1;
      assert ids == ids[..n] + [ids[n]];
      MovableFacts(db, space, ids[..n]);
    }
  }

  /** What moving elements onto a floor of the configuration makes of its elements. */
  lemma {:induction false} MovedOntoFloor(db: Db, moved: seq<Id>, c: Id, f: Id)
    requires f in FloorsOf(db, c) && forall x :: x in moved ==> x in db.elements
    ensures var after := Moved(db, moved, OnFloor(f));
            && (forall x :: x in Existing(after, c) <==> x in moved || x in Existing(db, c))
            && (forall x :: x in InForecourt(after, c) <==> x in InForecourt(db, c) && x !in moved)
            && (forall x :: x in db.elements && x !in moved ==> after.elements[x] == db.elements[x])
            && (forall x :: x in moved ==> OnLevel(after, c, x, db.floors[f].level))
  {
  }

  lemma {:induction false} MovedForecourt(db: Db, after: Db, c: Id, json: PlanJson, moved: seq<Id>)
    requires ForecourtAgrees(db, c, json) && after.forecourts == db.forecourts
    requires forall x :: x in Existing(after, c) <==> x in moved || x in Existing(db, c)
    requires forall x :: x in InForecourt(after, c) <==> x in InForecourt(db, c) && x !in moved
    ensures ForecourtAgrees(after, c, json) <==> forall x :: x in moved ==> x !in ZoneIdsOf(json.forecourt)
  {
  }

  lemma {:induction false} MovedFloors(db: Db, after: Db, c: Id, f: Id, moved: seq<Id>, fs: seq<JsonFloor>)
    requires forall i :: 0 <= i < |fs| ==> FloorAgrees(db, c, fs[i])
    requires f in FloorsOf(db, c) && after.floors == db.floors && after.elements.Keys == db.elements.Keys
    requires forall x :: x in Existing(after, c) <==> x in moved || x in Existing(db, c)
    requires forall x :: x in db.elements && x !in moved ==> after.elements[x] == db.elements[x]
    requires forall x :: x in moved ==> OnLevel(after, c, x, db.floors[f].level)
    ensures forall g :: g in AddToFloor(FloorsWithout(fs, moved), f, db.floors[f], Stubs(after, moved)) ==>
              FloorAgrees(after, c, g)
  {
    var without := FloorsWithout(fs, moved);
    var gs, i := WithFloor(without, f, db.floors[f]), FindFloor(without, f);
    forall j | 0 <= j < |gs| ensures FloorAgrees(after, c, gs[j]) {
      if j < |fs| {
        forall x ensures x in IdsOf(without[j].elements) <==> x in IdsOf(fs[j].elements) && x !in moved {
          WithoutIds(fs[j].elements, moved, x);
        }
        FloorStillAgrees(db, after, c, fs[j], without[j]);
      }
    }
    var last := gs[i].(elements := gs[i].elements + Stubs(after, moved));
    IdsConcat(gs[i].elements, Stubs(after, moved));
    forall x | x in IdsOf(last.elements) && x in Existing(after, c) ensures OnLevel(after, c, x, gs[i].level) {
      StubIds(after, moved, x);
    }
    assert FloorAgrees(after, c, last);
  }

  /**
   Assignment to a floor keeps the agreement of its configuration exactly when none of the elements
   it moves is listed in the JSON forecourt, which it does not clear.
   */
  lemma {:induction false} AssignToFloorAgreesIff(db: Db, space: Id, explicit: Option<Id>, oldest: Option<Id>,
                                                  ids: seq<Id>, level: int, info: Info, atLevel: Option<Id>, c: Id)
    requires Valid(db) && OldestAnswer(db, space, oldest) && TargetConfig(db, space, explicit, oldest) == Some(c)
             && LevelAnswer(db, c, level, atLevel)
    requires Agrees(db, c) && JsonFromPast(db, c) && space in db.spaces
    ensures var r := AssignToFloor(db, space, explicit, oldest, ids, level, info, atLevel);
            && r.Ok? && c in r.value.configs
            && (Agrees(r.value, c) <==>
                forall x :: x in ids && InSpace(db, x, space) ==> x !in ZoneIdsOf(db.configs[c].data.forecourt))
            && JsonFromPast(r.value, c)
  {
    var found, moved := EnsureFloor(db, c, atLevel, level, info), Movable(db, space, ids);
    EnsureFloorAgrees(db, c, atLevel, level, info);
    MovableFacts(db, space, ids);
    AssignedResult(db, space, explicit, oldest, ids, level, info, atLevel, c);
    if moved != [] {
      AssignedAgrees(found.db, c, found.row, moved);
      EnsuredValid(db, c, atLevel, level, info);
      AssignedFromPast(found.db, c, found.row, moved);
    }
  }

  lemma {:induction false} WithoutFromPast(db: Db, fs: seq<JsonFloor>, moved: seq<Id>, i: nat)
    requires i < |fs| && FloorFromPast(db, fs[i])
    ensures FloorFromPast(db, FloorsWithout(fs, moved)[i])
  {
    forall x: Id ensures x in IdsOf(Without(fs[i].elements, moved)) ==> x in IdsOf(fs[i].elements) {
      WithoutIds(fs[i].elements, moved, x);
    }
  }

  lemma {:induction false} AddedFromPast(db: Db, fs: seq<JsonFloor>, f: Id, row: FloorRow, els: seq<JsonElement>,
                                         i: nat)
    requires (forall j :: 0 <= j < |fs| ==> FloorFromPast(db, fs[j])) && f < db.nextFloor
             && forall x :: x in IdsOf(els) ==> x < db.nextElement
    requires i < |AddToFloor(fs, f, row, els)|
    ensures FloorFromPast(db, AddToFloor(fs, f, row, els)[i])
  {
    var gs, k := WithFloor(fs, f, row), FindFloor(fs, f);
    IdsConcat(gs[k].elements, els);
    assert k < |fs| ==> FloorFromPast(db, fs[k]);
    assert i < |fs| ==> FloorFromPast(db, fs[i]);
  }

  lemma {:induction false} LeftFromPast(db: Db, fs: seq<JsonFloor>, keep: Option<Id>, json: PlanJson)
    requires (forall j :: 0 <= j < |fs| ==> FloorFromPast(db, fs[j])) && json.floors == NonEmptyFloors(fs, keep)
    ensures forall j :: 0 <= j < |json.floors| ==> FloorFromPast(db, json.floors[j])
  {
    NonEmptyAreThere(fs, keep);
    forall j | 0 <= j < |json.floors| ensures FloorFromPast(db, json.floors[j]) {
      assert json.floors[j] in json.floors;
    }
  }

  lemma {:induction false} AssignedFromPast(db: Db, c: Id, f: Id, moved: seq<Id>)
    requires Valid(db) && c in db.configs && f in FloorsOf(db, c) && JsonFromPast(db, c) && forall x :: x in moved ==>
               x in db.elements
    ensures var placed, json := Moved(db, moved, OnFloor(f)), db.configs[c].data;
            JsonFromPast(WriteJson(placed, c, JsonMovedToFloor(placed, json, f, db.floors[f], moved)), c)
  {
    var placed, json := Moved(db, moved, OnFloor(f)), db.configs[c].data;
    MovedFloorFromPast(db, placed, json, f, moved);
    StillFromPast(db, WriteJson(placed, c, JsonMovedToFloor(placed, json, f, db.floors[f], moved)),
                  JsonMovedToFloor(placed, json, f, db.floors[f], moved));
  }

  lemma {:induction false} MovedFloorFromPast(db: Db, placed: Db, json: PlanJson, f: Id, moved: seq<Id>)
    requires PlanFromPast(db, json) && f in db.floors && f < db.nextFloor && forall x :: x in moved ==>
               x < db.nextElement
    ensures PlanFromPast(db, JsonMovedToFloor(placed, json, f, db.floors[f], moved))
  {
    var without, stubs := FloorsWithout(json.floors, moved), Stubs(placed, moved);
    forall i | 0 <= i < |without| ensures FloorFromPast(db, without[i]) {
      WithoutFromPast(db, json.floors, moved, i);
    }
    forall x: Id | x in IdsOf(stubs) ensures x < db.nextElement {
      StubIds(placed, moved, x);
    }
    var all := AddToFloor(without, f, db.floors[f], stubs);
    forall i | 0 <= i < |all| ensures FloorFromPast(db, all[i]) {
      AddedFromPast(db, without, f, db.floors[f], stubs, i);
    }
    LeftFromPast(db, all, Some(f), JsonMovedToFloor(placed, json, f, db.floors[f], moved));
  }

  lemma {:induction false} AssignedResult(db: Db, space: Id, explicit: Option<Id>, oldest: Option<Id>, ids: seq<Id>,
                                          level: int, info: Info, atLevel: Option<Id>, c: Id)
    requires OldestAnswer(db, space, oldest) && TargetConfig(db, space, explicit, oldest) == Some(c)
             && LevelAnswer(db, c, level, atLevel)
    requires space in db.spaces
    ensures var found, moved := EnsureFloor(db, c, atLevel, level, info), Movable(db, space, ids);
            var placed := Moved(found.db, moved, OnFloor(found.row));
            AssignToFloor(db, space, explicit, oldest, ids, level, info, atLevel) ==
            Ok(if moved == [] then found.db
               else WriteJson(placed, c,
                              JsonMovedToFloor(placed, found.db.configs[c].data, found.row, found.db.floors[found.row],
                                               moved)))
  {
    var found := EnsureFloor(db, c, atLevel, level, info);
    assert Moved(found.db, [], OnFloor(found.row)) == found.db;
  }

  lemma {:induction false} AssignedAgrees(db: Db, c: Id, f: Id, moved: seq<Id>)
    requires c in db.configs && f in FloorsOf(db, c) && Agrees(db, c) && forall x :: x in moved ==> x in db.elements
    ensures var placed, json := Moved(db, moved, OnFloor(f)), db.configs[c].data;
            var after := WriteJson(placed, c, JsonMovedToFloor(placed, json, f, db.floors[f], moved));
            Agrees(after, c) <==> forall x :: x in moved ==> x !in ZoneIdsOf(json.forecourt)
  {
    var placed, json := Moved(db, moved, OnFloor(f)), db.configs[c].data;
    var out := JsonMovedToFloor(placed, json, f, db.floors[f], moved);
    var after := WriteJson(placed, c, out);
    var gs := AddToFloor(FloorsWithout(json.floors, moved), f, db.floors[f], Stubs(placed, moved));
    MovedOntoFloor(db, moved, c, f);
    MovedFloors(db, placed, c, f, moved, json.floors);
    NonEmptyAreThere(gs, Some(f));
    MovedForecourt(db, placed, c, json, moved);
    SameRowsAgree(placed, after, c, out);
  }

  lemma {:induction false} SameRowsAgree(db: Db, after: Db, c: Id, out: PlanJson)
    requires c in after.configs && after.configs[c].data == out && after.floors == db.floors
             && after.elements == db.elements
    requires after.forecourts == db.forecourts
    requires forall f :: f in out.floors ==> FloorAgrees(db, c, f)
    ensures Agrees(after, c) <==> ForecourtAgrees(db, c, out)
  {
    assert Existing(after, c) == Existing(db, c) && InForecourt(after, c) == InForecourt(db, c)
           && FloorsOf(after, c) == FloorsOf(db, c);
    forall i | 0 <= i < |out.floors| ensures FloorAgrees(after, c, out.floors[i]) {
      assert out.floors[i] in out.floors;
    }
  }

  // ----- Assignment to the forecourt ---------------------------------------------------------------

  /** What moving elements to the forecourt of the configuration makes of its elements. */
  lemma {:induction false} MovedToForecourt(db: Db, moved: seq<Id>, c: Id)
    requires forall x :: x in moved ==> x in db.elements
    ensures var after := Moved(db, moved, OnForecourt(c));
            && (forall x :: x in Existing(after, c) <==> x in moved || x in Existing(db, c))
            && (forall x :: x in InForecourt(after, c) <==> x in moved || x in InForecourt(db, c))
            && (forall x :: x in db.elements && x !in moved ==> after.elements[x] == db.elements[x])
  {
  }

  /** The forecourt lists its old ids and the moved ones, and none of the moved ones more often than before, or once. */
  lemma {:induction false} JoinedIds(db: Db, els: seq<JsonElement>, all: seq<JsonElement>, moved: seq<Id>)
    requires forall x :: x in moved ==> x in db.elements
    ensures var ids := IdsOf(JoinForecourt(db, els, all, moved));
            && (forall x :: x in ids <==> x in IdsOf(els) || x in moved)
            && (forall x :: multiset(ids)[x] == if x in moved && x !in IdsOf(els) then 1 else multiset(IdsOf(els))[x])
  {
    if moved != [] {
      var n := |moved| - 1;
      var x := moved[n];
      assert moved == moved[..n] + [x];
      JoinedIds(db, els, all, moved[..n]);
      var before := JoinForecourt(db, els, all, moved[..n]);
      if x !in IdsOf(before) {
        var el := if FirstWithId(all, x).Some? then FirstWithId(all, x).value
            else JsonElement(Some(x), Bare(db.elements[x].body));
        IdsConcat(before, [el]);
        IdsOfOne(el);
      }
    }
  }

  /** The floors that are left list nothing that has moved. */
  lemma {:induction false} LeftFloors(db: Db, after: Db, c: Id, moved: seq<Id>, fs: seq<JsonFloor>)
    requires forall i :: 0 <= i < |fs| ==> FloorAgrees(db, c, fs[i])
    requires after.floors == db.floors && after.elements.Keys == db.elements.Keys
    requires forall x :: x in Existing(after, c) ==> x in moved || x in Existing(db, c)
    requires forall x :: x in db.elements && x !in moved ==> after.elements[x] == db.elements[x]
    ensures forall g :: g in FloorsWithout(fs, moved) ==> FloorAgrees(after, c, g)
  {
    var without := FloorsWithout(fs, moved);
    forall j | 0 <= j < |fs| ensures FloorAgrees(after, c, without[j]) {
      forall x ensures x in IdsOf(without[j].elements) <==> x in IdsOf(fs[j].elements) && x !in moved {
        WithoutIds(fs[j].elements, moved, x);
      }
      FloorStillAgrees(db, after, c, fs[j], without[j]);
    }
  }

  /** The JSON forecourt names no row, or the configuration has one. */
  predicate ForecourtNamed(db: Db, c: Id)
    requires c in db.configs
  {
    var zone := db.configs[c].data.forecourt;
    c in db.forecourts || zone.None? || zone.value.id.None?
  }

  /** The new row of the forecourt is not the one the JSON names. */
  lemma {:induction false} EnsureForecourtAgreesIff(db: Db, c: Id)
    requires Valid(db) && InStep(db, c)
    ensures var r := EnsureForecourt(db, c);
            r.configs == db.configs && JsonFromPast(r, c) && (Agrees(r, c) <==> ForecourtNamed(db, c))
  {
    var r, json := EnsureForecourt(db, c), db.configs[c].data;
    StillFromPast(db, r, json);
    assert Existing(r, c) == Existing(db, c) && InForecourt(r, c) == InForecourt(db, c)
           && FloorsOf(r, c) == FloorsOf(db, c);
    forall i | 0 <= i < |json.floors| ensures FloorAgrees(r, c, json.floors[i]) {
      assert FloorAgrees(db, c, json.floors[i]);
    }
    assert ForecourtClash(r, c, json) <==> !ForecourtNamed(db, c);
  }

  /** No moved element is listed twice in the JSON forecourt. */
  ghost predicate ListedOnce(json: PlanJson, moved: seq<Id>) {
    forall x :: x in moved ==> multiset(ZoneIdsOf(json.forecourt))[x] <= 1
  }

  lemma {:induction false} JoinedForecourt(db: Db, after: Db, c: Id, json: PlanJson, out: PlanJson, moved: seq<Id>,
                                           named: bool)
    requires ForecourtAgreesBut(db, c, json) && after.forecourts == db.forecourts
             && (named <==> !ForecourtClash(after, c, out))
    requires forall x :: x in Existing(after, c) <==> x in moved || x in Existing(db, c)
    requires forall x :: x in InForecourt(after, c) <==> x in moved || x in InForecourt(db, c)
    requires var ids, old' := ZoneIdsOf(out.forecourt), ZoneIdsOf(json.forecourt);
             && (forall x :: x in ids <==> x in old' || x in moved)
             && (forall x :: multiset(ids)[x] == if x in moved && x !in old' then 1 else multiset(old')[x])
    ensures ForecourtAgrees(after, c, out) <==> named && ListedOnce(json, moved)
  {
    JoinedOnce(ZoneIdsOf(json.forecourt), ZoneIdsOf(out.forecourt), Existing(db, c), Existing(after, c), moved);
  }

  lemma {:induction false} JoinedOnce(before: seq<Id>, ids: seq<Id>, existing: set<Id>, after: set<Id>, moved: seq<Id>)
    requires DistinctAmong(before, existing) && forall x :: x in after <==> x in moved || x in existing
    requires forall x :: multiset(ids)[x] == if x in moved && x !in before then 1 else multiset(before)[x]
    ensures DistinctAmong(ids, after) <==> forall x :: x in moved ==> multiset(before)[x] <= 1
  {
    if DistinctAmong(ids, after) {
      forall x | x in moved ensures multiset(before)[x] <= 1 {
        assert x in after && (x !in before ==> multiset(before)[x] == 0);
      }
    }
  }

  /** Everything of the agreement on the forecourt but the id of its row. */
  ghost predicate ForecourtAgreesBut(db: Db, c: Id, json: PlanJson) {
    && (forall x :: x in InForecourt(db, c) ==> x in ZoneIdsOf(json.forecourt))
    && (forall x :: x in ZoneIdsOf(json.forecourt) && x in Existing(db, c) ==> x in InForecourt(db, c))
    && DistinctAmong(ZoneIdsOf(json.forecourt), Existing(db, c))
  }

  lemma {:induction false} ToForecourtAgrees(db: Db, c: Id, moved: seq<Id>)
    requires c in db.configs && c in db.forecourts && forall x :: x in moved ==> x in db.elements
    requires ForecourtAgreesBut(db, c, db.configs[c].data)
    requires forall i :: 0 <= i < |db.configs[c].data.floors| ==> FloorAgrees(db, c, db.configs[c].data.floors[i])
    ensures var placed, json := Moved(db, moved, OnForecourt(c)), db.configs[c].data;
            var after := WriteJson(placed, c, JsonMovedToForecourt(placed, json, db.forecourts[c], moved));
            Agrees(after, c) <==> !ForecourtClash(db, c, json) && ListedOnce(json, moved)
  {
    var placed, json := Moved(db, moved, OnForecourt(c)), db.configs[c].data;
    var out := JsonMovedToForecourt(placed, json, db.forecourts[c], moved);
    MovedToForecourt(db, moved, c);
    LeftFloors(db, placed, c, moved, json.floors);
    NonEmptyAreThere(FloorsWithout(json.floors, moved), None);
    JoinedZone(placed, json, db.forecourts[c], moved);
    JoinedForecourt(db, placed, c, json, out, moved, !ForecourtClash(db, c, json));
    SameRowsAgree(placed, WriteJson(placed, c, out), c, out);
  }

  lemma {:induction false} ToForecourtFromPast(db: Db, c: Id, moved: seq<Id>)
    requires Valid(db) && c in db.configs && c in db.forecourts && JsonFromPast(db, c) && forall x :: x in moved ==>
               x in db.elements
    ensures var placed, json := Moved(db, moved, OnForecourt(c)), db.configs[c].data;
            JsonFromPast(WriteJson(placed, c, JsonMovedToForecourt(placed, json, db.forecourts[c], moved)), c)
  {
    var placed, json := Moved(db, moved, OnForecourt(c)), db.configs[c].data;
    JoinedFromPast(db, placed, json, db.forecourts[c], moved);
    StillFromPast(db, WriteJson(placed, c, JsonMovedToForecourt(placed, json, db.forecourts[c], moved)),
                  JsonMovedToForecourt(placed, json, db.forecourts[c], moved));
  }

  lemma {:induction false} JoinedZone(placed: Db, json: PlanJson, row: ZoneRow, moved: seq<Id>)
    requires forall x :: x in moved ==> x in placed.elements
    ensures var out := JsonMovedToForecourt(placed, json, row, moved);
            && (forall x :: x in ZoneIdsOf(out.forecourt) <==> x in ZoneIdsOf(json.forecourt) || x in moved)
            && (forall x :: multiset(ZoneIdsOf(out.forecourt))[x] ==
                              if x in moved && x !in ZoneIdsOf(json.forecourt) then 1
                                  else multiset(ZoneIdsOf(json.forecourt))[x])
            && out.forecourt.Some?
            && out.forecourt.value.id == (if json.forecourt.Some? then json.forecourt.value.id else Some(row.id))
  {
    JoinedIds(placed, if json.forecourt.Some? then json.forecourt.value.elements
              else [], AllElements(json.floors), moved);
  }

  lemma {:induction false} PartsFromPast(db: Db, json: PlanJson, out: PlanJson, moved: seq<Id>)
    requires PlanFromPast(db, json) && forall i :: 0 <= i < |out.floors| ==> FloorFromPast(db, out.floors[i])
    requires forall x :: x in ZoneIdsOf(out.forecourt) ==> x in ZoneIdsOf(json.forecourt) || x in moved
    requires forall x :: x in moved ==> x < db.nextElement
    requires out.forecourt.Some? && out.forecourt.value.id.Some? ==> out.forecourt.value.id.value < db.nextZone
    ensures PlanFromPast(db, out)
  {
  }

  lemma {:induction false} JoinedFromPast(db: Db, placed: Db, json: PlanJson, row: ZoneRow, moved: seq<Id>)
    requires PlanFromPast(db, json) && row.id < db.nextZone && forall x :: x in moved ==>
               x in placed.elements && x < db.nextElement
    ensures PlanFromPast(db, JsonMovedToForecourt(placed, json, row, moved))
  {
    var without := FloorsWithout(json.floors, moved);
    forall i | 0 <= i < |without| ensures FloorFromPast(db, without[i]) {
      WithoutFromPast(db, json.floors, moved, i);
    }
    LeftFromPast(db, without, None, JsonMovedToForecourt(placed, json, row, moved));
    JoinedZone(placed, json, row, moved);
    PartsFromPast(db, json, JsonMovedToForecourt(placed, json, row, moved), moved);
  }

  /**
   Assignment to the forecourt keeps the agreement of its configuration exactly when the JSON forecourt
   names no row that is not there, and lists no element it moves twice.
   */
  lemma {:induction false} AssignToForecourtAgreesIff(db: Db, space: Id, explicit: Option<Id>, oldest: Option<Id>,
                                                      ids: seq<Id>, c: Id)
    requires Valid(db) && OldestAnswer(db, space, oldest) && TargetConfig(db, space, explicit, oldest) == Some(c)
    requires InStep(db, c) && space in db.spaces
    ensures var r := AssignToForecourt(db, space, explicit, oldest, ids);
            && r.Ok? && c in r.value.configs
            && (Agrees(r.value, c) <==>
                  ForecourtNamed(db, c) && ListedOnce(db.configs[c].data, Movable(db, space, ids)))
            && JsonFromPast(r.value, c)
  {
    var ensured, moved := EnsureForecourt(db, c), Movable(db, space, ids);
    EnsureForecourtAgreesIff(db, c);
    MovableFacts(db, space, ids);
    ForecourtAssigned(db, space, explicit, oldest, ids, c);
    if moved != [] {
      EnsuredForecourtFacts(db, c);
      ToForecourtAgrees(ensured, c, moved);
      ToForecourtFromPast(ensured, c, moved);
    }
  }

  lemma {:induction false} EnsuredForecourtFacts(db: Db, c: Id)
    requires Valid(db) && InStep(db, c)
    ensures var r, json := EnsureForecourt(db, c), db.configs[c].data;
            && Valid(r) && c in r.forecourts && r.configs == db.configs && r.elements == db.elements
            && ForecourtAgreesBut(r, c, json)
                && (forall i :: 0 <= i < |json.floors| ==> FloorAgrees(r, c, json.floors[i]))
            && (ForecourtClash(r, c, json) <==> !ForecourtNamed(db, c))
  {
    var r, json := EnsureForecourt(db, c), db.configs[c].data;
    assert Existing(r, c) == Existing(db, c) && InForecourt(r, c) == InForecourt(db, c)
           && FloorsOf(r, c) == FloorsOf(db, c);
    forall i | 0 <= i < |json.floors| ensures FloorAgrees(r, c, json.floors[i]) {
      assert FloorAgrees(db, c, json.floors[i]);
    }
  }

  lemma {:induction false} ForecourtAssigned(db: Db, space: Id, explicit: Option<Id>, oldest: Option<Id>, ids: seq<Id>,
                                             c: Id)
    requires OldestAnswer(db, space, oldest) && TargetConfig(db, space, explicit, oldest) == Some(c)
             && space in db.spaces
    ensures var ensured, moved := EnsureForecourt(db, c), Movable(db, space, ids);
            var placed := Moved(ensured, moved, OnForecourt(c));
            AssignToForecourt(db, space, explicit, oldest, ids) ==
            Ok(if moved == [] then ensured
               else WriteJson(placed, c,
                              JsonMovedToForecourt(placed, ensured.configs[c].data, ensured.forecourts[c], moved)))
  {
    var ensured := EnsureForecourt(db, c);
    assert Moved(ensured, [], OnForecourt(c)) == ensured;
  }
}
