/**
 The plans of many tenants (spaces.service.ts). Spaces and shop mappings belong to a tenant, and the
 queries on them are filtered by it; configurations, floors, forecourts and elements carry no tenant, so
 that the hand-written checks are all that keeps them apart.
 */
module FloorPlanTenants {
  import opened Common
  import opened FloorPlan
  import opened FloorPlanSave
  import opened FloorPlanGuarantees
  import opened FloorPlanOps

  type Tenant = string

  /** `plans` holds the tables without a tenant; its own spaces and mappings are not used. */
  datatype World = World(plans: Db, owners: map<Id, Tenant>, mappings: map<(Tenant, string), Id>)

  function OwnSpaces(w: World, t: Tenant): (s: set<Id>) {
    set s | s in w.owners && w.owners[s] == t
  }

  function OwnMappings(w: World, t: Tenant): (m: map<string, Id>) {
    map k | k in w.mappings && k.0 == t :: k.1 := w.mappings[k]
  }

  /** The tables as the requests of `t` see them. */
  function View(w: World, t: Tenant): (db: Db) {
    w.plans.(spaces := OwnSpaces(w, t), mappings := OwnMappings(w, t))
  }

  function WithMappings(all: map<(Tenant, string), Id>, t: Tenant, own: map<string, Id>): (m: map<(Tenant, string),
      Id>) {
    map k | k in all.Keys + (set l | l in own :: (t, l)) && (k.0 == t ==> k.1 in own) :: if k.0 == t then own[k.1]
        else all[k]
  }

  /** One operation of tenant `t`. */
  function Act(w: World, t: Tenant, op: Op): (v: World)
    requires Possible(View(w, t), op)
  {
    var db := Perform(View(w, t), op);
    World(db.(spaces := {}, mappings := map[]), w.owners, WithMappings(w.mappings, t, db.mappings))
  }

  // ----- Whose an element is ------------------------------------------------------------------------

  function SpaceOf(db: Db, e: Id): (s: Option<Id>) {
    if e !in db.elements then None
    else
      var c := ConfigAt(db, db.elements[e].place);
      if c.Some? && c.value in db.configs then Some(db.configs[c.value].space) else None
  }

  /** The configuration is in the tables, and in no space of `t`. */
  predicate ForeignConfig(w: World, t: Tenant, c: Id) {
    c in w.plans.configs && w.plans.configs[c].space !in OwnSpaces(w, t)
  }

  /** Every mapping points at an element that exists, in a space of the mapping's tenant. */
  ghost predicate WorldSound(w: World) {
    && Valid(w.plans)
    && forall k :: k in w.mappings ==> var s := SpaceOf(w.plans, w.mappings[k]); s.Some? && s.value in OwnSpaces(w, k.0)
  }

  lemma {:induction false} ViewMappings(w: World, t: Tenant, l: string)
    ensures l in OwnMappings(w, t) <==> (t, l) in w.mappings
    ensures l in OwnMappings(w, t) ==> OwnMappings(w, t)[l] == w.mappings[(t, l)]
  {
    assert (t, l).0 == t && (t, l).1 == l;
  }

  lemma {:induction false} WithMappingsAt(all: map<(Tenant, string), Id>, t: Tenant, own: map<string, Id>,
                                          k: (Tenant, string))
    ensures k in WithMappings(all, t, own) <==> if k.0 == t then k.1 in own else k in all
    ensures k in WithMappings(all, t, own) ==> WithMappings(all, t, own)[k] == if k.0 == t then own[k.1] else all[k]
  {
    assert k == (k.0, k.1);
  }

  lemma {:induction false} ViewSound(w: World, t: Tenant)
    requires WorldSound(w)
    ensures Sound(View(w, t))
  {
    forall l | l in OwnMappings(w, t) ensures OwnMappings(w, t)[l] in w.plans.elements {
      ViewMappings(w, t, l);
    }
  }

  // ----- No operation moves an element to another space ----------------------------------------------

  /** A save leaves each element in its configuration. */
  lemma {:induction false} SaveKeepsConfig(db: Db, c: Id, p: PlanJson, q: Query, e: Id)
    requires SaveReady(db, c, q) && e in db.elements && e in SaveInto(db, c, p, q).db.elements
    ensures var after := SaveInto(db, c, p, q).db;
            ConfigAt(after, after.elements[e].place) == ConfigAt(db, db.elements[e].place)
  {
    var fs := SavedFloors(db, p, q.scan);
    SaveIsPrepared(db, c, p, q);
    SaveElements(db, c, p, q);
    SaveFloors(db, c, p, q);
    SaveZones(db, c, p, q);
    SavedZoneShape(db, c, p, q);
    ConfigKept(db, c, p, SavedPlan(db, c, p, q), SaveInto(db, c, p, q).db, NextFloor(db, fs, q.order),
               NextElement(db, c, p, fs), e);
  }

  lemma {:induction false} ConfigKept(db: Db, c: Id, p: PlanJson, out: PlanJson, after: Db, hiF: Id, hiE: Id, e: Id)
    requires Prepared(db, c, p, out, hiE) && ElementsAfter(db, c, out, after.elements)
             && FloorsAfter(db, c, out, after, hiF)
    requires ZonesAfter(db, c, p, after) && (out.forecourt.Some? ==> p.forecourt.Some?) && after.merches == db.merches
    requires e in db.elements && e in after.elements
    ensures ConfigAt(after, after.elements[e].place) == ConfigAt(db, db.elements[e].place)
  {
    if e in PlanRows(c, out) {
      assert PlacedIn(c, out, e, PlanRows(c, out)[e].place);
      assert e in Existing(db, c);
    } else {
      PlacesKept(db, c, p, out, after, hiF, hiE, e);
      assert PlaceExists(db, db.elements[e].place);
    }
  }

  /** The places of `b` are those of `a`, and its configurations are in the same spaces. */
  ghost predicate SamePlaces(a: Db, b: Db) {
    && b.floors == a.floors && b.forecourts == a.forecourts && b.merches == a.merches && b.elements == a.elements
    && SameSpaces(a, b)
  }

  ghost predicate SameSpaces(a: Db, b: Db) {
    forall c :: c in a.configs ==> c in b.configs && b.configs[c].space == a.configs[c].space
  }

  lemma {:induction false} SamePlacesSpace(a: Db, b: Db, e: Id)
    requires SamePlaces(a, b) && SpaceOf(a, e).Some?
    ensures SpaceOf(b, e) == SpaceOf(a, e)
  {
  }

  /** Every element of a valid database is in a space. */
  lemma {:induction false} InSomeSpace(db: Db, e: Id)
    requires Valid(db) && e in db.elements
    ensures SpaceOf(db, e).Some?
  {
    assert PlaceExists(db, db.elements[e].place);
  }

  lemma {:induction false} SameConfigSpace(db: Db, after: Db, e: Id)
    requires SpaceOf(db, e).Some? && SameSpaces(db, after)
    requires e in after.elements && ConfigAt(after, after.elements[e].place) == ConfigAt(db, db.elements[e].place)
    ensures SpaceOf(after, e) == SpaceOf(db, e)
  {
  }

  lemma {:induction false} SavedSpaces(db: Db, c: Id, data: PlanJson, q: Query)
    requires SaveReady(db, c, q)
    ensures SameSpaces(db, SaveInto(db, c, data, q).db)
  {
  }

  lemma {:induction false} SavedInSpace(db: Db, c: Id, data: PlanJson, q: Query, e: Id)
    requires SaveReady(db, c, q) && e in db.elements && e in SaveInto(db, c, data, q).db.elements
    ensures SpaceOf(SaveInto(db, c, data, q).db, e) == SpaceOf(db, e)
  {
    InSomeSpace(db, e);
    SavedSpaces(db, c, data, q);
    SaveKeepsConfig(db, c, data, q, e);
    SameConfigSpace(db, SaveInto(db, c, data, q).db, e);
  }

  lemma {:induction false} UpsertedPlaces(db: Db, c: Id, space: Id, data: PlanJson)
    ensures SamePlaces(db, WithConfig(db, c, space, data))
  {
  }

  lemma {:induction false} SavedSpace(db: Db, c: Id, space: Id, data: PlanJson, q: Query, e: Id)
    requires Valid(db) && Answers(db, c, q) && e in db.elements
    ensures var r := SavePlan(db, c, space, data, q);
            r.Ok? && e in r.value.db.elements ==> SpaceOf(r.value.db, e) == SpaceOf(db, e)
  {
    UpsertedPlaces(db, c, space, data);
    UpsertedReady(db, c, space, data, q);
    InSomeSpace(db, e);
    SavedFrom(db, WithConfig(db, c, space, data), c, data, q, e);
  }

  lemma {:induction false} SavedFrom(db: Db, upserted: Db, c: Id, data: PlanJson, q: Query, e: Id)
    requires SaveReady(upserted, c, q) && SamePlaces(db, upserted) && SpaceOf(db, e).Some?
    ensures var after := SaveInto(upserted, c, data, q).db; e in after.elements ==> SpaceOf(after, e) == SpaceOf(db, e)
  {
    SamePlacesSpace(db, upserted, e);
    if e in SaveInto(upserted, c, data, q).db.elements {
      SavedInSpace(upserted, c, data, q, e);
    }
  }

  lemma {:induction false} EnsuredFloorSpace(db: Db, c: Id, found: Option<Id>, level: int, info: Info, e: Id)
    requires Valid(db) && e in db.elements
    ensures SpaceOf(EnsureFloor(db, c, found, level, info).db, e) == SpaceOf(db, e)
  {
    assert PlaceExists(db, db.elements[e].place);
  }

  lemma {:induction false} EnsuredForecourtSpace(db: Db, c: Id, e: Id)
    requires Valid(db) && e in db.elements
    ensures SpaceOf(EnsureForecourt(db, c), e) == SpaceOf(db, e)
  {
    assert PlaceExists(db, db.elements[e].place);
  }

  lemma {:induction false} WrittenPlaces(db: Db, c: Id, data: PlanJson)
    requires c in db.configs
    ensures SamePlaces(db, WriteJson(db, c, data))
  {
  }

  lemma {:induction false} MovedSpace(db: Db, moved: seq<Id>, place: Place, space: Id, e: Id)
    requires forall x :: x in moved ==> InSpace(db, x, space)
    requires ConfigAt(db, place).Some? && ConfigAt(db, place).value in db.configs
             && db.configs[ConfigAt(db, place).value].space == space
    ensures SpaceOf(Moved(db, moved, place), e) == SpaceOf(db, e)
  {
  }

  lemma {:induction false} QuickCreatedSpace(db: Db, space: Id, explicit: Option<Id>, oldest: Option<Id>,
                                             lowest: Option<Id>, body: Body, e: Id)
    requires Valid(db) && OldestAnswer(db, space, oldest) && e in db.elements
    requires var c := TargetConfig(db, space, explicit, oldest); c.Some? ==> LowestAnswer(db, c.value, lowest)
    ensures var r := QuickCreate(db, space, explicit, oldest, lowest, body);
            r.Ok? ==> e in r.value.elements && SpaceOf(r.value, e) == SpaceOf(db, e)
  {
    var c := TargetConfig(db, space, explicit, oldest);
    if c.Some? && space in db.spaces {
      var found := EnsureFloor(db, c.value, lowest, 0, "RDC");
      var json := JsonWithElement(db.configs[c.value].data, found.row, found.db.floors[found.row],
                                  NewElement(found.db, body));
      QuickCreatedFrom(db, c.value, lowest, body, json, e);
    }
  }

  lemma {:induction false} QuickCreatedFrom(db: Db, c: Id, lowest: Option<Id>, body: Body, json: PlanJson, e: Id)
    requires Valid(db) && c in db.configs && e in db.elements
    ensures var found := EnsureFloor(db, c, lowest, 0, "RDC");
            var after := WriteJson(WithElement(found.db, found.row, body), c, json);
            e in after.elements && SpaceOf(after, e) == SpaceOf(db, e)
  {
    var found := EnsureFloor(db, c, lowest, 0, "RDC");
    InSomeSpace(db, e);
    EnsuredFloorSpace(db, c, lowest, 0, "RDC", e);
    NewElementFrom(found.db, found.row, body, c, json, e, db.elements, db.nextElement);
  }

  lemma {:induction false} NewElementFrom(db: Db, f: Id, body: Body, c: Id, json: PlanJson, e: Id, elements: map<Id,
                                          ElementRow>, next: Id)
    requires db.elements == elements && db.nextElement == next && c in db.configs && SpaceOf(db, e).Some? && e != next
    ensures var after := WriteJson(WithElement(db, f, body), c, json);
            e in after.elements && SpaceOf(after, e) == SpaceOf(db, e)
  {
    WrittenPlaces(WithElement(db, f, body), c, json);
    SamePlacesSpace(WithElement(db, f, body), WriteJson(WithElement(db, f, body), c, json), e);
  }

  lemma {:induction false} MovableAre(db: Db, space: Id, ids: seq<Id>)
    ensures forall x :: x in Movable(db, space, ids) ==> InSpace(db, x, space)
  {
    if ids != [] {
      MovableAre(db, space, ids[..|ids| - 1]);
    }
  }

  /** Moving elements of a space to a place of it, and writing its JSON or not. */
  lemma {:induction false} AssignedFrom(db: Db, moved: seq<Id>, place: Place, space: Id, c: Id, e: Id)
    requires forall x :: x in moved ==> InSpace(db, x, space)
    requires ConfigAt(db, place) == Some(c) && c in db.configs && db.configs[c].space == space && SpaceOf(db, e).Some?
    ensures var placed := Moved(db, moved, place); e in placed.elements && SpaceOf(placed, e) == SpaceOf(db, e)
    ensures forall json :: var after := WriteJson(Moved(db, moved, place), c, json);
                           e in after.elements && SpaceOf(after, e) == SpaceOf(db, e)
  {
    var placed := Moved(db, moved, place);
    MovedSpace(db, moved, place, space, e);
    forall json
      ensures var after := WriteJson(placed, c, json); e in after.elements && SpaceOf(after, e) == SpaceOf(db, e)
    {
      WrittenPlaces(placed, c, json);
      SamePlacesSpace(placed, WriteJson(placed, c, json), e);
    }
  }

  lemma {:induction false} EnsuredInSpace(db: Db, after: Db, x: Id, space: Id)
    requires InSpace(db, x, space) && SpaceOf(after, x) == SpaceOf(db, x)
    ensures InSpace(after, x, space)
  {
  }

  lemma {:induction false} EnsuredFloorReady(db: Db, c: Id, found: Option<Id>, level: int, info: Info, space: Id,
                                             ids: seq<Id>, e: Id)
    requires Valid(db) && UserConfig(db, c, space) && LevelAnswer(db, c, level, found) && e in db.elements
    ensures var r := EnsureFloor(db, c, found, level, info);
            && ConfigAt(r.db, OnFloor(r.row)) == Some(c) && r.db.configs == db.configs
            && SpaceOf(r.db, e) == SpaceOf(db, e) && SpaceOf(db, e).Some?
            && forall x :: x in Movable(db, space, ids) ==> InSpace(r.db, x, space)
  {
    var r := EnsureFloor(db, c, found, level, info);
    InSomeSpace(db, e);
    EnsuredFloorSpace(db, c, found, level, info, e);
    MovableAre(db, space, ids);
    forall x | x in Movable(db, space, ids) ensures InSpace(r.db, x, space) {
      EnsuredFloorSpace(db, c, found, level, info, x);
      EnsuredInSpace(db, r.db, x, space);
    }
  }

  lemma {:induction false} AssignedToFloorSpace(db: Db, space: Id, explicit: Option<Id>, oldest: Option<Id>,
                                                ids: seq<Id>, level: int, info: Info,
                                                atLevel: Option<Id>, e: Id)
    requires Valid(db) && OldestAnswer(db, space, oldest) && e in db.elements
    requires var c := TargetConfig(db, space, explicit, oldest); c.Some? ==> LevelAnswer(db, c.value, level, atLevel)
    ensures var r := AssignToFloor(db, space, explicit, oldest, ids, level, info, atLevel);
            r.Ok? ==> e in r.value.elements && SpaceOf(r.value, e) == SpaceOf(db, e)
  {
    var c := TargetConfig(db, space, explicit, oldest);
    if c.Some? {
      var found := EnsureFloor(db, c.value, atLevel, level, info);
      EnsuredFloorReady(db, c.value, atLevel, level, info, space, ids, e);
      AssignedFrom(found.db, Movable(db, space, ids), OnFloor(found.row), space, c.value, e);
    }
  }

  lemma {:induction false} EnsuredForecourtReady(db: Db, c: Id, space: Id, ids: seq<Id>, e: Id)
    requires Valid(db) && UserConfig(db, c, space) && e in db.elements
    ensures var r := EnsureForecourt(db, c);
            && ConfigAt(r, OnForecourt(c)) == Some(c) && r.configs == db.configs
            && SpaceOf(r, e) == SpaceOf(db, e) && SpaceOf(db, e).Some?
            && forall x :: x in Movable(db, space, ids) ==> InSpace(r, x, space)
  {
    var r := EnsureForecourt(db, c);
    InSomeSpace(db, e);
    EnsuredForecourtSpace(db, c, e);
    MovableAre(db, space, ids);
    forall x | x in Movable(db, space, ids) ensures InSpace(r, x, space) {
      EnsuredForecourtSpace(db, c, x);
      EnsuredInSpace(db, r, x, space);
    }
  }

  lemma {:induction false} AssignedToForecourtSpace(db: Db, space: Id, explicit: Option<Id>, oldest: Option<Id>,
                                                    ids: seq<Id>, e: Id)
    requires Valid(db) && OldestAnswer(db, space, oldest) && e in db.elements
    ensures var r := AssignToForecourt(db, space, explicit, oldest, ids);
            r.Ok? ==> e in r.value.elements && SpaceOf(r.value, e) == SpaceOf(db, e)
  {
    var c := TargetConfig(db, space, explicit, oldest);
    if c.Some? {
      EnsuredForecourtReady(db, c.value, space, ids, e);
      AssignedFrom(EnsureForecourt(db, c.value), Movable(db, space, ids), OnForecourt(c.value), space, c.value, e);
    }
  }

  lemma {:induction false} DeletedSpace(db: Db, location: string, e: Id)
    requires Valid(db) && e in db.elements
    ensures var after := DeleteMapping(db, location);
            && (e in after.elements ==> SpaceOf(after, e) == SpaceOf(db, e))
            && (e !in after.elements ==> IsOwn(db, e))
  {
    InSomeSpace(db, e);
    if location in db.mappings {
      UnreferencedSpace(db.(mappings := db.mappings - {location}), db.mappings[location], e);
    }
  }

  lemma {:induction false} UnreferencedSpace(db: Db, x: Id, e: Id)
    requires SpaceOf(db, e).Some?
    ensures var after := DeleteUnreferenced(db, x);
            && (e in after.elements ==> SpaceOf(after, e) == SpaceOf(db, e))
            && (e !in after.elements ==> e == x && IsOwn(db, e))
  {
    if x !in Mapped(db) && IsOwn(db, x) && e != x {
      SamePlacesSpace(WithoutElement(db, x), DeleteUnreferenced(db, x), e);
    }
  }

  /** Whatever the operation, an element that stays stays in its space. */
  lemma {:induction false} PerformKeepsSpace(db: Db, op: Op, e: Id)
    requires Valid(db) && Possible(db, op) && e in db.elements && e in Perform(db, op).elements
    ensures SpaceOf(Perform(db, op), e) == SpaceOf(db, e)
  {
    match op
    case SavePlanOp(c, space, data, q) => SavedSpace(db, c, space, data, q, e);
    case QuickCreateOp(space, explicit, oldest, answer, body) => QuickCreatedSpace(db, space, explicit, oldest, answer,
        body, e);
    case AssignToFloorOp(space, explicit, oldest, ids, level, info, answer) =>
      AssignedToFloorSpace(db, space, explicit, oldest, ids, level, info, answer, e);
    case AssignToForecourtOp(space, explicit, oldest, ids) => AssignedToForecourtSpace(db, space, explicit, oldest,
        ids, e);
    case CreateMappingOp(location, x) =>
    case DeleteMappingOp(location) => DeletedSpace(db, location, e);
  }

  // ----- What an operation of one tenant leaves of the others -----------------------------------------------

  /** A save whose configuration is that of another tenant. */
  predicate ForeignSave(w: World, t: Tenant, op: Op) {
    op.SavePlanOp? && ForeignConfig(w, t, op.config)
  }

  lemma {:induction false} SavedStays(db: Db, c: Id, space: Id, data: PlanJson, q: Query, e: Id)
    requires Valid(db) && Answers(db, c, q) && e in db.elements
    ensures var r := SavePlan(db, c, space, data, q);
            r.Ok? ==> (e !in r.value.db.elements <==> e in Existing(db, c) && e !in PlanIds(data) && e !in Mapped(db))
  {
    UpsertedPlaces(db, c, space, data);
    UpsertedReady(db, c, space, data, q);
    SavedStaysFrom(db, WithConfig(db, c, space, data), c, data, q, e);
  }

  lemma {:induction false} SavedStaysFrom(db: Db, upserted: Db, c: Id, data: PlanJson, q: Query, e: Id)
    requires SaveReady(upserted, c, q) && SamePlaces(db, upserted) && upserted.mappings == db.mappings
             && e in db.elements
    ensures e !in SaveInto(upserted, c, data, q).db.elements <==>
            e in Existing(db, c) && e !in PlanIds(data) && e !in Mapped(db)
  {
    DeletedExactly(upserted, c, data, q, e);
    assert FloorsOf(upserted, c) == FloorsOf(db, c);
    assert Existing(upserted, c) == Existing(db, c) && Mapped(upserted) == Mapped(db);
  }

  /** The elements of a configuration are in its space. */
  lemma {:induction false} ExistingInSpace(db: Db, c: Id, e: Id)
    requires Valid(db) && e in Existing(db, c)
    ensures c in db.configs && SpaceOf(db, e) == Some(db.configs[c].space)
  {
  }

  /** An element in a space of another tenant stays, unless the operation is a save on a configuration of another. */
  lemma {:induction false} OthersElementStays(w: World, t: Tenant, op: Op, e: Id)
    requires Valid(w.plans) && Possible(View(w, t), op) && !ForeignSave(w, t, op)
    requires SpaceOf(w.plans, e).Some? && SpaceOf(w.plans, e).value !in OwnSpaces(w, t)
    ensures e in Perform(View(w, t), op).elements
  {
    var db := View(w, t);
    assert SpaceOf(db, e) == SpaceOf(w.plans, e);
    match op
    case SavePlanOp(c, space, data, q) =>
      SavedStays(db, c, space, data, q, e);
      if e in Existing(db, c) {
        ExistingInSpace(db, c, e);
      }
    case QuickCreateOp(space, explicit, oldest, answer, body) => QuickCreatedSpace(db, space, explicit, oldest, answer,
        body, e);
    case AssignToFloorOp(space, explicit, oldest, ids, level, info, answer) =>
      AssignedToFloorSpace(db, space, explicit, oldest, ids, level, info, answer, e);
    case AssignToForecourtOp(space, explicit, oldest, ids) => AssignedToForecourtSpace(db, space, explicit, oldest,
        ids, e);
    case CreateMappingOp(location, x) =>
    case DeleteMappingOp(location) => DeletedSpace(db, location, e);
  }

  /** A mapping an operation of `t` leaves to `t` is an old one, or a new one onto an element of `t`. */
  lemma {:induction false} OwnMappingAfter(db: Db, op: Op, l: string)
    requires Possible(db, op) && l in Perform(db, op).mappings
    ensures var e := Perform(db, op).mappings[l];
            (l in db.mappings && db.mappings[l] == e) || (IsOwn(db, e) && Perform(db, op).elements == db.elements)
  {
  }

  /** The target of a mapping of `u` is in a space of `u` after an operation of `t`. */
  ghost predicate TargetOwned(w: World, u: Tenant, e: Id) {
    var s := SpaceOf(w.plans, e); s.Some? && s.value in OwnSpaces(w, u)
  }

  /** A tenant sees the places of the world, and leaves those of its operation. */
  lemma {:induction false} ActPlaces(w: World, t: Tenant, op: Op)
    requires Possible(View(w, t), op)
    ensures SamePlaces(w.plans, View(w, t)) && SamePlaces(Perform(View(w, t), op), Act(w, t, op).plans)
    ensures Act(w, t, op).owners == w.owners
    ensures Valid(Perform(View(w, t), op)) ==> Valid(Act(w, t, op).plans)
  {
  }

  lemma {:induction false} SeenSpace(w: World, t: Tenant, e: Id)
    ensures SpaceOf(View(w, t), e) == SpaceOf(w.plans, e)
  {
  }

  lemma {:induction false} TargetStays(w: World, t: Tenant, op: Op, u: Tenant, e: Id)
    requires Valid(w.plans) && Possible(View(w, t), op) && TargetOwned(w, u, e) && e in Act(w, t, op).plans.elements
    ensures TargetOwned(Act(w, t, op), u, e)
  {
    PerformKeepsSpace(View(w, t), op, e);
    ActPlaces(w, t, op);
    SeenSpace(w, t, e);
    SamePlacesSpace(Perform(View(w, t), op), Act(w, t, op).plans, e);
    SameOwner(w, Act(w, t, op), u, e);
  }

  lemma {:induction false} SameOwner(w: World, v: World, u: Tenant, e: Id)
    requires TargetOwned(w, u, e) && v.owners == w.owners && SpaceOf(v.plans, e) == SpaceOf(w.plans, e)
    ensures TargetOwned(v, u, e)
  {
  }

  lemma {:induction false} OwnMappingSound(w: World, t: Tenant, op: Op, l: string)
    requires WorldSound(w) && Possible(View(w, t), op) && l in Perform(View(w, t), op).mappings
    ensures TargetOwned(Act(w, t, op), t, Perform(View(w, t), op).mappings[l])
  {
    var e := Perform(View(w, t), op).mappings[l];
    ViewSound(w, t);
    PerformSound(View(w, t), op);
    OwnMappingAfter(View(w, t), op, l);
    OwnTarget(w, t, l, e);
    ActPlaces(w, t, op);
    TargetStays(w, t, op, t, e);
  }

  lemma {:induction false} OwnTarget(w: World, t: Tenant, l: string, e: Id)
    requires WorldSound(w) && ((l in OwnMappings(w, t) && OwnMappings(w, t)[l] == e) || IsOwn(View(w, t), e))
    ensures TargetOwned(w, t, e)
  {
    ViewMappings(w, t, l);
    SeenSpace(w, t, e);
  }

  /** An operation keeps the world sound when it deletes no element another tenant has mapped. */
  lemma {:induction false} ActSoundIf(w: World, t: Tenant, op: Op)
    requires WorldSound(w) && Possible(View(w, t), op)
    requires forall k :: k in w.mappings && k.0 != t ==> w.mappings[k] in Perform(View(w, t), op).elements
    ensures WorldSound(Act(w, t, op))
  {
    ViewSound(w, t);
    PerformSound(View(w, t), op);
    ActPlaces(w, t, op);
    forall k | k in Act(w, t, op).mappings ensures TargetOwned(Act(w, t, op), k.0, Act(w, t, op).mappings[k]) {
      MappingAfter(w, t, op, k);
    }
    SoundFrom(Act(w, t, op));
  }

  lemma {:induction false} MappingAfter(w: World, t: Tenant, op: Op, k: (Tenant, string))
    requires WorldSound(w) && Possible(View(w, t), op) && k in Act(w, t, op).mappings
    requires k.0 != t && k in w.mappings ==> w.mappings[k] in Act(w, t, op).plans.elements
    ensures TargetOwned(Act(w, t, op), k.0, Act(w, t, op).mappings[k])
  {
    WithMappingsAt(w.mappings, t, Perform(View(w, t), op).mappings, k);
    if k.0 == t {
      OwnMappingSound(w, t, op, k.1);
    } else {
      assert TargetOwned(w, k.0, w.mappings[k]);
      TargetStays(w, t, op, k.0, w.mappings[k]);
    }
  }

  lemma {:induction false} SoundFrom(w: World)
    requires Valid(w.plans) && forall k :: k in w.mappings ==> TargetOwned(w, k.0, w.mappings[k])
    ensures WorldSound(w)
  {
  }

  lemma {:induction false} ActSound(w: World, t: Tenant, op: Op)
    requires WorldSound(w) && Possible(View(w, t), op) && !ForeignSave(w, t, op)
    ensures WorldSound(Act(w, t, op))
  {
    forall k | k in w.mappings && k.0 != t ensures w.mappings[k] in Perform(View(w, t), op).elements {
      OthersElementStays(w, t, op, w.mappings[k]);
    }
    ActSoundIf(w, t, op);
  }

  // ----- Every run of every tenant --------------------------------------------------------------------------

  ghost predicate WorldRun(states: seq<World>, acts: seq<(Tenant, Op)>) {
    && |states| == |acts| + 1
    && forall k :: 0 <= k < |acts| ==>
         Possible(View(states[k], acts[k].0), acts[k].1) && states[k + 1] == Act(states[k], acts[k].0, acts[k].1)
  }

  /**
   However the operations of all tenants interleave, as long as no save names a configuration of another
   tenant, every mapping of every tenant points at an existing element in a space of that tenant.
   */
  lemma {:induction false} EveryTenantsMappings(states: seq<World>, acts: seq<(Tenant, Op)>)
    requires WorldRun(states, acts) && WorldSound(states[0])
    requires forall k :: 0 <= k < |acts| ==> !ForeignSave(states[k], acts[k].0, acts[k].1)
    ensures WorldSound(states[|acts|])
  {
    if acts != [] {
      var n := |acts| - 1;
      EveryTenantsMappings(states[..n + 1], acts[..n]);
      assert states[n + 1] == Act(states[n], acts[n].0, acts[n].1);
      ActSound(states[n], acts[n].0, acts[n].1);
    }
  }

  // ----- A save on a configuration of another tenant -----------------------------------------------------------

  /** The save of `t` deletes an element that another tenant has mapped. */
  ghost predicate TakesAMappedElement(w: World, t: Tenant, c: Id, data: PlanJson) {
    exists k :: k in w.mappings && k.0 != t && w.mappings[k] in Existing(w.plans, c) && w.mappings[k] !in PlanIds(data)
  }

  /** A check or the forecourt's unique constraint stops the save. None looks at configurations of another tenant. */
  predicate SaveRefused(w: World, t: Tenant, c: Id, space: Id, data: PlanJson) {
    || space !in OwnSpaces(w, t)
    || (c in w.plans.configs && w.plans.configs[c].space in OwnSpaces(w, t) && w.plans.configs[c].space != space)
    || ForecourtClash(w.plans, c, data)
  }

  /**
   Which mapped elements survive a save of `t`, whosever the configuration is: those `t` has mapped, and of
   those another tenant has mapped the ones outside the configuration or in the payload. The queries that
   protect mapped elements see the tenant's own mappings alone.
   */
  lemma {:induction false} MappedElementSurvivesIff(w: World, t: Tenant, c: Id, space: Id, data: PlanJson, q: Query,
                                                    k: (Tenant, string))
    requires WorldSound(w) && Answers(View(w, t), c, q) && k in w.mappings
    ensures w.mappings[k] in Act(w, t, SavePlanOp(c, space, data, q)).plans.elements <==>
            k.0 == t || SaveRefused(w, t, c, space, data) || w.mappings[k] !in Existing(w.plans, c)
                || w.mappings[k] in PlanIds(data)
  {
    MappedSeen(w, t, k);
    SavedStays(View(w, t), c, space, data, q, w.mappings[k]);
    SaveSucceedsIff(w, t, c, space, data, q);
    SeenExisting(w, t, c);
  }

  /** The tenant sees as mapped, of the mapped elements, its own alone. */
  lemma {:induction false} MappedSeen(w: World, t: Tenant, k: (Tenant, string))
    requires WorldSound(w) && k in w.mappings
    ensures w.mappings[k] in w.plans.elements && (w.mappings[k] in Mapped(View(w, t)) <==> k.0 == t)
  {
    if k.0 == t {
      assert k == (t, k.1);
      ViewMappings(w, t, k.1);
    } else {
      NotMappedByOthers(w, t, k);
    }
  }

  /**
   So a save keeps the mappings of every tenant sound exactly when it is refused, or no element of the
   configuration that another tenant has mapped is missing from the payload.
   */
  lemma {:induction false} SaveKeepsEveryMappingIff(w: World, t: Tenant, c: Id, space: Id, data: PlanJson, q: Query)
    requires WorldSound(w) && Answers(View(w, t), c, q)
    ensures WorldSound(Act(w, t, SavePlanOp(c, space, data, q))) <==>
            SaveRefused(w, t, c, space, data) || !TakesAMappedElement(w, t, c, data)
  {
    var op := SavePlanOp(c, space, data, q);
    forall k | k in w.mappings
      ensures w.mappings[k] in Perform(View(w, t), op).elements <==>
              k.0 == t || SaveRefused(w, t, c, space, data) || w.mappings[k] !in Existing(w.plans, c)
                  || w.mappings[k] in PlanIds(data)
    {
      MappedElementSurvivesIff(w, t, c, space, data, q, k);
    }
    if SaveRefused(w, t, c, space, data) || !TakesAMappedElement(w, t, c, data) {
      ActSoundIf(w, t, op);
    } else {
      var k :| k in w.mappings && k.0 != t && w.mappings[k] in Existing(w.plans, c) && w.mappings[k] !in PlanIds(data);
      LeftDangling(w, t, op, k);
    }
  }

  lemma {:induction false} SeenExisting(w: World, t: Tenant, c: Id)
    ensures Existing(View(w, t), c) == Existing(w.plans, c)
  {
    assert FloorsOf(View(w, t), c) == FloorsOf(w.plans, c);
  }

  lemma {:induction false} SaveSucceedsIff(w: World, t: Tenant, c: Id, space: Id, data: PlanJson, q: Query)
    requires Answers(View(w, t), c, q)
    ensures SavePlan(View(w, t), c, space, data, q).Ok? <==> !SaveRefused(w, t, c, space, data)
  {
  }

  lemma {:induction false} LeftDangling(w: World, t: Tenant, op: Op, k: (Tenant, string))
    requires Possible(View(w, t), op) && k in w.mappings && k.0 != t
             && w.mappings[k] !in Perform(View(w, t), op).elements
    ensures !WorldSound(Act(w, t, op))
  {
    WithMappingsAt(w.mappings, t, Perform(View(w, t), op).mappings, k);
    assert SpaceOf(Act(w, t, op).plans, w.mappings[k]).None?;
  }

  lemma {:induction false} NotMappedByOthers(w: World, t: Tenant, k: (Tenant, string))
    requires WorldSound(w) && k in w.mappings && k.0 != t
    ensures w.mappings[k] in w.plans.elements && w.mappings[k] !in Mapped(View(w, t))
  {
    assert TargetOwned(w, k.0, w.mappings[k]);
    forall l | l in OwnMappings(w, t) ensures OwnMappings(w, t)[l] != w.mappings[k] {
      ViewMappings(w, t, l);
      OwnTarget(w, t, l, OwnMappings(w, t)[l]);
    }
  }

  /** The plans of every other tenant are as they were. */
  ghost predicate OthersPlansUntouched(w: World, v: World, t: Tenant) {
    forall d :: ForeignConfig(w, t, d) ==> Untouched(w.plans, v.plans, d)
  }

  lemma {:induction false} UntouchedTrans(a: Db, b: Db, after: Db, d: Id)
    requires SamePlaces(a, b) && Untouched(b, after, d)
             && (d in a.configs ==> d in b.configs && b.configs[d] == a.configs[d])
    requires d in b.configs ==> d in a.configs
    ensures Untouched(a, after, d)
  {
    assert FloorsOf(a, d) == FloorsOf(b, d) && Existing(a, d) == Existing(b, d);
  }

  lemma {:induction false} OwnSaveLeavesOthers(w: World, t: Tenant, c: Id, space: Id, data: PlanJson, q: Query, d: Id)
    requires Valid(w.plans) && Answers(View(w, t), c, q) && d in w.plans.configs && d != c
    ensures Untouched(w.plans, Act(w, t, SavePlanOp(c, space, data, q)).plans, d)
  {
    var db, op := View(w, t), SavePlanOp(c, space, data, q);
    ActPlaces(w, t, op);
    if SavePlan(db, c, space, data, q).Ok? {
      SavedLeaves(db, c, space, data, q, d);
    }
    SameTablesUntouched(w.plans, db, Perform(db, op), Act(w, t, op).plans, d);
  }

  lemma {:induction false} SavedLeaves(db: Db, c: Id, space: Id, data: PlanJson, q: Query, d: Id)
    requires Valid(db) && Answers(db, c, q) && d in db.configs && d != c && SavePlan(db, c, space, data, q).Ok?
    ensures Untouched(db, SavePlan(db, c, space, data, q).value.db, d)
  {
    UpsertedPlaces(db, c, space, data);
    UpsertedReady(db, c, space, data, q);
    OtherConfigsUntouched(WithConfig(db, c, space, data), c, data, q, d);
    UntouchedTrans(db, WithConfig(db, c, space, data), SaveInto(WithConfig(db, c, space, data), c, data, q).db, d);
  }

  lemma {:induction false} SameTablesUntouched(a: Db, b: Db, after: Db, after': Db, d: Id)
    requires SamePlaces(a, b) && a.configs == b.configs && SamePlaces(after, after') && after'.configs == after.configs
    requires Untouched(b, after, d) || b == after
    ensures Untouched(a, after', d)
  {
    assert FloorsOf(a, d) == FloorsOf(b, d) && Existing(a, d) == Existing(b, d);
    assert FloorsOf(after', d) == FloorsOf(after, d) && Existing(after', d) == Existing(after, d);
  }

  lemma {:induction false} Enumerated(s: set<Id>)
    ensures exists order :: Enumerates(order, s)
  {
    if s == {} {
      assert Enumerates([], s);
    } else {
      var x :| x in s;
      Enumerated(s - {x});
      var rest :| Enumerates(rest, s - {x});
      assert Enumerates(rest + [x], s);
    }
  }

  /**
   A save of tenant `t` leaves the plans of every other tenant as they are, whatever the payload, exactly
   when its id is not that of a configuration of another tenant: the check looks for it among the
   tenant's own, finds nothing, and the save goes on.
   */
  lemma {:induction false} SaveLeavesOthersAloneIff(w: World, t: Tenant, c: Id, space: Id)
    requires Valid(w.plans) && space in OwnSpaces(w, t)
    ensures (forall data, q :: Answers(View(w, t), c, q) ==>
             OthersPlansUntouched(w, Act(w, t, SavePlanOp(c, space, data, q)), t)) <==>
            !ForeignConfig(w, t, c)
  {
    if ForeignConfig(w, t, c) {
      Enumerated(FloorsOf(View(w, t), c));
      Enumerated(OnFloors(View(w, t), FloorsOf(View(w, t), c)));
      var order :| Enumerates(order, FloorsOf(View(w, t), c));
      var scan :| Enumerates(scan, OnFloors(View(w, t), FloorsOf(View(w, t), c)));
      var merch := if w.plans.configs[c].data.merch.None? then Some(JsonZone(None, "", [])) else None;
      ForeignDataReplaced(w, t, c, space, PlanJson([], None, merch), Query(order, scan));
    } else {
      forall data, q | Answers(View(w, t), c, q)
          ensures OthersPlansUntouched(w, Act(w, t, SavePlanOp(c, space, data, q)), t) {
        forall d | ForeignConfig(w, t, d)
            ensures Untouched(w.plans, Act(w, t, SavePlanOp(c, space, data, q)).plans, d) {
          OwnSaveLeavesOthers(w, t, c, space, data, q, d);
        }
      }
    }
  }

  /** The plan of the other tenant is replaced by the payload. */
  lemma {:induction false} ForeignDataReplaced(w: World, t: Tenant, c: Id, space: Id, data: PlanJson, q: Query)
    requires Valid(w.plans) && space in OwnSpaces(w, t) && ForeignConfig(w, t, c) && Answers(View(w, t), c, q)
    requires data.forecourt.None? && data.merch != w.plans.configs[c].data.merch
    ensures !OthersPlansUntouched(w, Act(w, t, SavePlanOp(c, space, data, q)), t)
  {
    var v := Act(w, t, SavePlanOp(c, space, data, q));
    assert v.plans.configs[c].data.merch == data.merch;
    assert !Untouched(w.plans, v.plans, c);
  }
}
