/**
 The agreement of JSON and rows over whole runs: loads and saves, other saves with a clean payload, quick
 creations, assignments that meet their conditions, mapping creations and deletions, and anything on
 another configuration. After each of them loading and saving collapses the floor rows as at the start.
 */
module FloorPlanRuns {
  import opened Common
  import opened FloorPlan
  import opened FloorPlanSave
  import opened FloorPlanGuarantees
  import opened FloorPlanLoad
  import opened FloorPlanCollapse
  import opened FloorPlanOps
  import opened FloorPlanSaveAgreement
  import opened FloorPlanAgreement
  import opened FloorPlanTenants

  // ----- Operations elsewhere ---------------------------------------------------------------------------

  /** The configuration keeps its JSON, its floors and its forecourt, and at most loses elements. */
  ghost predicate OnlyLoses(db: Db, after: Db, c: Id) {
    && c in db.configs && c in after.configs && after.configs[c].data == db.configs[c].data
    && (forall f :: f in FloorsOf(after, c) && f < db.nextFloor ==>
        f in FloorsOf(db, c) && after.floors[f].level == db.floors[f].level)
    && (forall f :: f in FloorsOf(db, c) ==> f in FloorsOf(after, c) && after.floors[f].level == db.floors[f].level)
    && (c in after.forecourts <==> c in db.forecourts)
        && (c in db.forecourts ==> after.forecourts[c].id == db.forecourts[c].id)
    && (forall x :: x in Existing(after, c) ==> x in Existing(db, c) && after.elements[x] == db.elements[x])
    && db.nextFloor <= after.nextFloor && db.nextZone <= after.nextZone && db.nextElement <= after.nextElement
  }

  lemma {:induction false} FloorKept(db: Db, after: Db, c: Id, f: JsonFloor)
    requires OnlyLoses(db, after, c) && FloorAgrees(db, c, f) && FloorFromPast(db, f)
    ensures FloorAgrees(after, c, f)
  {
    forall x | x in IdsOf(f.elements) && x in Existing(after, c) ensures OnLevel(after, c, x, f.level) {
      assert x in Existing(db, c) && OnLevel(db, c, x, f.level);
    }
  }

  lemma {:induction false} ForecourtKept(db: Db, after: Db, c: Id, json: PlanJson)
    requires OnlyLoses(db, after, c) && ForecourtAgrees(db, c, json)
    ensures ForecourtAgrees(after, c, json)
  {
    forall x | x in InForecourt(after, c) ensures x in InForecourt(db, c) {
      assert x in Existing(after, c);
    }
    forall x | x in ZoneIdsOf(json.forecourt) && x in Existing(after, c) ensures x in InForecourt(after, c) {
      assert x in Existing(db, c);
    }
  }

  lemma {:induction false} OnlyLosesKeeps(db: Db, after: Db, c: Id)
    requires InStep(db, c) && OnlyLoses(db, after, c)
    ensures InStep(after, c)
  {
    var json := db.configs[c].data;
    forall i | 0 <= i < |json.floors| ensures FloorAgrees(after, c, json.floors[i]) {
      assert FloorAgrees(db, c, json.floors[i]) && FloorFromPast(db, json.floors[i]);
      FloorKept(db, after, c, json.floors[i]);
    }
    ForecourtKept(db, after, c, json);
    StillFromPast(db, after, json);
  }

  /** What is created or moved goes to another configuration, and nothing else changes but JSON and mappings. */
  ghost predicate PlacedElsewhere(db: Db, after: Db, c: Id) {
    && c in db.configs && c in after.configs && after.configs[c].data == db.configs[c].data
    && FloorsOf(after, c) == FloorsOf(db, c) && (forall f :: f in FloorsOf(db, c) ==> after.floors[f] == db.floors[f])
    && (c in after.forecourts <==> c in db.forecourts)
        && (c in db.forecourts ==> after.forecourts[c] == db.forecourts[c])
    && (forall x :: x in after.elements && ConfigAt(after, after.elements[x].place) == Some(c)
                    && !after.elements[x].place.OnMerch? ==>
          x in db.elements && after.elements[x] == db.elements[x])
    && db.nextFloor <= after.nextFloor && db.nextZone <= after.nextZone && db.nextElement <= after.nextElement
  }

  lemma {:induction false} ExistingAt(db: Db, c: Id, x: Id)
    requires c in db.forecourts || InForecourt(db, c) == {}
    ensures x in Existing(db, c) <==>
              x in db.elements && !db.elements[x].place.OnMerch? && ConfigAt(db, db.elements[x].place) == Some(c)
  {
    if x in InForecourt(db, c) {
      assert InForecourt(db, c) != {};
    }
  }

  lemma {:induction false} ElsewhereLoses(db: Db, after: Db, c: Id)
    requires Valid(db) && Valid(after) && PlacedElsewhere(db, after, c)
    ensures OnlyLoses(db, after, c)
  {
    NoForecourtHoldsNone(db, c);
    NoForecourtHoldsNone(after, c);
    forall x | x in Existing(after, c) ensures x in Existing(db, c) && after.elements[x] == db.elements[x] {
      ExistingAt(after, c, x);
      ExistingAt(db, c, x);
    }
  }

  lemma {:induction false} NoForecourtHoldsNone(db: Db, c: Id)
    requires Valid(db)
    ensures c in db.forecourts || InForecourt(db, c) == {}
  {
    forall x | x in InForecourt(db, c) ensures c in db.forecourts {
      assert PlaceExists(db, db.elements[x].place);
    }
  }

  lemma {:induction false} EnsuredFloorElsewhere(db: Db, d: Id, found: Option<Id>, level: int, info: Info, c: Id)
    requires Valid(db) && c in db.configs && d != c
    ensures PlacedElsewhere(db, EnsureFloor(db, d, found, level, info).db, c)
  {
    forall x | x in db.elements ensures PlaceExists(db, db.elements[x].place) {
    }
  }

  lemma {:induction false} EnsuredForecourtElsewhere(db: Db, d: Id, c: Id)
    requires Valid(db) && c in db.configs && d != c
    ensures PlacedElsewhere(db, EnsureForecourt(db, d), c)
  {
  }

  lemma {:induction false} MovedElsewhere(db: Db, mid: Db, moved: seq<Id>, place: Place, d: Id, c: Id)
    requires PlacedElsewhere(db, mid, c) && ConfigAt(mid, place) == Some(d) && d != c
    ensures PlacedElsewhere(db, Moved(mid, moved, place), c)
  {
  }

  lemma {:induction false} WrittenElsewhere(db: Db, mid: Db, data: PlanJson, d: Id, c: Id)
    requires PlacedElsewhere(db, mid, c) && d in mid.configs && d != c
    ensures PlacedElsewhere(db, WriteJson(mid, d, data), c)
  {
  }

  lemma {:induction false} CreatedElsewhere(db: Db, mid: Db, f: Id, body: Body, d: Id, c: Id)
    requires PlacedElsewhere(db, mid, c) && f in FloorsOf(mid, d) && d != c
    ensures PlacedElsewhere(db, WithElement(mid, f, body), c)
  {
  }

  lemma {:induction false} QuickCreatedElsewhere(db: Db, space: Id, explicit: Option<Id>, oldest: Option<Id>,
                                                 lowest: Option<Id>, body: Body,
                                                 d: Id, c: Id)
    requires Valid(db) && OldestAnswer(db, space, oldest) && space in db.spaces && c in db.configs && d != c
    requires TargetConfig(db, space, explicit, oldest) == Some(d) && LowestAnswer(db, d, lowest)
    ensures PlacedElsewhere(db, Value(db, QuickCreate(db, space, explicit, oldest, lowest, body)), c)
  {
    var found := EnsureFloor(db, d, lowest, 0, "RDC");
    EnsuredFloorElsewhere(db, d, lowest, 0, "RDC", c);
    CreatedElsewhere(db, found.db, found.row, body, d, c);
    WrittenElsewhere(db, WithElement(found.db, found.row, body),
                     JsonWithElement(db.configs[d].data, found.row, found.db.floors[found.row],
                                     NewElement(found.db, body)), d, c);
  }

  lemma {:induction false} AssignedToFloorElsewhere(db: Db, space: Id, explicit: Option<Id>, oldest: Option<Id>,
                                                    ids: seq<Id>, level: int,
                                                    info: Info, atLevel: Option<Id>, d: Id, c: Id)
    requires Valid(db) && OldestAnswer(db, space, oldest) && space in db.spaces && c in db.configs && d != c
    requires TargetConfig(db, space, explicit, oldest) == Some(d) && LevelAnswer(db, d, level, atLevel)
    ensures PlacedElsewhere(db, Value(db, AssignToFloor(db, space, explicit, oldest, ids, level, info, atLevel)), c)
  {
    var found, moved := EnsureFloor(db, d, atLevel, level, info), Movable(db, space, ids);
    var placed := Moved(found.db, moved, OnFloor(found.row));
    EnsuredFloorElsewhere(db, d, atLevel, level, info, c);
    AssignedResult(db, space, explicit, oldest, ids, level, info, atLevel, d);
    MovedElsewhere(db, found.db, moved, OnFloor(found.row), d, c);
    WrittenElsewhere(db, placed,
                     JsonMovedToFloor(placed, found.db.configs[d].data, found.row, found.db.floors[found.row], moved),
                         d, c);
  }

  lemma {:induction false} AssignedToForecourtElsewhere(db: Db, space: Id, explicit: Option<Id>, oldest: Option<Id>,
                                                        ids: seq<Id>, d: Id, c: Id)
    requires Valid(db) && OldestAnswer(db, space, oldest) && space in db.spaces && c in db.configs && d != c
    requires TargetConfig(db, space, explicit, oldest) == Some(d)
    ensures PlacedElsewhere(db, Value(db, AssignToForecourt(db, space, explicit, oldest, ids)), c)
  {
    var ensured, moved := EnsureForecourt(db, d), Movable(db, space, ids);
    var placed := Moved(ensured, moved, OnForecourt(d));
    EnsuredForecourtElsewhere(db, d, c);
    ForecourtAssigned(db, space, explicit, oldest, ids, d);
    MovedElsewhere(db, ensured, moved, OnForecourt(d), d, c);
    WrittenElsewhere(db, placed, JsonMovedToForecourt(placed, ensured.configs[d].data, ensured.forecourts[d], moved),
                     d, c);
  }

  // ----- Deleting a mapping, and its element ---------------------------------------------------------------

  lemma {:induction false} WithoutCount(els: seq<JsonElement>, moved: seq<Id>, x: Id)
    ensures multiset(IdsOf(Without(els, moved)))[x] <= multiset(IdsOf(els))[x]
  {
    if els != [] {
      var n := |els| - 1;
      WithoutCount(els[..n], moved, x);
      if els[n].id.Some? && els[n].id.value in moved {
        assert Without(els, moved) == Without(els[..n], moved);
      } else {
        IdsConcat(Without(els[..n], moved), [els[n]]);
        IdsOfOne(els[n]);
      }
    }
  }

  lemma {:induction false} ZoneWithout(json: PlanJson, e: Id, x: Id)
    ensures var out := JsonWithoutElement(json, e);
            && (x in ZoneIdsOf(out.forecourt) <==> x in ZoneIdsOf(json.forecourt) && x != e)
            && multiset(ZoneIdsOf(out.forecourt))[x] <= multiset(ZoneIdsOf(json.forecourt))[x]
  {
    if json.forecourt.Some? {
      WithoutIds(json.forecourt.value.elements, [e], x);
      WithoutCount(json.forecourt.value.elements, [e], x);
    }
  }

  /** `after` is `db` without the element `e` and its menu assignments. */
  ghost predicate IsGone(db: Db, after: Db, c: Id, e: Id) {
    && c in db.configs && c in after.configs && after.configs[c].data == JsonWithoutElement(db.configs[c].data, e)
    && after.floors == db.floors && after.forecourts == db.forecourts && after.elements == db.elements - {e}
    && after.nextFloor == db.nextFloor && after.nextZone == db.nextZone && after.nextElement == db.nextElement
  }

  lemma {:induction false} GoneFloor(db: Db, after: Db, c: Id, e: Id, f: JsonFloor)
    requires IsGone(db, after, c, e) && FloorAgrees(db, c, f) && FloorFromPast(db, f)
    ensures var g := f.(elements := Without(f.elements, [e])); FloorAgrees(after, c, g) && FloorFromPast(after, g)
  {
    forall x: Id ensures x in IdsOf(Without(f.elements, [e])) <==> x in IdsOf(f.elements) && x != e {
      WithoutIds(f.elements, [e], x);
    }
    FloorStillAgrees(db, after, c, f, f.(elements := Without(f.elements, [e])));
  }

  /** `now` is `was` without `e`, and lists no other id more often. */
  ghost predicate Loses(was: seq<Id>, now: seq<Id>, e: Id) {
    forall x: Id :: (x in now <==> x in was && x != e) && multiset(now)[x] <= multiset(was)[x]
  }

  lemma {:induction false} GoneZone(db: Db, after: Db, c: Id, e: Id, was: seq<Id>, now: seq<Id>)
    requires after.floors == db.floors && after.elements == db.elements - {e}
    requires Loses(was, now, e) && DistinctAmong(was, Existing(db, c))
    ensures InForecourt(after, c) == InForecourt(db, c) - {e}
    ensures Existing(after, c) == Existing(db, c) - {e} && DistinctAmong(now, Existing(after, c))
  {
  }

  lemma {:induction false} ZoneLoses(json: PlanJson, e: Id)
    ensures Loses(ZoneIdsOf(json.forecourt), ZoneIdsOf(JsonWithoutElement(json, e).forecourt), e)
  {
    forall x: Id {
      ZoneWithout(json, e, x);
    }
  }

  lemma {:induction false} GoneForecourt(db: Db, after: Db, c: Id, e: Id, json: PlanJson)
    requires IsGone(db, after, c, e) && ForecourtAgrees(db, c, json)
    ensures ForecourtAgrees(after, c, JsonWithoutElement(json, e))
  {
    ZoneLoses(json, e);
    GoneZone(db, after, c, e, ZoneIdsOf(json.forecourt), ZoneIdsOf(JsonWithoutElement(json, e).forecourt));
  }

  lemma {:induction false} GoneInStep(db: Db, after: Db, c: Id, e: Id)
    requires InStep(db, c) && IsGone(db, after, c, e)
    ensures InStep(after, c)
  {
    var json, out := db.configs[c].data, after.configs[c].data;
    forall i | 0 <= i < |out.floors| ensures FloorAgrees(after, c, out.floors[i])
        && FloorFromPast(after, out.floors[i]) {
      assert FloorAgrees(db, c, json.floors[i]) && FloorFromPast(db, json.floors[i]);
      GoneFloor(db, after, c, e, json.floors[i]);
    }
    GoneForecourt(db, after, c, e, json);
    forall x: Id ensures x in ZoneIdsOf(out.forecourt) ==> x in ZoneIdsOf(json.forecourt) {
      ZoneWithout(json, e, x);
    }
  }

  lemma {:induction false} GoneElsewhere(db: Db, after: Db, c: Id, e: Id)
    requires Valid(db) && c in db.configs && c in after.configs && after.configs[c].data == db.configs[c].data
    requires after.floors == db.floors && after.forecourts == db.forecourts && after.elements == db.elements - {e}
    requires after.nextFloor == db.nextFloor && after.nextZone == db.nextZone && after.nextElement == db.nextElement
    ensures OnlyLoses(db, after, c)
  {
  }

  /** Only mappings differ. */
  lemma {:induction false} SameTablesInStep(db: Db, after: Db, c: Id)
    requires InStep(db, c) && after == db.(mappings := after.mappings)
    ensures InStep(after, c)
  {
    assert FloorsOf(after, c) == FloorsOf(db, c) && Existing(after, c) == Existing(db, c)
           && InForecourt(after, c) == InForecourt(db, c);
    OnlyLosesKeeps(db, after, c);
  }

  lemma {:induction false} DeletedHere(db: Db, e: Id, c: Id)
    requires e !in Mapped(db) && IsOwn(db, e) && ConfigAt(db, db.elements[e].place) == Some(c)
    ensures IsGone(db, DeleteUnreferenced(db, e), c, e)
  {
  }

  lemma {:induction false} DeletedElsewhere(db: Db, e: Id, c: Id)
    requires e !in Mapped(db) && IsOwn(db, e) && ConfigAt(db, db.elements[e].place) != Some(c) && c in db.configs
    ensures var after := DeleteUnreferenced(db, e);
            && c in after.configs && after.configs[c].data == db.configs[c].data
            && after.floors == db.floors && after.forecourts == db.forecourts && after.elements == db.elements - {e}
            && after.nextFloor == db.nextFloor && after.nextZone == db.nextZone && after.nextElement == db.nextElement
  {
  }

  /** Deleting an element keeps the JSON and the rows of every configuration in step. */
  lemma {:induction false} DeleteUnreferencedInStep(db: Db, e: Id, c: Id)
    requires Valid(db) && InStep(db, c)
    ensures InStep(DeleteUnreferenced(db, e), c)
  {
    if e !in Mapped(db) && IsOwn(db, e) {
      var d := ConfigAt(db, db.elements[e].place).value;
      if d == c {
        DeletedHere(db, e, c);
        GoneInStep(db, DeleteUnreferenced(db, e), c, e);
      } else {
        DeletedElsewhere(db, e, c);
        GoneElsewhere(db, DeleteUnreferenced(db, e), c, e);
        OnlyLosesKeeps(db, DeleteUnreferenced(db, e), c);
      }
    }
  }

  /** So does deleting a mapping, with its element when no other mapping is left on it. */
  lemma {:induction false} DeleteMappingInStep(db: Db, location: string, c: Id)
    requires Valid(db) && InStep(db, c)
    ensures InStep(DeleteMapping(db, location), c)
  {
    if location in db.mappings {
      var unmapped := db.(mappings := db.mappings - {location});
      SameTablesInStep(db, unmapped, c);
      DeleteUnreferencedInStep(unmapped, db.mappings[location], c);
    }
  }

  // ----- Saves ----------------------------------------------------------------------------------------------

  /** After any save the ids in the JSON are from the past. */
  lemma {:induction false} SaveFromPast(db: Db, c: Id, p: PlanJson, q: Query)
    requires SaveReady(db, c, q)
    ensures JsonFromPast(SaveInto(db, c, p, q).db, c)
  {
    var after, out, fs := SaveInto(db, c, p, q).db, SavedPlan(db, c, p, q), SavedFloors(db, p, q.scan);
    SaveIsPrepared(db, c, p, q);
    SavedFloorsShape(db, c, p, q);
    SavedZoneShape(db, c, p, q);
    ExistingBelow(db, c);
    WrittenFromPast(db, c, p, out, after, Targets(fs, q.order, db.floors, db.nextFloor));
  }

  lemma {:induction false} WrittenFromPast(db: Db, c: Id, p: PlanJson, out: PlanJson, after: Db, targets: seq<Id>)
    requires Prepared(db, c, p, out, after.nextElement) && |targets| == |out.floors|
    requires forall i :: 0 <= i < |out.floors| ==> out.floors[i].id == Some(targets[i])
    requires forall f :: f in targets ==> f in FloorsOf(db, c) || db.nextFloor <= f < after.nextFloor
    requires out.forecourt.Some? ==>
                 out.forecourt.value.id == Some(ForecourtId(db, c)) && ForecourtId(db, c) < after.nextZone
    requires db.nextFloor <= after.nextFloor
    ensures PlanFromPast(after, out)
  {
    ExistingBelow(db, c);
    forall i | 0 <= i < |out.floors| ensures FloorFromPast(after, out.floors[i]) {
      assert targets[i] in targets;
      forall x: Id | x in IdsOf(out.floors[i].elements) ensures x < after.nextElement {
        FloorIdsAt(out.floors, x);
        assert x in PlanIds(out);
      }
    }
    forall x: Id | x in ZoneIdsOf(out.forecourt) ensures x < after.nextElement {
      assert x in PlanIds(out);
    }
  }

  /** The payload of a save is what loading the configuration gives. */
  ghost predicate IsLoadOf(db: Db, c: Id, data: PlanJson) {
    exists order, scan :: LoadReady(db, c, order, scan) && IsLoad(db, c, order, scan, data)
  }

  lemma {:induction false} SameExisting(db: Db, after: Db, c: Id)
    requires SameRows(db, after) && after.mappings == db.mappings
    ensures FloorsOf(after, c) == FloorsOf(db, c) && Existing(after, c) == Existing(db, c)
            && Mapped(after) == Mapped(db)
  {
    assert FloorsOf(after, c) == FloorsOf(db, c);
  }

  lemma {:induction false} SameDeletions(db: Db, after: Db, c: Id, out: PlanJson)
    requires SameRows(db, after) && after.mappings == db.mappings
    ensures RowsAfter(after, c, out) == RowsAfter(db, c, out)
    ensures Dropped(after, c, out) == Dropped(db, c, out) && Cascaded(after, c, out) == Cascaded(db, c, out)
  {
    SameExisting(db, after, c);
    assert Pruned(after, c, out) == Pruned(db, c, out);
    forall f ensures OnFloors(after, {f}) == OnFloors(db, {f}) {
    }
    assert Dropped(after, c, out) == Dropped(db, c, out);
  }

  lemma {:induction false} SameNumbered(db: Db, after: Db, c: Id, p: PlanJson, fs: seq<JsonFloor>, order: seq<Id>)
    requires SameRows(db, after) && after.mappings == db.mappings && forall f :: f in order ==> f in db.floors
    ensures NumberedPlan(after, c, p, fs, order) == NumberedPlan(db, c, p, fs, order)
    ensures NextElement(after, c, p, fs) == NextElement(db, c, p, fs)
            && NextFloor(after, fs, order) == NextFloor(db, fs, order)
    ensures ForecourtId(after, c) == ForecourtId(db, c)
  {
    SameExisting(db, after, c);
  }

  /** What a save stores does not depend on the JSON that was there. */
  lemma {:induction false} SameSave(db: Db, c: Id, space: Id, data: PlanJson, q: Query)
    requires c in db.configs && Answers(db, c, q)
    ensures Answers(WithConfig(db, c, space, data), c, q)
    ensures SaveInto(WithConfig(db, c, space, data), c, data, q) == SaveInto(db, c, data, q)
  {
    var upserted := WithConfig(db, c, space, data);
    WithConfigAnswers(db, c, space, data, q);
    SameOrphans(db, upserted, PlanIds(data), q.scan);
    SameNumbered(db, upserted, c, data, SavedFloors(db, data, q.scan), q.order);
    SameDeletions(db, upserted, c, SavedPlan(db, c, data, q));
    SameSaved(db, upserted, c, data, q, SavedPlan(db, c, data, q));
  }

  lemma {:induction false} SameSaved(db: Db, after: Db, c: Id, data: PlanJson, q: Query, out: PlanJson)
    requires c in db.configs && Answers(db, c, q) && Answers(after, c, q) && c in after.configs
    requires out == SavedPlan(db, c, data, q) && out == SavedPlan(after, c, data, q)
    requires after == db.(configs := db.configs[c := db.configs[c].(data := data)])
    requires RowsAfter(after, c, out) == RowsAfter(db, c, out)
    requires Dropped(after, c, out) == Dropped(db, c, out) && Cascaded(after, c, out) == Cascaded(db, c, out)
    requires ForecourtId(after, c) == ForecourtId(db, c)
    requires var fs := SavedFloors(db, data, q.scan);
             && SavedFloors(after, data, q.scan) == fs && NextElement(after, c, data, fs) ==
                 NextElement(db, c, data, fs)
             && NextFloor(after, fs, q.order) == NextFloor(db, fs, q.order)
    ensures SaveInto(after, c, data, q) == SaveInto(db, c, data, q)
  {
    assert after.configs[c := after.configs[c].(data := out)] == db.configs[c := db.configs[c].(data := out)];
  }

  lemma {:induction false} SameOrphans(db: Db, after: Db, incoming: seq<Id>, scan: seq<Id>)
    requires after.elements == db.elements && after.mappings == db.mappings && forall e :: e in scan ==>
               e in db.elements
    ensures Orphans(after, incoming, scan) == Orphans(db, incoming, scan)
  {
    if scan != [] {
      SameOrphans(db, after, incoming, scan[..|scan| - 1]);
      assert Mapped(after) == Mapped(db);
    }
  }

  lemma {:induction false} SavedElsewhere(db: Db, d: Id, space: Id, data: PlanJson, q: Query, c: Id)
    requires Valid(db) && InStep(db, c) && Answers(db, d, q) && d != c
    ensures var r := SavePlan(db, d, space, data, q); r.Ok? ==> InStep(r.value.db, c)
  {
    var r := SavePlan(db, d, space, data, q);
    if r.Ok? {
      SavedLeaves(db, d, space, data, q, c);
      UntouchedLoses(db, r.value.db, c);
      OnlyLosesKeeps(db, r.value.db, c);
    }
  }

  lemma {:induction false} UntouchedLoses(db: Db, after: Db, c: Id)
    requires c in db.configs && Untouched(db, after, c)
    requires db.nextFloor <= after.nextFloor && db.nextZone <= after.nextZone && db.nextElement <= after.nextElement
    ensures OnlyLoses(db, after, c)
  {
  }

  /** A save leaves JSON and rows in step exactly when its payload is clean. */
  lemma {:induction false} SaveInStepIff(db: Db, c: Id, p: PlanJson, q: Query)
    requires SaveReady(db, c, q)
    ensures InStep(SaveInto(db, c, p, q).db, c) <==> CleanPayload(db, c, p, q)
  {
    SaveAgreesIff(db, c, p, q);
    SaveFromPast(db, c, p, q);
  }

  /** The first save of a configuration does, whatever its payload. */
  lemma {:induction false} FirstSaveInStep(db: Db, c: Id, space: Id, data: PlanJson, q: Query)
    requires Valid(db) && Answers(db, c, q) && c !in db.configs
    ensures var r := SavePlan(db, c, space, data, q); r.Ok? ==> InStep(r.value.db, c)
  {
    var upserted := WithConfig(db, c, space, data);
    UpsertedReady(db, c, space, data, q);
    NothingYet(db, c, q);
    SameExisting(db, upserted, c);
    FirstIsClean(upserted, c, data, q);
    SaveInStepIff(upserted, c, data, q);
  }

  lemma {:induction false} FirstIsClean(db: Db, c: Id, p: PlanJson, q: Query)
    requires Answers(db, c, q) && q.order == [] && Existing(db, c) == {}
    ensures CleanPayload(db, c, p, q)
  {
    AllCreated(SavedFloors(db, p, q.scan), db.floors, db.nextFloor);
    NothingLeft(db, c, p);
  }

  /** Without rows to match every floor becomes a new one. */
  lemma {:induction false} AllCreated(fs: seq<JsonFloor>, rows: map<Id, FloorRow>, next: Id)
    ensures Distinct(Targets(fs, [], rows, next))
  {
    var ts := Targets(fs, [], rows, next);
    forall i, j | 0 <= i < j < |ts| ensures ts[i] != ts[j] {
      CreatedAreNew(fs, [], rows, next, i, j);
    }
  }

  lemma {:induction false} NothingYet(db: Db, c: Id, q: Query)
    requires Valid(db) && Answers(db, c, q) && c !in db.configs
    ensures FloorsOf(db, c) == {} && Existing(db, c) == {} && q.order == []
  {
    assert FloorsOf(db, c) == {};
    NoForecourtHoldsNone(db, c);
    DistinctFits(q.order, FloorsOf(db, c));
  }

  lemma {:induction false} NothingLeft(db: Db, c: Id, p: PlanJson)
    requires Existing(db, c) == {}
    ensures forall x :: !LeftInForecourt(db, c, p, x)
  {
    forall x ensures !LeftInForecourt(db, c, p, x) {
      assert x !in Existing(db, c);
    }
  }

  lemma {:induction false} SavedInStepIff(db: Db, c: Id, space: Id, data: PlanJson, q: Query)
    requires Valid(db) && c in db.configs && Answers(db, c, q) && SavePlan(db, c, space, data, q).Ok?
    ensures InStep(SavePlan(db, c, space, data, q).value.db, c) <==> CleanPayload(db, c, data, q)
  {
    SameSave(db, c, space, data, q);
    SaveInStepIff(db, c, data, q);
  }

  /** What loading gives is clean. */
  lemma {:induction false} LoadedIsClean(db: Db, c: Id, data: PlanJson, q: Query)
    requires Valid(db) && InStep(db, c) && Answers(db, c, q) && IsLoadOf(db, c, data)
    ensures CleanPayload(db, c, data, q)
  {
    var order, scan :| LoadReady(db, c, order, scan) && IsLoad(db, c, order, scan, data);
    LoadSaveCollapses(db, c, order, scan, data, q);
    SaveAgreesIff(db, c, data, q);
  }

  /** So that saving what was loaded keeps them in step. */
  lemma {:induction false} LoadSaveInStep(db: Db, c: Id, space: Id, data: PlanJson, q: Query)
    requires Valid(db) && InStep(db, c) && Answers(db, c, q) && IsLoadOf(db, c, data)
    ensures var r := SavePlan(db, c, space, data, q); r.Ok? ==> InStep(r.value.db, c)
  {
    LoadedIsClean(db, c, data, q);
    if SavePlan(db, c, space, data, q).Ok? {
      SavedInStepIff(db, c, space, data, q);
    }
  }

  // ----- Every run ---------------------------------------------------------------------------------------------

  predicate Targeted(db: Db, space: Id, explicit: Option<Id>, oldest: Option<Id>, c: Id) {
    space in db.spaces && TargetConfig(db, space, explicit, oldest) == Some(c)
  }

  /**
   What an operation on configuration `c` has to meet, when its checks let it through; operations on others
   have to meet nothing.
   */
  ghost predicate Meets(db: Db, op: Op, c: Id)
    requires c in db.configs && Possible(db, op)
  {
    match op
    case SavePlanOp(d, space, data, q) =>
      d == c && SavePlan(db, c, space, data, q).Ok? ==> CleanPayload(db, c, data, q)
    case AssignToFloorOp(space, explicit, oldest, ids, _, _, _) =>
      Targeted(db, space, explicit, oldest, c) ==>
        forall x :: x in ids && InSpace(db, x, space) ==> x !in ZoneIdsOf(db.configs[c].data.forecourt)
    case AssignToForecourtOp(space, explicit, oldest, ids) =>
      Targeted(db, space, explicit, oldest, c) ==>
            ForecourtNamed(db, c) && ListedOnce(db.configs[c].data, Movable(db, space, ids))
    case _ => true
  }

  lemma {:induction false} ElsewhereInStep(db: Db, op: Op, c: Id)
    requires Sound(db) && Possible(db, op) && InStep(db, c) && PlacedElsewhere(db, Perform(db, op), c)
    ensures InStep(Perform(db, op), c)
  {
    PerformSound(db, op);
    ElsewhereLoses(db, Perform(db, op), c);
    OnlyLosesKeeps(db, Perform(db, op), c);
  }

  lemma {:induction false} SaveOpInStepIff(db: Db, op: Op, c: Id)
    requires Sound(db) && Possible(db, op) && InStep(db, c) && op.SavePlanOp?
    ensures InStep(Perform(db, op), c) <==> Meets(db, op, c)
  {
    if op.config != c {
      SavedElsewhere(db, op.config, op.space, op.data, op.q, c);
    } else if SavePlan(db, c, op.space, op.data, op.q).Ok? {
      SavedInStepIff(db, c, op.space, op.data, op.q);
    }
  }

  lemma {:induction false} QuickCreateOpInStep(db: Db, op: Op, c: Id)
    requires Sound(db) && Possible(db, op) && InStep(db, c) && op.QuickCreateOp?
    ensures InStep(Perform(db, op), c)
  {
    var d := TargetConfig(db, op.space, op.explicit, op.oldest);
    if d == Some(c) && op.space in db.spaces {
      QuickCreateAgrees(db, op.space, op.explicit, op.oldest, op.answer, op.body, c);
    } else if d.Some? && op.space in db.spaces {
      QuickCreatedElsewhere(db, op.space, op.explicit, op.oldest, op.answer, op.body, d.value, c);
      ElsewhereInStep(db, op, c);
    }
  }

  /** An operation keeps the JSON and the rows of the configuration in step exactly when it meets its condition. */
  lemma {:induction false} PerformInStepIff(db: Db, op: Op, c: Id)
    requires Sound(db) && Possible(db, op) && InStep(db, c)
    ensures InStep(Perform(db, op), c) <==> Meets(db, op, c)
  {
    match op
    case SavePlanOp(_, _, _, _) => SaveOpInStepIff(db, op, c);
    case QuickCreateOp(_, _, _, _, _) => QuickCreateOpInStep(db, op, c);
    case AssignToFloorOp(space, explicit, oldest, ids, level, info, answer) =>
      var d := TargetConfig(db, space, explicit, oldest);
      if d == Some(c) && space in db.spaces {
        AssignToFloorAgreesIff(db, space, explicit, oldest, ids, level, info, answer, c);
      } else if d.Some? && space in db.spaces {
        AssignedToFloorElsewhere(db, space, explicit, oldest, ids, level, info, answer, d.value, c);
        ElsewhereInStep(db, op, c);
      }
    case AssignToForecourtOp(space, explicit, oldest, ids) =>
      var d := TargetConfig(db, space, explicit, oldest);
      if d == Some(c) && space in db.spaces {
        AssignToForecourtAgreesIff(db, space, explicit, oldest, ids, c);
      } else if d.Some? && space in db.spaces {
        AssignedToForecourtElsewhere(db, space, explicit, oldest, ids, d.value, c);
        ElsewhereInStep(db, op, c);
      }
    case CreateMappingOp(location, e) => SameTablesInStep(db, Perform(db, op), c);
    case DeleteMappingOp(location) => DeleteMappingInStep(db, location, c);
  }

  /** A run whose operations meet their conditions. */
  ghost predicate MeetingRun(states: seq<Db>, ops: seq<Op>, c: Id) {
    Run(states, ops) && forall k :: 0 <= k < |ops| ==> c in states[k].configs && Meets(states[k], ops[k], c)
  }

  /** Over every such run JSON and rows stay in step. */
  lemma {:induction false} RunInStep(states: seq<Db>, ops: seq<Op>, c: Id)
    requires MeetingRun(states, ops, c) && Sound(states[0]) && InStep(states[0], c)
    ensures Sound(states[|ops|]) && InStep(states[|ops|], c)
  {
    if ops != [] {
      var n := |ops| - 1;
      RunInStep(states[..n + 1], ops[..n], c);
      assert states[n + 1] == Perform(states[n], ops[n]) && Meets(states[n], ops[n], c);
      PerformSound(states[n], ops[n]);
      PerformInStepIff(states[n], ops[n], c);
    }
  }

  /**
   So that at its end, as at each of its points, two loads and saves leave one floor row for each level
   and lose no element.
   */
  lemma {:induction false} TwoLoadSavesAfterRun(states: seq<Db>, ops: seq<Op>, c: Id, order: seq<Id>, scan: seq<Id>,
                                                p: PlanJson, q: Query,
                                                db2: Db, order2: seq<Id>, scan2: seq<Id>, p2: PlanJson, q2: Query)
    requires MeetingRun(states, ops, c) && Sound(states[0]) && InStep(states[0], c)
    requires var db := states[|ops|];
             && LoadReady(db, c, order, scan) && IsLoad(db, c, order, scan, p) && SaveReady(db, c, q)
                 && db2 == SaveInto(db, c, p, q).db
    requires LoadReady(db2, c, order2, scan2) && IsLoad(db2, c, order2, scan2, p2) && SaveReady(db2, c, q2)
    ensures !ForecourtClash(states[|ops|], c, p) && !ForecourtClash(db2, c, p2)
    ensures var saved := SaveInto(db2, c, p2, q2);
            && OneRowPerLevel(saved.db, c) && FloorsOf(saved.db, c) == TargetSet(saved.plan.floors)
            && forall e :: e in states[|ops|].elements ==> e in saved.db.elements
  {
    RunInStep(states, ops, c);
    LoadSaveCollapses(states[|ops|], c, order, scan, p, q);
    TwoLoadSaves(states[|ops|], c, order, scan, p, q, db2, order2, scan2, p2, q2);
  }
}
