/**
 Loading a configuration and saving what was loaded: no element is lost, duplicate floor rows of
 a level collapse into one, and the JSON and the rows agree afterwards.
 */
module FloorPlanCollapse {
  import opened Common
  import opened FloorPlan
  import opened FloorPlanSave
  import opened FloorPlanGuarantees
  import opened FloorPlanLoad

  /** The JSON of configuration `c` and its rows agree on the level of each floor and element, and on the forecourt. */
  ghost predicate Agrees(db: Db, c: Id)
    requires c in db.configs
  {
    var json := db.configs[c].data;
    (forall i :: 0 <= i < |json.floors| ==> FloorAgrees(db, c, json.floors[i])) && ForecourtAgrees(db, c, json)
  }

  /** If the JSON floor names a row, it is at the row's level; so are the rows of the elements it lists. */
  ghost predicate FloorAgrees(db: Db, c: Id, f: JsonFloor) {
    && (f.id.Some? && f.id.value in FloorsOf(db, c) ==> db.floors[f.id.value].level == f.level)
    && (forall x :: x in IdsOf(f.elements) && x in Existing(db, c) ==> OnLevel(db, c, x, f.level))
  }

  ghost predicate ForecourtAgrees(db: Db, c: Id, json: PlanJson) {
    && !ForecourtClash(db, c, json)
    && (forall x :: x in InForecourt(db, c) ==> x in ZoneIdsOf(json.forecourt))
    && (forall x :: x in ZoneIdsOf(json.forecourt) && x in Existing(db, c) ==> x in InForecourt(db, c))
    && DistinctAmong(ZoneIdsOf(json.forecourt), Existing(db, c))
  }

  /** At most one floor row of each level holds any element. */
  ghost predicate OneFullRow(db: Db, c: Id) {
    forall f, g :: f in FloorsOf(db, c) && g in FloorsOf(db, c) && db.floors[f].level == db.floors[g].level &&
                   OnFloors(db, {f}) != {} && OnFloors(db, {g}) != {} ==>
      f == g
  }

  /** Exactly the rows of the plan, one for each level. */
  ghost predicate OneRowPerLevel(db: Db, c: Id) {
    forall f, g :: f in FloorsOf(db, c) && g in FloorsOf(db, c) && db.floors[f].level == db.floors[g].level ==> f == g
  }

  ghost predicate Loaded(db: Db, c: Id, order: seq<Id>, scan: seq<Id>, p: PlanJson) {
    LoadReady(db, c, order, scan) && Agrees(db, c) && IsLoad(db, c, order, scan, p)
  }

  // ----- The loaded payload -----------------------------------------------------------------

  /** A known element of a loaded floor is on that level. */
  lemma {:induction false} LoadedOnLevel(db: Db, c: Id, order: seq<Id>, scan: seq<Id>, p: PlanJson, i: nat, x: Id)
    requires Loaded(db, c, order, scan, p) && i < |p.floors| && x in Existing(db, c)
    ensures x in IdsOf(p.floors[i].elements) <==> OnLevel(db, c, x, p.floors[i].level)
  {
    var json, level := db.configs[c].data, p.floors[i].level;
    LoadedUnion(db, c, order, scan, p, i);
    JsonAtIds(json.floors, level, x);
    if j :| 0 <= j < |json.floors| && json.floors[j].level == level && x in IdsOf(json.floors[j].elements) {
      assert FloorAgrees(db, c, json.floors[j]);
    }
  }

  /** If each floor has distinct ids and no id of `among` is on two floors, the floors' ids are distinct. */
  lemma {:induction false} DistinctAcross(fs: seq<JsonFloor>, among: set<Id>)
    requires forall i :: 0 <= i < |fs| ==> Distinct(IdsOf(fs[i].elements))
    requires forall i, j, x :: 0 <= i < j < |fs| && x in among && x in IdsOf(fs[i].elements) ==>
               x !in IdsOf(fs[j].elements)
    ensures DistinctAmong(FloorIdsOf(fs), among)
  {
    if fs != [] {
      var n := |fs| - 1;
      DistinctAcross(fs[..n], among);
      forall x | x in among ensures multiset(FloorIdsOf(fs))[x] <= 1 {
        assert multiset(FloorIdsOf(fs)) == multiset(FloorIdsOf(fs[..n])) + multiset(IdsOf(fs[n].elements));
        DistinctCount(IdsOf(fs[n].elements), x);
        FloorIdsAt(fs[..n], x);
        if x in FloorIdsOf(fs[..n]) {
          var i :| 0 <= i < n && x in IdsOf(fs[..n][i].elements);
          assert x in IdsOf(fs[i].elements) && x !in IdsOf(fs[n].elements);
        }
      }
    }
  }

  lemma {:induction false} DistinctCount(ids: seq<Id>, x: Id)
    requires Distinct(ids)
    ensures multiset(ids)[x] <= 1
  {
    if ids != [] {
      var n := |ids| - 1;
      assert ids == ids[..n] + [ids[n]];
      DistinctCount(ids[..n], x);
      assert x == ids[n] ==> x !in ids[..n];
    }
  }

  lemma {:induction false} ForecourtApart(db: Db, c: Id, x: Id, level: int)
    requires x in InForecourt(db, c)
    ensures !OnLevel(db, c, x, level)
  {
  }

  /** The known ids of a loaded plan are distinct. */
  lemma {:induction false} LoadedDistinct(db: Db, c: Id, order: seq<Id>, scan: seq<Id>, p: PlanJson)
    requires Loaded(db, c, order, scan, p)
    ensures DistinctAmong(PlanIds(p), Existing(db, c))
  {
    forall i | 0 <= i < |p.floors| ensures Distinct(IdsOf(p.floors[i].elements)) {
      LoadedUnion(db, c, order, scan, p, i);
    }
    forall i, j, x | 0 <= i < j < |p.floors| && x in Existing(db, c) && x in IdsOf(p.floors[i].elements)
      ensures x !in IdsOf(p.floors[j].elements)
    {
      LoadedOnLevel(db, c, order, scan, p, i, x);
      LoadedOnLevel(db, c, order, scan, p, j, x);
    }
    DistinctAcross(p.floors, Existing(db, c));
    assert ForecourtAgrees(db, c, db.configs[c].data);
    forall x | x in Existing(db, c) ensures multiset(PlanIds(p))[x] <= 1 {
      assert multiset(PlanIds(p)) == multiset(FloorIdsOf(p.floors)) + multiset(ZoneIdsOf(p.forecourt));
      if x in ZoneIdsOf(p.forecourt) {
        NotOnFloors(db, c, order, scan, p, x);
      }
    }
  }

  lemma {:induction false} NotOnFloors(db: Db, c: Id, order: seq<Id>, scan: seq<Id>, p: PlanJson, x: Id)
    requires Loaded(db, c, order, scan, p) && x in Existing(db, c) && x in ZoneIdsOf(p.forecourt)
    ensures x !in FloorIdsOf(p.floors)
  {
    FloorIdsAt(p.floors, x);
    assert ForecourtAgrees(db, c, db.configs[c].data);
    forall i | 0 <= i < |p.floors| ensures x !in IdsOf(p.floors[i].elements) {
      LoadedOnLevel(db, c, order, scan, p, i, x);
      ForecourtApart(db, c, x, p.floors[i].level);
    }
  }

  /** Every element the configuration holds is in the loaded plan. */
  lemma {:induction false} LoadedComplete(db: Db, c: Id, order: seq<Id>, scan: seq<Id>, p: PlanJson, x: Id)
    requires Loaded(db, c, order, scan, p) && x in Existing(db, c)
    ensures x in PlanIds(p)
    ensures x in OnFloors(db, FloorsOf(db, c)) ==> x in FloorIdsOf(p.floors)
  {
    if x in OnFloors(db, FloorsOf(db, c)) {
      var f := db.elements[x].place.floor;
      assert f in order && LevelUsed(db, db.configs[c].data.floors, order, db.floors[f].level);
      var i :| 0 <= i < |p.floors| && p.floors[i].level == db.floors[f].level;
      LoadedOnLevel(db, c, order, scan, p, i, x);
      FloorIdsAt(p.floors, x);
    } else {
      assert ForecourtAgrees(db, c, db.configs[c].data);
    }
  }

  /** So there is nothing to put back: the save works on the loaded floors themselves. */
  lemma {:induction false} LoadedNoOrphans(db: Db, c: Id, order: seq<Id>, scan: seq<Id>, p: PlanJson, scan2: seq<Id>)
    requires Loaded(db, c, order, scan, p) && Enumerates(scan2, OnFloors(db, FloorsOf(db, c)))
    ensures SavedFloors(db, p, scan2) == p.floors
  {
    forall x | x in scan2 ensures x in PlanIds(p) {
      LoadedComplete(db, c, order, scan, p, x);
    }
    NoOrphans(db, PlanIds(p), scan2);
  }

  lemma {:induction false} NoOrphans(db: Db, incoming: seq<Id>, scan: seq<Id>)
    requires forall e :: e in scan ==> e in db.elements && e in incoming
    ensures Orphans(db, incoming, scan) == []
  {
    if scan != [] {
      NoOrphans(db, incoming, scan[..|scan| - 1]);
    }
  }

  // ----- The first load and save ------------------------------------------------------------

  /** Saving what was loaded succeeds and deletes no element. */
  lemma {:induction false} LoadSaveDeletesNothing(db: Db, c: Id, order: seq<Id>, scan: seq<Id>, p: PlanJson, q: Query,
                                                  e: Id)
    requires Loaded(db, c, order, scan, p) && SaveReady(db, c, q)
    ensures !ForecourtClash(db, c, p)
    ensures e in db.elements ==> e in SaveInto(db, c, p, q).db.elements
  {
    assert ForecourtAgrees(db, c, db.configs[c].data);
    DeletedExactly(db, c, p, q, e);
    if e in Existing(db, c) {
      LoadedComplete(db, c, order, scan, p, e);
    }
  }

  /** The row a loaded floor is saved on: the one its id names, and in any case none of another level. */
  lemma {:induction false} LoadedTarget(db: Db, c: Id, order: seq<Id>, scan: seq<Id>, p: PlanJson, order2: seq<Id>,
                                        i: nat)
    requires Loaded(db, c, order, scan, p) && Enumerates(order2, FloorsOf(db, c)) && i < |p.floors|
    ensures var t := Targets(p.floors, order2, db.floors, db.nextFloor)[i];
            && (t in FloorsOf(db, c) ==> db.floors[t].level == p.floors[i].level)
            && (p.floors[i].id.Some? && p.floors[i].id.value in FloorsOf(db, c) ==> t == p.floors[i].id.value)
  {
    var fs := p.floors;
    LoadedIdLevel(db, c, order, scan, p, i);
    OrderFacts(db, c, order2);
    TargetIs(fs, order2, db.floors, db.nextFloor, i);
    var before := Targets(fs[..i], order2, db.floors, db.nextFloor);
    FirstAtLevelFacts(order2, db.floors, before, fs[i].level);
  }

  lemma {:induction false} TargetIs(fs: seq<JsonFloor>, order: seq<Id>, rows: map<Id, FloorRow>, next: Id, i: nat)
    requires i < |fs| && forall f :: f in order ==> f in rows && f < next
    ensures var before := Targets(fs[..i], order, rows, next);
            var m := MatchRow(fs[i], order, rows, before);
            Targets(fs, order, rows, next)[i] == (if m.Some? then m.value else next + Created(before, next))
    ensures Targets(fs, order, rows, next)[..i] == Targets(fs[..i], order, rows, next)
  {
    var n := |fs| - 1;
    if i < n {
      TargetIs(fs[..n], order, rows, next, i);
      assert fs[..n][..i] == fs[..i];
      assert Targets(fs, order, rows, next)[..n] == Targets(fs[..n], order, rows, next);
      assert Targets(fs, order, rows, next)[..i] == Targets(fs[..n], order, rows, next)[..i];
    }
  }

  /** If the id of a loaded floor is a row of the configuration, that row is at its level. */
  lemma {:induction false} LoadedIdLevel(db: Db, c: Id, order: seq<Id>, scan: seq<Id>, p: PlanJson, i: nat)
    requires Loaded(db, c, order, scan, p) && i < |p.floors|
    ensures p.floors[i].id.Some? && p.floors[i].id.value in FloorsOf(db, c) ==>
              db.floors[p.floors[i].id.value].level == p.floors[i].level
  {
    var json, level := db.configs[c].data, p.floors[i].level;
    FullestFacts(db, order, scan, level);
    JsonIdFacts(json.floors, level);
  }

  /** A created row has not been used for any earlier floor. */
  lemma {:induction false} CreatedAreNew(fs: seq<JsonFloor>, order: seq<Id>, rows: map<Id, FloorRow>, next: Id, i: nat,
                                         j: nat)
    requires i < j < |fs| && forall f :: f in order ==> f in rows && f < next
    ensures var ts := Targets(fs, order, rows, next); ts[j] in order || ts[i] != ts[j]
  {
    TargetIs(fs, order, rows, next, j);
    var before := Targets(fs[..j], order, rows, next);
    TargetsFacts(fs[..j], order, rows, next);
    FirstAtLevelFacts(order, rows, before, fs[j].level);
    assert Targets(fs, order, rows, next)[i] == before[i];
    assert before[i] in before;
  }

  /** The floors of a loaded plan are saved on different rows. */
  lemma {:induction false} LoadedTargetsDistinct(db: Db, c: Id, order: seq<Id>, scan: seq<Id>, p: PlanJson,
                                                 order2: seq<Id>)
    requires Loaded(db, c, order, scan, p) && Enumerates(order2, FloorsOf(db, c))
    ensures Distinct(Targets(p.floors, order2, db.floors, db.nextFloor))
  {
    var ts := Targets(p.floors, order2, db.floors, db.nextFloor);
    OrderFacts(db, c, order2);
    forall i, j | 0 <= i < j < |ts| ensures ts[i] != ts[j] {
      LoadedTarget(db, c, order, scan, p, order2, i);
      LoadedTarget(db, c, order, scan, p, order2, j);
      CreatedAreNew(p.floors, order2, db.floors, db.nextFloor, i, j);
    }
  }

  lemma {:induction false} FloorRowsAt(c: Id, fs: seq<JsonFloor>, i: nat)
    requires forall j :: 0 <= j < |fs| ==> fs[j].id.Some?
    requires forall j, k :: 0 <= j < k < |fs| ==> fs[j].id != fs[k].id
    requires i < |fs|
    ensures fs[i].id.value in FloorRows(c, fs) && FloorRows(c, fs)[fs[i].id.value] ==
            FloorRow(c, fs[i].level, fs[i].info)
  {
    var n := |fs| - 1;
    if i < n {
      FloorRowsAt(c, fs[..n], i);
    }
  }

  /** What a load and save makes of the floors: the facts the theorems below are drawn from. */
  ghost predicate Collapsed(db: Db, c: Id, p: PlanJson, out: PlanJson, after: Db) {
    && |out.floors| == |p.floors|
    && (forall i :: 0 <= i < |out.floors| ==>
          && out.floors[i].id.Some? && out.floors[i].id.value in FloorsOf(after, c)
          && out.floors[i].level == p.floors[i].level
          && after.floors[out.floors[i].id.value].level == p.floors[i].level
          && (p.floors[i].id.Some? && p.floors[i].id.value in FloorsOf(db, c) ==> out.floors[i].id == p.floors[i].id))
    && (forall i, j :: 0 <= i < j < |out.floors| ==>
          out.floors[i].id != out.floors[j].id && out.floors[i].level != out.floors[j].level)
    && (forall f :: f in FloorsOf(after, c) && f !in TargetSet(out.floors) ==>
          f in FloorsOf(db, c) && after.floors[f].level == db.floors[f].level && OnFloors(db, {f}) * Mapped(db) != {})
  }

  lemma {:induction false} LoadSaveFloors(db: Db, c: Id, order: seq<Id>, scan: seq<Id>, p: PlanJson, q: Query)
    requires Loaded(db, c, order, scan, p) && SaveReady(db, c, q)
    ensures var saved := SaveInto(db, c, p, q); Collapsed(db, c, p, saved.plan, saved.db)
  {
    var out := SavedPlan(db, c, p, q);
    LoadedNoOrphans(db, c, order, scan, p, q.scan);
    SavedFloorsShape(db, c, p, q);
    SaveFloors(db, c, p, q);
    LoadedTargetsDistinct(db, c, order, scan, p, q.order);
    var ts := Targets(p.floors, q.order, db.floors, db.nextFloor);
    forall i | 0 <= i < |p.floors|
      ensures WrittenBack(out.floors[i], p.floors[i], ts[i])
      ensures p.floors[i].id.Some? && p.floors[i].id.value in FloorsOf(db, c) ==> ts[i] == p.floors[i].id.value
    {
      LoadedTarget(db, c, order, scan, p, q.order, i);
    }
    FloorsCollapse(db, c, p, out, SaveInto(db, c, p, q).db, ts, NextFloor(db, p.floors, q.order));
  }

  lemma {:induction false} FloorsCollapse(db: Db, c: Id, p: PlanJson, out: PlanJson, after: Db, ts: seq<Id>, hiF: Id)
    requires FloorsAfter(db, c, out, after, hiF) && Distinct(ts)
    requires |out.floors| == |p.floors| == |ts|
    requires forall i :: 0 <= i < |p.floors| ==> WrittenBack(out.floors[i], p.floors[i], ts[i])
    requires forall i :: 0 <= i < |p.floors| && p.floors[i].id.Some? && p.floors[i].id.value in FloorsOf(db, c) ==>
               ts[i] == p.floors[i].id.value
    requires forall i, j :: 0 <= i < j < |p.floors| ==> p.floors[i].level != p.floors[j].level
    ensures Collapsed(db, c, p, out, after)
  {
    forall i, j | 0 <= i < j < |out.floors| ensures out.floors[i].id != out.floors[j].id
        && out.floors[i].level != out.floors[j].level {
      assert WrittenBack(out.floors[i], p.floors[i], ts[i]) && WrittenBack(out.floors[j], p.floors[j], ts[j]);
    }
    forall i | 0 <= i < |out.floors|
      ensures out.floors[i].id.Some? && out.floors[i].id.value in FloorsOf(after, c)
      ensures out.floors[i].level == p.floors[i].level == after.floors[out.floors[i].id.value].level
    {
      assert WrittenBack(out.floors[i], p.floors[i], ts[i]) && out.floors[i] in out.floors;
      FloorRowsAt(c, out.floors, i);
      assert out.floors[i].id.value in TargetSet(out.floors);
    }
    forall f | f in FloorsOf(after, c) && f !in TargetSet(out.floors)
      ensures f in FloorsOf(db, c) && after.floors[f].level == db.floors[f].level
              && OnFloors(db, {f}) * Mapped(db) != {}
    {
      assert f !in Dropped(db, c, out);
    }
  }

  /** After a load and save only the rows of the plan hold elements, and the JSON and the rows agree. */
  lemma {:induction false} LoadSaveAgrees(db: Db, c: Id, order: seq<Id>, scan: seq<Id>, p: PlanJson, q: Query)
    requires Loaded(db, c, order, scan, p) && SaveReady(db, c, q)
    ensures var after := SaveInto(db, c, p, q).db; Agrees(after, c) && OneFullRow(after, c)
    ensures var saved := SaveInto(db, c, p, q);
            forall f :: f in FloorsOf(saved.db, c) && f !in TargetSet(saved.plan.floors) ==>
                OnFloors(saved.db, {f}) == {}
  {
    var saved := SaveInto(db, c, p, q);
    LoadSaveFloors(db, c, order, scan, p, q);
    LoadedDistinct(db, c, order, scan, p);
    FloorElementsExactly(db, c, p, q);
    DistinctHomesAgree(db, c, p, q);
    SaveElements(db, c, p, q);
    SaveIsPrepared(db, c, p, q);
    SavedDistinct(db, c, p, q);
    DistinctConcat(FloorIdsOf(saved.plan.floors), ZoneIdsOf(saved.plan.forecourt));
    RowsOnTheirFloors(db, c, saved.plan, saved.db);
    OneFullRowFrom(db, c, p, saved.plan, saved.db);
    LoadSaveForecourt(db, c, order, scan, p, q);
    AgreesFrom(db, c, p, saved.plan, saved.db);
  }

  /** Each element of a saved floor is on that floor's row, and no other row holds any. */
  ghost predicate AtHome(c: Id, out: PlanJson, after: Db) {
    && (forall i, x :: 0 <= i < |out.floors| && x in IdsOf(out.floors[i].elements) ==>
          x in after.elements && out.floors[i].id.Some? && after.elements[x].place == OnFloor(out.floors[i].id.value))
    && (forall e :: e in OnFloors(after, FloorsOf(after, c)) ==> after.elements[e].place.floor in TargetSet(out.floors))
  }

  lemma {:induction false} RowsOnTheirFloors(db: Db, c: Id, out: PlanJson, after: Db)
    requires ElementsAfter(db, c, out, after.elements) && HomesAgree(c, out) && Distinct(FloorIdsOf(out.floors))
    requires forall j :: 0 <= j < |out.floors| ==> out.floors[j].id.Some?
    requires forall e :: e in OnFloors(after, FloorsOf(after, c)) <==> e in FloorIdsOf(out.floors)
    ensures AtHome(c, out, after)
  {
    forall i, x | 0 <= i < |out.floors| && x in IdsOf(out.floors[i].elements)
      ensures x in after.elements && after.elements[x].place == OnFloor(out.floors[i].id.value)
    {
      HomeOf(out.floors, i, x);
      assert x in PlanRows(c, out);
    }
    forall e | e in OnFloors(after, FloorsOf(after, c)) ensures after.elements[e].place.floor in TargetSet(out.floors) {
      assert e in FloorIdsOf(out.floors) && after.elements[e] == PlanRows(c, out)[e];
    }
  }

  lemma {:induction false} HomeOf(fs: seq<JsonFloor>, i: nat, x: Id)
    requires forall j :: 0 <= j < |fs| ==> fs[j].id.Some?
    requires Distinct(FloorIdsOf(fs)) && i < |fs| && x in IdsOf(fs[i].elements)
    ensures x in FloorIdsOf(fs) && x in FloorElementRows(fs) && FloorElementRows(fs)[x].place == OnFloor(fs[i].id.value)
  {
    IdsAt(fs[i].elements, x);
    var k :| 0 <= k < |fs[i].elements| && fs[i].elements[k].id == Some(x);
    FloorElementAt(fs, i, k);
    FloorIdsAt(fs, x);
  }

  lemma {:induction false} OneFullRowFrom(db: Db, c: Id, p: PlanJson, out: PlanJson, after: Db)
    requires Collapsed(db, c, p, out, after) && AtHome(c, out, after)
    ensures OneFullRow(after, c)
    ensures forall f :: f in FloorsOf(after, c) && f !in TargetSet(out.floors) ==> OnFloors(after, {f}) == {}
  {
  }

  /** Two rows of the saved plan at the same level are the same row. */
  lemma {:induction false} TargetLevels(db: Db, c: Id, p: PlanJson, out: PlanJson, after: Db)
    requires Collapsed(db, c, p, out, after)
    ensures forall f :: f in TargetSet(out.floors) ==> f in after.floors
    ensures forall f, g :: (f in TargetSet(out.floors) && g in TargetSet(out.floors)
                            && after.floors[f].level == after.floors[g].level) ==> f == g
  {
  }

  lemma {:induction false} AgreesFrom(db: Db, c: Id, p: PlanJson, out: PlanJson, after: Db)
    requires Collapsed(db, c, p, out, after) && AtHome(c, out, after)
    requires c in after.configs && after.configs[c].data == out && ForecourtAgrees(after, c, out)
    ensures Agrees(after, c)
  {
  }

  lemma {:induction false} LoadSaveForecourt(db: Db, c: Id, order: seq<Id>, scan: seq<Id>, p: PlanJson, q: Query)
    requires Loaded(db, c, order, scan, p) && SaveReady(db, c, q)
    ensures var saved := SaveInto(db, c, p, q); ForecourtAgrees(saved.db, c, saved.plan)
  {
    var saved := SaveInto(db, c, p, q);
    LoadedDistinct(db, c, order, scan, p);
    ForecourtElementsExactly(db, c, p, q);
    SaveIsPrepared(db, c, p, q);
    SavedDistinct(db, c, p, q);
    SaveElements(db, c, p, q);
    DistinctHomesAgree(db, c, p, q);
    SaveZones(db, c, p, q);
    SavedZoneShape(db, c, p, q);
    forall x ensures !LeftInForecourt(db, c, p, x) {
      if x in Existing(db, c) {
        LoadedComplete(db, c, order, scan, p, x);
      }
    }
    ClashFree(db, c, p, saved.plan, saved.db);
    ForecourtAgreesFrom(db, c, p, saved.plan, saved.db);
  }

  lemma {:induction false} ForecourtAgreesFrom(db: Db, c: Id, p: PlanJson, out: PlanJson, after: Db)
    requires !ForecourtClash(after, c, out) && Distinct(PlanIds(out))
    requires forall e :: e in InForecourt(after, c) <==> e in ZoneIdsOf(out.forecourt) || LeftInForecourt(db, c, p, e)
    requires forall x :: !LeftInForecourt(db, c, p, x)
    ensures ForecourtAgrees(after, c, out)
  {
    DistinctConcat(FloorIdsOf(out.floors), ZoneIdsOf(out.forecourt));
    forall x | x in Existing(after, c) ensures multiset(ZoneIdsOf(out.forecourt))[x] <= 1 {
      DistinctCount(ZoneIdsOf(out.forecourt), x);
    }
  }

  lemma {:induction false} ClashFree(db: Db, c: Id, p: PlanJson, out: PlanJson, after: Db)
    requires Valid(db) && ZonesAfter(db, c, p, after) && (p.forecourt.Some? <==> out.forecourt.Some?)
    requires p.forecourt.Some? ==> out.forecourt.value.id == Some(ForecourtId(db, c))
    ensures !ForecourtClash(after, c, out)
  {
  }

  /**
   The load-save theorem. Saving what was loaded succeeds, deletes no element, and leaves each
   non-empty level with exactly one non-empty floor row: the row named by the returned JSON floor.
   */
  lemma {:induction false} LoadSaveCollapses(db: Db, c: Id, order: seq<Id>, scan: seq<Id>, p: PlanJson, q: Query)
    requires Loaded(db, c, order, scan, p) && SaveReady(db, c, q)
    ensures !ForecourtClash(db, c, p)
    ensures var saved := SaveInto(db, c, p, q);
            && (forall e :: e in db.elements ==> e in saved.db.elements)
            && Valid(saved.db) && Agrees(saved.db, c) && OneFullRow(saved.db, c)
            && |saved.plan.floors| == |p.floors|
            && forall i :: 0 <= i < |p.floors| && p.floors[i].elements != [] ==>
                FullAt(saved.db, c, saved.plan.floors[i].id, p.floors[i].level)
  {
    var saved := SaveInto(db, c, p, q);
    forall e | e in db.elements ensures e in saved.db.elements {
      LoadSaveDeletesNothing(db, c, order, scan, p, q, e);
    }
    LoadSaveDeletesNothing(db, c, order, scan, p, q, 0);
    SaveKeepsValid(db, c, p, q);
    LoadSaveAgrees(db, c, order, scan, p, q);
    LoadSaveFloors(db, c, order, scan, p, q);
    forall i | 0 <= i < |p.floors| && p.floors[i].elements != []
        ensures FullAt(saved.db, c, saved.plan.floors[i].id, p.floors[i].level) {
      LoadedLevelFull(db, c, order, scan, p, q, i);
    }
  }

  /** `id` names a floor row of this level that holds an element. */
  ghost predicate FullAt(db: Db, c: Id, id: Option<Id>, level: int) {
    id.Some? && id.value in FloorsOf(db, c) && db.floors[id.value].level == level && OnFloors(db, {id.value}) != {}
  }

  lemma {:induction false} LoadedLevelFull(db: Db, c: Id, order: seq<Id>, scan: seq<Id>, p: PlanJson, q: Query, i: nat)
    requires Loaded(db, c, order, scan, p) && SaveReady(db, c, q)
    requires i < |p.floors| && p.floors[i].elements != []
    ensures var saved := SaveInto(db, c, p, q);
            i < |saved.plan.floors| && FullAt(saved.db, c, saved.plan.floors[i].id, p.floors[i].level)
  {
    var saved := SaveInto(db, c, p, q);
    LoadSaveFloors(db, c, order, scan, p, q);
    LoadedDistinct(db, c, order, scan, p);
    LoadedNoOrphans(db, c, order, scan, p, q.scan);
    FloorElementPlaced(db, c, p, q, i, 0);
    assert saved.plan.floors[i].elements[0].id.value in OnFloors(saved.db, {saved.plan.floors[i].id.value});
  }

  // ----- The second load and save -----------------------------------------------------------

  /**
   From then on one more load and save leaves exactly one row for each level: an emptied row that
   had held a mapped shop at the first save holds none at the second.
   */
  lemma {:induction false} SecondLoadSave(db: Db, c: Id, order: seq<Id>, scan: seq<Id>, p: PlanJson, q: Query)
    requires Loaded(db, c, order, scan, p) && SaveReady(db, c, q) && OneFullRow(db, c)
    ensures var saved := SaveInto(db, c, p, q);
            OneRowPerLevel(saved.db, c) && FloorsOf(saved.db, c) == TargetSet(saved.plan.floors)
  {
    var saved := SaveInto(db, c, p, q);
    LoadSaveFloors(db, c, order, scan, p, q);
    OnlyTargetsLeft(db, c, order, scan, p, saved.plan, saved.db);
  }

  lemma {:induction false} OnlyTargetsLeft(db: Db, c: Id, order: seq<Id>, scan: seq<Id>, p: PlanJson, out: PlanJson,
                                           after: Db)
    requires Loaded(db, c, order, scan, p) && OneFullRow(db, c) && Collapsed(db, c, p, out, after)
    ensures OneRowPerLevel(after, c) && FloorsOf(after, c) == TargetSet(out.floors)
  {
    forall f | f in FloorsOf(after, c) ensures f in TargetSet(out.floors) {
      if f !in TargetSet(out.floors) {
        FullRowIsTarget(db, c, order, scan, p, out, after, f);
      }
    }
    TargetLevels(db, c, p, out, after);
    forall f | f in TargetSet(out.floors) ensures f in FloorsOf(after, c) {
      var a :| a in out.floors && a.id.Some? && a.id.value == f;
      var i :| 0 <= i < |out.floors| && out.floors[i] == a;
    }
  }

  /** The one non-empty row of a level is the row the loaded floor is saved on. */
  lemma {:induction false} FullRowIsTarget(db: Db, c: Id, order: seq<Id>, scan: seq<Id>, p: PlanJson, out: PlanJson,
                                           after: Db, f: Id)
    requires Loaded(db, c, order, scan, p) && OneFullRow(db, c) && Collapsed(db, c, p, out, after)
    requires f in FloorsOf(db, c) && OnFloors(db, {f}) != {}
    ensures f in TargetSet(out.floors)
  {
    assert f in order && LevelUsed(db, db.configs[c].data.floors, order, db.floors[f].level);
    var i :| 0 <= i < |p.floors| && p.floors[i].level == db.floors[f].level;
    LoadedIdFullest(db, c, order, scan, p, i, f);
    assert p.floors[i].id.value == f;
    assert out.floors[i] in out.floors;
  }

  /** Two loads and saves in a row, whatever order each query lists its rows in. */
  lemma {:induction false} TwoLoadSaves(db: Db, c: Id, order: seq<Id>, scan: seq<Id>, p: PlanJson, q: Query,
                     db2: Db, order2: seq<Id>, scan2: seq<Id>, p2: PlanJson, q2: Query)
    requires Loaded(db, c, order, scan, p) && SaveReady(db, c, q)
    requires db2 == SaveInto(db, c, p, q).db
    requires LoadReady(db2, c, order2, scan2) && SaveReady(db2, c, q2) && IsLoad(db2, c, order2, scan2, p2)
    ensures !ForecourtClash(db2, c, p2)
    ensures var saved := SaveInto(db2, c, p2, q2);
            && OneRowPerLevel(saved.db, c) && FloorsOf(saved.db, c) == TargetSet(saved.plan.floors)
            && forall e :: e in db.elements ==> e in saved.db.elements
  {
    LoadSaveCollapses(db, c, order, scan, p, q);
    SecondLoadSave(db2, c, order2, scan2, p2, q2);
    LoadSaveDeletesNothing(db2, c, order2, scan2, p2, q2, 0);
    forall e | e in db.elements ensures e in SaveInto(db2, c, p2, q2).db.elements {
      LoadSaveDeletesNothing(db2, c, order2, scan2, p2, q2, e);
    }
  }
}
