/**
 When a save leaves the JSON of its configuration and the rows in agreement: exactly when the payload is
 clean. A save stores any payload, even one that lists an element twice, on two levels, or names one floor
 row at two levels.
 */
module FloorPlanSaveAgreement {
  import opened Common
  import opened FloorPlan
  import opened FloorPlanSave
  import opened FloorPlanGuarantees
  import opened FloorPlanLoad
  import opened FloorPlanCollapse

  predicate Lists(f: JsonFloor, x: Id) {
    x in IdsOf(f.elements)
  }

  /** Floors that list the same known element are at one level. */
  ghost predicate OneLevelPerElement(fs: seq<JsonFloor>, existing: set<Id>) {
    forall i, j, x :: 0 <= i < |fs| && 0 <= j < |fs| && x in existing && Lists(fs[i], x) && Lists(fs[j], x) ==>
      fs[i].level == fs[j].level
  }

  /** Floors that become the same row are at one level. */
  ghost predicate OneLevelPerRow(fs: seq<JsonFloor>, rows: seq<Id>)
    requires |fs| == |rows|
  {
    forall i, j :: 0 <= i < |fs| && 0 <= j < |fs| && rows[i] == rows[j] ==> fs[i].level == fs[j].level
  }

  ghost predicate ListedApart(floors: seq<Id>, zone: seq<Id>, existing: set<Id>) {
    forall x :: x in existing && x in floors ==> x !in zone
  }

  /**
   No mapped element of the forecourt is left out; the forecourt lists no known element twice, and none that
   a floor lists too; floors that list the same known element, or become the same row, are at one level.
   */
  ghost predicate CleanPayload(db: Db, c: Id, p: PlanJson, q: Query)
    requires Answers(db, c, q)
  {
    && (forall x :: !LeftInForecourt(db, c, p, x))
    && DistinctAmong(ZoneIdsOf(p.forecourt), Existing(db, c))
    && ListedApart(FloorIdsOf(p.floors), ZoneIdsOf(p.forecourt), Existing(db, c))
    && OneLevelPerElement(p.floors, Existing(db, c))
    && OneLevelPerRow(SavedFloors(db, p, q.scan), Targets(SavedFloors(db, p, q.scan), q.order, db.floors, db.nextFloor))
  }

  // ----- Which floors become the same row --------------------------------------------------------------------

  /** A floor becomes the row of an earlier one only by naming it. */
  lemma {:induction false} SameRowIff(fs: seq<JsonFloor>, order: seq<Id>, rows: map<Id, FloorRow>, next: Id, i: nat,
                                      j: nat)
    requires i < j < |fs| && forall f :: f in order ==> f in rows && f < next
    ensures var ts := Targets(fs, order, rows, next);
            ts[i] == ts[j] <==> ts[i] in order && fs[j].id == Some(ts[i])
  {
    var ts, before := Targets(fs, order, rows, next), Targets(fs[..j], order, rows, next);
    TargetIs(fs, order, rows, next, j);
    CreatedAreNew(fs, order, rows, next, i, j);
    FirstAtLevelFacts(order, rows, before, fs[j].level);
    assert ts[i] == before[i] && before[i] in before;
  }

  // ----- The ids of the saved plan ----------------------------------------------------------------------------

  /** Known ids are where the payload, once the orphans are back, has them; no other id is there twice. */
  ghost predicate IdsKept(fs: seq<JsonFloor>, zone: seq<Id>, out: PlanJson, existing: set<Id>) {
    && |out.floors| == |fs|
    && (forall i, x :: 0 <= i < |fs| && x in existing ==>
          (x in IdsOf(out.floors[i].elements) <==> x in IdsOf(fs[i].elements)))
    && (forall x :: x in existing ==> Count(ZoneIdsOf(out.forecourt), x) == Count(zone, x))
    && (forall x :: x !in existing ==> Count(PlanIds(out), x) <= 1)
  }

  lemma {:induction false} SavedIdsKept(db: Db, c: Id, p: PlanJson, q: Query)
    requires SaveReady(db, c, q)
    ensures IdsKept(SavedFloors(db, p, q.scan), ZoneIdsOf(p.forecourt), SavedPlan(db, c, p, q), Existing(db, c))
  {
    NumberedIdsKept(db, c, p, q.order, SavedFloors(db, p, q.scan), SavedPlan(db, c, p, q));
  }

  lemma {:induction false} NumberedIdsKept(db: Db, c: Id, p: PlanJson, order: seq<Id>, fs: seq<JsonFloor>,
                                           out: PlanJson)
    requires Valid(db) && (forall f :: f in order ==> f in db.floors) && out == NumberedPlan(db, c, p, fs, order)
    ensures IdsKept(fs, ZoneIdsOf(p.forecourt), out, Existing(db, c))
  {
    ExistingBelow(db, c);
    NumberedPlanIds(db, c, p, order, fs, Existing(db, c), out);
    IdsKeptFrom(fs, Targets(fs, order, db.floors, db.nextFloor), p.forecourt, ForecourtId(db, c), out,
                Existing(db, c), db.nextElement, db.nextElement + NewInFloors(fs, Existing(db, c)),
                NextElement(db, c, p, fs));
  }

  lemma {:induction false} IdsKeptFrom(fs: seq<JsonFloor>, ts: seq<Id>, zone: Option<JsonZone>, target: Id,
                                       out: PlanJson, existing: set<Id>, next: Id, mid: Id, hi: Id)
    requires |ts| == |fs| && next <= mid && forall x :: x in existing ==> x < next
    requires out.floors == NumberedFloors(fs, ts, existing, next)
             && out.forecourt == NumberedZone(zone, target, existing, mid)
    requires Renumbered(PlanIds(out), FloorIdsOf(fs) + ZoneIdsOf(zone), existing, next, hi)
    ensures IdsKept(fs, ZoneIdsOf(zone), out, existing)
  {
    forall i, x | 0 <= i < |fs| && x in existing
      ensures x in IdsOf(out.floors[i].elements) <==> x in IdsOf(fs[i].elements)
    {
      FloorKeepsIds(fs, ts, existing, next, i);
    }
    ZoneKeepsIds(zone, target, existing, mid);
    forall x | x !in existing ensures Count(PlanIds(out), x) <= 1 {
      assert Kept(PlanIds(out), FloorIdsOf(fs) + ZoneIdsOf(zone), existing, x);
    }
  }

  lemma {:induction false} FloorKeepsIds(fs: seq<JsonFloor>, ts: seq<Id>, existing: set<Id>, next: Id, i: nat)
    requires |ts| == |fs| && i < |fs| && forall x :: x in existing ==> x < next
    ensures forall x :: x in existing ==>
              (x in IdsOf(NumberedFloors(fs, ts, existing, next)[i].elements) <==> x in IdsOf(fs[i].elements))
  {
    var mid := next + NewInFloors(fs[..i], existing);
    NumberedFloorElements(fs, ts, existing, next, i);
    NumberedIds(fs[i].elements, existing, mid);
    RenumberedMembers(IdsOf(Numbered(fs[i].elements, existing, mid)), IdsOf(fs[i].elements), existing, mid,
                      mid + NewCount(fs[i].elements, existing));
  }

  lemma {:induction false} ZoneKeepsIds(zone: Option<JsonZone>, target: Id, existing: set<Id>, next: Id)
    requires forall x :: x in existing ==> x < next
    ensures var out := NumberedZone(zone, target, existing, next);
            forall x :: x in existing ==> Count(ZoneIdsOf(out), x) == Count(ZoneIdsOf(zone), x)
  {
    var out := NumberedZone(zone, target, existing, next);
    NumberedZoneIds(zone, target, existing, next);
    forall x | x in existing ensures Count(ZoneIdsOf(out), x) == Count(ZoneIdsOf(zone), x) {
      assert Kept(ZoneIdsOf(out), ZoneIdsOf(zone), existing, x);
    }
  }

  function Count(ids: seq<Id>, x: Id): (n: nat) {
    multiset(ids)[x]
  }

  lemma {:induction false} CountTogether(ids: seq<Id>, a: seq<Id>, b: seq<Id>, x: Id)
    requires ids == a + b
    ensures Count(ids, x) == Count(a, x) + Count(b, x)
    ensures (x in a <==> Count(a, x) >= 1) && (x in b <==> Count(b, x) >= 1)
  {
    assert multiset(a + b) == multiset(a) + multiset(b);
    assert (x in a <==> x in multiset(a)) && (x in b <==> x in multiset(b));
  }

  lemma {:induction false} ListedTwice(fs: seq<JsonFloor>, i: nat, j: nat, x: Id)
    requires i < j < |fs| && Lists(fs[i], x) && Lists(fs[j], x)
    ensures Count(FloorIdsOf(fs), x) >= 2
  {
    var n := |fs| - 1;
    CountTogether(FloorIdsOf(fs), FloorIdsOf(fs[..n]), IdsOf(fs[n].elements), x);
    if j < n {
      ListedTwice(fs[..n], i, j, x);
    } else {
      assert fs[..n][i] == fs[i];
      FloorIdsAt(fs[..n], x);
    }
  }

  /** An id that was not known is on one floor, or in the forecourt, once. */
  lemma {:induction false} NewListedOnce(out: PlanJson, x: Id)
    requires Count(PlanIds(out), x) <= 1
    ensures ListedOnOne(out.floors, x)
    ensures x in FloorIdsOf(out.floors) ==> x !in ZoneIdsOf(out.forecourt)
    ensures Count(ZoneIdsOf(out.forecourt), x) <= 1
  {
    CountTogether(PlanIds(out), FloorIdsOf(out.floors), ZoneIdsOf(out.forecourt), x);
    forall i, j | 0 <= i < j < |out.floors| && Lists(out.floors[i], x) ensures !Lists(out.floors[j], x) {
      if Lists(out.floors[j], x) {
        ListedTwice(out.floors, i, j, x);
      }
    }
  }

  ghost predicate ListedOnOne(fs: seq<JsonFloor>, x: Id) {
    forall i, j :: 0 <= i < j < |fs| && Lists(fs[i], x) ==> !Lists(fs[j], x)
  }

  // ----- The rows ------------------------------------------------------------------------------------------------

  /** Some floor of the plan lists `x` and is on the row of `place`. */
  ghost predicate ListedAt(fs: seq<JsonFloor>, x: Id, place: Place) {
    exists i :: 0 <= i < |fs| && x in IdsOf(fs[i].elements) && fs[i].id.Some? && place == OnFloor(fs[i].id.value)
  }

  lemma {:induction false} RowListedAt(fs: seq<JsonFloor>, x: Id)
    requires (forall i :: 0 <= i < |fs| ==> fs[i].id.Some?) && x in FloorElementRows(fs)
    ensures ListedAt(fs, x, FloorElementRows(fs)[x].place)
  {
    var n := |fs| - 1;
    ElementRowsFacts(OnFloor(fs[n].id.value), fs[n].elements);
    if x !in ElementRows(OnFloor(fs[n].id.value), fs[n].elements) {
      RowListedAt(fs[..n], x);
      var place := FloorElementRows(fs[..n])[x].place;
      var i :| 0 <= i < n && x in IdsOf(fs[..n][i].elements) && place == OnFloor(fs[..n][i].id.value);
      assert fs[i] == fs[..n][i];
    }
  }

  /** A row has the level of some floor that became it. */
  ghost predicate LevelOfRow(fs: seq<JsonFloor>, f: Id, level: int) {
    exists j :: 0 <= j < |fs| && fs[j].id == Some(f) && fs[j].level == level
  }

  lemma {:induction false} RowLevel(c: Id, fs: seq<JsonFloor>, f: Id)
    requires (forall i :: 0 <= i < |fs| ==> fs[i].id.Some?) && f in FloorRows(c, fs)
    ensures LevelOfRow(fs, f, FloorRows(c, fs)[f].level)
  {
    var n := |fs| - 1;
    if fs[n].id != Some(f) {
      RowLevel(c, fs[..n], f);
      var j :| 0 <= j < n && fs[..n][j].id == Some(f) && fs[..n][j].level == FloorRows(c, fs[..n])[f].level;
      assert fs[j] == fs[..n][j];
    }
  }

  /** Each floor's row is there, at the level of a floor that became it. */
  ghost predicate RowsPlaced(c: Id, out: PlanJson, after: Db) {
    forall i :: 0 <= i < |out.floors| ==>
      && out.floors[i].id.Some? && out.floors[i].id.value in FloorsOf(after, c)
      && LevelOfRow(out.floors, out.floors[i].id.value, after.floors[out.floors[i].id.value].level)
  }

  /** Each element of the plan is in the forecourt if that lists it, and else on the row of a floor that does. */
  ghost predicate ElementsPlaced(c: Id, out: PlanJson, after: Db) {
    forall x :: x in PlanIds(out) ==>
      && x in after.elements
      && if x in ZoneIdsOf(out.forecourt) then after.elements[x].place == OnForecourt(c)
         else ListedAt(out.floors, x, after.elements[x].place)
  }

  /** Of the elements the plan does not list, the mapped ones the payload left out are in the forecourt. */
  ghost predicate OthersPlaced(db: Db, c: Id, p: PlanJson, out: PlanJson, after: Db) {
    && (forall x :: x !in PlanIds(out) ==> (x in InForecourt(after, c) <==> LeftInForecourt(db, c, p, x)))
    && (forall x :: LeftInForecourt(db, c, p, x) ==> x !in PlanIds(out))
  }

  lemma {:induction false} SavedRowsPlaced(db: Db, c: Id, p: PlanJson, q: Query)
    requires SaveReady(db, c, q)
    ensures RowsPlaced(c, SavedPlan(db, c, p, q), SaveInto(db, c, p, q).db)
  {
    var out, after, fs := SavedPlan(db, c, p, q), SaveInto(db, c, p, q).db, SavedFloors(db, p, q.scan);
    SavedFloorsShape(db, c, p, q);
    SaveFloors(db, c, p, q);
    RowsPlacedFrom(db, c, out, after, fs, Targets(fs, q.order, db.floors, db.nextFloor),
                   NextFloor(db, fs, q.order));
  }

  lemma {:induction false} RowsPlacedFrom(db: Db, c: Id, out: PlanJson, after: Db, fs: seq<JsonFloor>, ts: seq<Id>,
                                          hiF: Id)
    requires FloorsAfter(db, c, out, after, hiF) && |out.floors| == |fs| == |ts|
    requires forall i :: 0 <= i < |fs| ==> WrittenBack(out.floors[i], fs[i], ts[i])
    ensures RowsPlaced(c, out, after)
  {
    forall i | 0 <= i < |out.floors|
      ensures out.floors[i].id.Some? && out.floors[i].id.value in FloorsOf(after, c)
      ensures LevelOfRow(out.floors, out.floors[i].id.value, after.floors[out.floors[i].id.value].level)
    {
      assert WrittenBack(out.floors[i], fs[i], ts[i]) && out.floors[i] in out.floors;
      assert ts[i] in TargetSet(out.floors);
      RowLevel(c, out.floors, ts[i]);
    }
  }

  lemma {:induction false} SavedElementsPlaced(db: Db, c: Id, p: PlanJson, q: Query)
    requires SaveReady(db, c, q)
    ensures ElementsPlaced(c, SavedPlan(db, c, p, q), SaveInto(db, c, p, q).db)
    ensures OthersPlaced(db, c, p, SavedPlan(db, c, p, q), SaveInto(db, c, p, q).db)
  {
    var out, after := SavedPlan(db, c, p, q), SaveInto(db, c, p, q).db;
    SavedFloorsShape(db, c, p, q);
    SaveIsPrepared(db, c, p, q);
    SaveElements(db, c, p, q);
    PlanRowsFacts(db, c, p, q);
    ElementsPlacedFrom(db, c, out, after);
    OthersPlacedFrom(db, c, p, out, after, NextElement(db, c, p, SavedFloors(db, p, q.scan)));
  }

  lemma {:induction false} ElementsPlacedFrom(db: Db, c: Id, out: PlanJson, after: Db)
    requires ElementsAfter(db, c, out, after.elements) && forall i :: 0 <= i < |out.floors| ==> out.floors[i].id.Some?
    requires forall x :: x in PlanRows(c, out) <==> x in PlanIds(out)
    requires forall x :: x in ZoneIdsOf(out.forecourt) ==> PlanRows(c, out)[x].place == OnForecourt(c)
    ensures ElementsPlaced(c, out, after)
  {
    FloorElementRowsFacts(out.floors);
    forall x | x in PlanIds(out) && x !in ZoneIdsOf(out.forecourt)
      ensures x in after.elements && ListedAt(out.floors, x, after.elements[x].place)
    {
      if out.forecourt.Some? {
        ElementRowsFacts(OnForecourt(c), out.forecourt.value.elements);
      }
      RowListedAt(out.floors, x);
    }
  }

  lemma {:induction false} OthersPlacedFrom(db: Db, c: Id, p: PlanJson, out: PlanJson, after: Db, hiE: Id)
    requires Prepared(db, c, p, out, hiE) && ElementsAfter(db, c, out, after.elements)
    ensures OthersPlaced(db, c, p, out, after)
  {
  }

  // ----- The agreement ---------------------------------------------------------------------------------------------

  /** What a save leaves behind: all that the agreement is drawn from. */
  ghost predicate Written(db: Db, c: Id, p: PlanJson, fs: seq<JsonFloor>, ts: seq<Id>, out: PlanJson, after: Db) {
    && |out.floors| == |fs| == |ts|
    && (forall i :: 0 <= i < |fs| ==> out.floors[i].id == Some(ts[i]) && out.floors[i].level == fs[i].level)
    && IdsKept(fs, ZoneIdsOf(p.forecourt), out, Existing(db, c))
    && RowsPlaced(c, out, after) && ElementsPlaced(c, out, after) && OthersPlaced(db, c, p, out, after)
    && !ForecourtClash(after, c, out)
  }

  lemma {:induction false} SaveWrites(db: Db, c: Id, p: PlanJson, q: Query)
    requires SaveReady(db, c, q)
    ensures var fs := SavedFloors(db, p, q.scan);
            Written(db, c, p, fs, Targets(fs, q.order, db.floors, db.nextFloor), SavedPlan(db, c, p, q),
                    SaveInto(db, c, p, q).db)
  {
    SavedFloorsShape(db, c, p, q);
    SavedIdsKept(db, c, p, q);
    SavedRowsPlaced(db, c, p, q);
    SavedElementsPlaced(db, c, p, q);
    SaveZones(db, c, p, q);
    SavedZoneShape(db, c, p, q);
    ClashFree(db, c, p, SavedPlan(db, c, p, q), SaveInto(db, c, p, q).db);
  }

  /** An element of the plan is among those of the configuration afterwards. */
  lemma {:induction false} ListedExists(db: Db, c: Id, p: PlanJson, fs: seq<JsonFloor>, ts: seq<Id>, out: PlanJson,
                                        after: Db, x: Id)
    requires Written(db, c, p, fs, ts, out, after) && x in PlanIds(out)
    ensures x in Existing(after, c)
  {
    if x !in ZoneIdsOf(out.forecourt) {
      var i :| 0 <= i < |out.floors| && x in IdsOf(out.floors[i].elements)
               && after.elements[x].place == OnFloor(out.floors[i].id.value);
    }
  }

  /** Floor `i` agrees with the rows when the floors at its row, and those listing its elements, are at its level. */
  lemma {:induction false} FloorAgreesWhen(db: Db, c: Id, p: PlanJson, fs: seq<JsonFloor>, ts: seq<Id>, out: PlanJson,
                                           after: Db, i: nat)
    requires Written(db, c, p, fs, ts, out, after) && i < |fs|
    requires OneLevelPerRow(fs, ts) && OneLevelPerElement(fs, Existing(db, c))
    requires ListedApart(FloorIdsOf(fs), ZoneIdsOf(p.forecourt), Existing(db, c))
    ensures FloorAgrees(after, c, out.floors[i])
  {
    RowAtLevel(db, c, p, fs, ts, out, after, i);
    forall x | x in IdsOf(out.floors[i].elements) ensures OnLevel(after, c, x, out.floors[i].level) {
      ElementAtLevel(db, c, p, fs, ts, out, after, i, x);
    }
  }

  lemma {:induction false} RowAtLevel(db: Db, c: Id, p: PlanJson, fs: seq<JsonFloor>, ts: seq<Id>, out: PlanJson,
                                      after: Db, i: nat)
    requires Written(db, c, p, fs, ts, out, after) && i < |fs| && OneLevelPerRow(fs, ts)
    ensures ts[i] in FloorsOf(after, c) && after.floors[ts[i]].level == fs[i].level
  {
    assert LevelOfRow(out.floors, ts[i], after.floors[ts[i]].level);
    var j :| 0 <= j < |out.floors| && out.floors[j].id == Some(ts[i])
             && out.floors[j].level == after.floors[ts[i]].level;
    assert ts[j] == ts[i];
  }

  lemma {:induction false} ElementAtLevel(db: Db, c: Id, p: PlanJson, fs: seq<JsonFloor>, ts: seq<Id>, out: PlanJson,
                                          after: Db, i: nat, x: Id)
    requires Written(db, c, p, fs, ts, out, after) && i < |fs| && x in IdsOf(out.floors[i].elements)
    requires OneLevelPerRow(fs, ts) && OneLevelPerElement(fs, Existing(db, c))
    requires ListedApart(FloorIdsOf(fs), ZoneIdsOf(p.forecourt), Existing(db, c))
    ensures OnLevel(after, c, x, fs[i].level)
  {
    var j := RowOfListed(db, c, p, fs, ts, out, after, i, x);
    RowAtLevel(db, c, p, fs, ts, out, after, j);
    SameLevelListed(db, c, p, fs, ts, out, after, i, j, x);
  }

  lemma {:induction false} RowOfListed(db: Db, c: Id, p: PlanJson, fs: seq<JsonFloor>, ts: seq<Id>, out: PlanJson,
                                       after: Db, i: nat, x: Id) returns (j: nat)
    requires Written(db, c, p, fs, ts, out, after) && i < |fs| && x in IdsOf(out.floors[i].elements)
    requires ListedApart(FloorIdsOf(fs), ZoneIdsOf(p.forecourt), Existing(db, c))
    ensures j < |fs| && x in IdsOf(out.floors[j].elements)
    ensures x in after.elements && after.elements[x].place == OnFloor(ts[j])
  {
    NotInZoneToo(db, c, p, fs, ts, out, after, i, x);
    j :| j < |out.floors| && x in IdsOf(out.floors[j].elements)
         && after.elements[x].place == OnFloor(out.floors[j].id.value);
  }

  lemma {:induction false} SameLevelListed(db: Db, c: Id, p: PlanJson, fs: seq<JsonFloor>, ts: seq<Id>, out: PlanJson,
                                           after: Db, i: nat, j: nat, x: Id)
    requires Written(db, c, p, fs, ts, out, after) && OneLevelPerElement(fs, Existing(db, c))
    requires i < |fs| && j < |fs| && x in IdsOf(out.floors[i].elements) && x in IdsOf(out.floors[j].elements)
    ensures fs[i].level == fs[j].level
  {
    if x !in Existing(db, c) {
      NewListedOnce(out, x);
      assert Lists(out.floors[i], x) && Lists(out.floors[j], x);
    } else {
      assert Lists(fs[i], x) && Lists(fs[j], x);
    }
  }

  lemma {:induction false} NotInZoneToo(db: Db, c: Id, p: PlanJson, fs: seq<JsonFloor>, ts: seq<Id>, out: PlanJson,
                                        after: Db, i: nat, x: Id)
    requires Written(db, c, p, fs, ts, out, after) && i < |fs| && x in IdsOf(out.floors[i].elements)
    requires ListedApart(FloorIdsOf(fs), ZoneIdsOf(p.forecourt), Existing(db, c))
    ensures x in PlanIds(out) && x !in ZoneIdsOf(out.forecourt) && ListedAt(out.floors, x, after.elements[x].place)
  {
    FloorIdsAt(out.floors, x);
    if x !in Existing(db, c) {
      NewListedOnce(out, x);
    } else {
      assert x in IdsOf(fs[i].elements);
      FloorIdsAt(fs, x);
      SameCountSameMember(ZoneIdsOf(out.forecourt), ZoneIdsOf(p.forecourt), x);
    }
  }

  lemma {:induction false} SameCountSameMember(a: seq<Id>, b: seq<Id>, x: Id)
    requires Count(a, x) == Count(b, x)
    ensures x in a <==> x in b
  {
    assert (x in a <==> x in multiset(a)) && (x in b <==> x in multiset(b));
  }

  lemma {:induction false} ForecourtAgreesWhen(db: Db, c: Id, p: PlanJson, fs: seq<JsonFloor>, ts: seq<Id>,
                                               out: PlanJson, after: Db)
    requires Written(db, c, p, fs, ts, out, after) && forall x :: !LeftInForecourt(db, c, p, x)
    requires DistinctAmong(ZoneIdsOf(p.forecourt), Existing(db, c))
    ensures ForecourtAgrees(after, c, out)
  {
    forall x | x in InForecourt(after, c) ensures x in ZoneIdsOf(out.forecourt) {
      assert x in PlanIds(out);
    }
    forall x | x in Existing(after, c) ensures multiset(ZoneIdsOf(out.forecourt))[x] <= 1 {
      if x !in Existing(db, c) {
        NewListedOnce(out, x);
      }
    }
  }

  /** An agreement shows the payload to be clean: on its forecourt, */
  lemma {:induction false} CleanForecourt(db: Db, c: Id, p: PlanJson, fs: seq<JsonFloor>, ts: seq<Id>, out: PlanJson,
                                          after: Db)
    requires Written(db, c, p, fs, ts, out, after) && ForecourtAgrees(after, c, out)
    ensures forall x :: !LeftInForecourt(db, c, p, x)
    ensures DistinctAmong(ZoneIdsOf(p.forecourt), Existing(db, c))
  {
    forall x ensures !LeftInForecourt(db, c, p, x) {
      assert LeftInForecourt(db, c, p, x) ==> x !in PlanIds(out);
    }
    forall x | x in Existing(db, c) ensures multiset(ZoneIdsOf(p.forecourt))[x] <= 1 {
      SameCountSameMember(ZoneIdsOf(out.forecourt), ZoneIdsOf(p.forecourt), x);
      if x in ZoneIdsOf(out.forecourt) {
        ListedExists(db, c, p, fs, ts, out, after, x);
      } else {
        assert x !in multiset(ZoneIdsOf(p.forecourt));
      }
    }
  }

  /** on its floors, */
  lemma {:induction false} CleanLevels(db: Db, c: Id, p: PlanJson, fs: seq<JsonFloor>, ts: seq<Id>, out: PlanJson,
                                       after: Db)
    requires Written(db, c, p, fs, ts, out, after) && forall i :: 0 <= i < |fs| ==> FloorAgrees(after, c, out.floors[i])
    ensures OneLevelPerRow(fs, ts) && OneLevelPerElement(fs, Existing(db, c))
  {
    forall i, j | 0 <= i < |fs| && 0 <= j < |fs| && ts[i] == ts[j] ensures fs[i].level == fs[j].level {
      assert FloorAgrees(after, c, out.floors[i]) && FloorAgrees(after, c, out.floors[j]);
    }
    forall i, j, x | 0 <= i < |fs| && 0 <= j < |fs| && x in Existing(db, c)
      && Lists(fs[i], x) && Lists(fs[j], x) ensures fs[i].level == fs[j].level
    {
      assert FloorAgrees(after, c, out.floors[i]) && FloorAgrees(after, c, out.floors[j]);
      assert x in IdsOf(out.floors[i].elements) && x in IdsOf(out.floors[j].elements);
      FloorIdsAt(out.floors, x);
      ListedExists(db, c, p, fs, ts, out, after, x);
    }
  }

  /** and between the two. */
  lemma {:induction false} CleanApart(db: Db, c: Id, p: PlanJson, fs: seq<JsonFloor>, ts: seq<Id>, out: PlanJson,
                                      after: Db)
    requires Written(db, c, p, fs, ts, out, after) && ForecourtAgrees(after, c, out)
    requires forall i :: 0 <= i < |fs| ==> FloorAgrees(after, c, out.floors[i])
    ensures ListedApart(FloorIdsOf(fs), ZoneIdsOf(p.forecourt), Existing(db, c))
  {
    forall x | x in Existing(db, c) && x in FloorIdsOf(fs) ensures x !in ZoneIdsOf(p.forecourt) {
      SameCountSameMember(ZoneIdsOf(out.forecourt), ZoneIdsOf(p.forecourt), x);
      FloorIdsAt(fs, x);
      var i :| 0 <= i < |fs| && x in IdsOf(fs[i].elements);
      if x in ZoneIdsOf(out.forecourt) {
        ListedExists(db, c, p, fs, ts, out, after, x);
      }
    }
  }

  // ----- The payload as it was sent ----------------------------------------------------------------------------------

  /** The orphans are on no floor of the payload, and come back on one. */
  lemma {:induction false} OrphansOnOneFloor(fs: seq<JsonFloor>, orphans: seq<JsonElement>, existing: set<Id>)
    requires forall x :: x in IdsOf(orphans) ==> x !in FloorIdsOf(fs)
    ensures OneLevelPerElement(Reinjected(fs, orphans), existing) <==> OneLevelPerElement(fs, existing)
  {
    var r := Reinjected(fs, orphans);
    if orphans != [] && fs != [] {
      var k := OrphanFloor(fs);
      IdsConcat(fs[k].elements, orphans);
      forall x, i | 0 <= i < |fs| && x in IdsOf(fs[i].elements) ensures x !in IdsOf(orphans) {
        FloorIdsAt(fs, x);
      }
      assert forall i :: 0 <= i < |fs| ==> r[i].level == fs[i].level;
      assert forall x, i :: 0 <= i < |fs| ==>
        (x in IdsOf(r[i].elements) <==> x in IdsOf(fs[i].elements) || (i == k && x in IdsOf(orphans)));
    }
  }

  lemma {:induction false} PayloadAsSaved(db: Db, c: Id, p: PlanJson, q: Query)
    requires SaveReady(db, c, q)
    ensures var fs, existing := SavedFloors(db, p, q.scan), Existing(db, c);
            && (OneLevelPerElement(fs, existing) <==> OneLevelPerElement(p.floors, existing))
            && (ListedApart(FloorIdsOf(fs), ZoneIdsOf(p.forecourt), existing) <==>
                ListedApart(FloorIdsOf(p.floors), ZoneIdsOf(p.forecourt), existing))
  {
    var orphans := Orphans(db, PlanIds(p), q.scan);
    OrphansFacts(db, PlanIds(p), q.scan);
    OrphansOnOneFloor(p.floors, orphans, Existing(db, c));
    ReinjectedIds(p.floors, orphans);
    SameMembers(FloorIdsOf(SavedFloors(db, p, q.scan)), FloorIdsOf(p.floors), IdsOf(orphans));
  }

  /** A save leaves the JSON and the rows in agreement exactly when its payload is clean. */
  lemma {:induction false} SaveAgreesIff(db: Db, c: Id, p: PlanJson, q: Query)
    requires SaveReady(db, c, q)
    ensures Agrees(SaveInto(db, c, p, q).db, c) <==> CleanPayload(db, c, p, q)
  {
    var fs, out, after := SavedFloors(db, p, q.scan), SavedPlan(db, c, p, q), SaveInto(db, c, p, q).db;
    var ts := Targets(fs, q.order, db.floors, db.nextFloor);
    SaveWrites(db, c, p, q);
    PayloadAsSaved(db, c, p, q);
    if Agrees(after, c) {
      CleanForecourt(db, c, p, fs, ts, out, after);
      CleanLevels(db, c, p, fs, ts, out, after);
      CleanApart(db, c, p, fs, ts, out, after);
    } else if CleanPayload(db, c, p, q) {
      ForecourtAgreesWhen(db, c, p, fs, ts, out, after);
      forall i | 0 <= i < |out.floors| ensures FloorAgrees(after, c, out.floors[i]) {
        FloorAgreesWhen(db, c, p, fs, ts, out, after, i);
      }
    }
  }
}
