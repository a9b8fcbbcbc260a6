/** What a plan save guarantees, whatever the payload. */
module FloorPlanSave {
  import opened Common
  import opened FloorPlan

  // ----- Ids ------------------------------------------------------------------------------

  lemma {:induction false} IdsAt(els: seq<JsonElement>, x: Id)
    ensures x in IdsOf(els) <==> exists k :: 0 <= k < |els| && els[k].id == Some(x)
  {
    if els != [] {
      var n := |els| - 1;
      IdsAt(els[..n], x);
      if k :| 0 <= k < |els| && els[k].id == Some(x) {
        assert k < n ==> els[..n][k].id == Some(x);
      }
    }
  }

  lemma {:induction false} FloorIdsAt(fs: seq<JsonFloor>, x: Id)
    ensures x in FloorIdsOf(fs) <==> OnSomeFloor(fs, x)
  {
    if fs != [] {
      var n := |fs| - 1;
      FloorIdsAt(fs[..n], x);
      OnSomeFloorSplit(fs, x);
    }
  }

  ghost predicate OnSomeFloor(fs: seq<JsonFloor>, x: Id) {
    exists i :: 0 <= i < |fs| && x in IdsOf(fs[i].elements)
  }

  lemma {:induction false} OnSomeFloorSplit(fs: seq<JsonFloor>, x: Id)
    requires fs != []
    ensures OnSomeFloor(fs, x) <==> OnSomeFloor(fs[..|fs| - 1], x) || x in IdsOf(fs[|fs| - 1].elements)
  {
  }

  lemma {:induction false} IdsConcat(a: seq<JsonElement>, b: seq<JsonElement>)
    ensures IdsOf(a + b) == IdsOf(a) + IdsOf(b)
  {
    if b == [] {
      assert a + b == a;
    } else {
      assert (a + b)[..|a + b| - 1] == a + b[..|b| - 1];
      IdsConcat(a, b[..|b| - 1]);
    }
  }

  /**
   `out` is `ids` after numbering: a known id is there as often as before, and each other one has become
   one of the fresh ids from `lo` up to `hi`, none of them used twice.
   */
  ghost predicate Renumbered(out: seq<Id>, ids: seq<Id>, existing: set<Id>, lo: Id, hi: Id) {
    && lo <= hi
    && (forall x :: x in out ==> x in existing || lo <= x < hi)
    && (forall x :: Kept(out, ids, existing, x))
  }

  ghost predicate Kept(out: seq<Id>, ids: seq<Id>, existing: set<Id>, x: Id) {
    if x in existing then multiset(out)[x] == multiset(ids)[x] else multiset(out)[x] <= 1
  }

  lemma {:induction false} RenumberedMembers(out: seq<Id>, ids: seq<Id>, existing: set<Id>, lo: Id, hi: Id)
    requires Renumbered(out, ids, existing, lo, hi)
    ensures forall x :: x in existing ==> (x in out <==> x in ids)
    ensures DistinctAmong(ids, existing) ==> Distinct(out)
  {
    forall x | x in existing ensures x in out <==> x in ids {
      assert Kept(out, ids, existing, x);
      assert (x in out <==> x in multiset(out)) && (x in ids <==> x in multiset(ids));
    }
    if DistinctAmong(ids, existing) {
      forall x ensures multiset(out)[x] <= 1 {
        assert Kept(out, ids, existing, x);
      }
      CountedDistinct(out);
    }
  }

  lemma {:induction false} CountedDistinct(ids: seq<Id>)
    requires forall x :: multiset(ids)[x] <= 1
    ensures Distinct(ids)
  {
    if ids != [] {
      var n := |ids| - 1;
      var before, last := ids[..n], ids[n];
      assert ids == before + [last] && multiset(ids) == multiset(before) + multiset{last};
      assert multiset(ids)[last] == multiset(before)[last] + 1;
      assert last in before <==> last in multiset(before);
      forall x ensures multiset(before)[x] <= 1 {
        assert multiset(before)[x] <= multiset(ids)[x];
      }
      CountedDistinct(before);
    }
  }

  lemma {:induction false} RenumberedConcat(o1: seq<Id>, i1: seq<Id>, o2: seq<Id>, i2: seq<Id>, existing: set<Id>,
                                            lo: Id, mid: Id, hi: Id)
    requires Renumbered(o1, i1, existing, lo, mid) && Renumbered(o2, i2, existing, mid, hi)
    requires forall x :: x in existing ==> x < lo
    ensures Renumbered(o1 + o2, i1 + i2, existing, lo, hi)
  {
    assert multiset(o1 + o2) == multiset(o1) + multiset(o2) && multiset(i1 + i2) == multiset(i1) + multiset(i2);
    forall x ensures Kept(o1 + o2, i1 + i2, existing, x) {
      assert Kept(o1, i1, existing, x) && Kept(o2, i2, existing, x);
      assert (x in o1 <==> x in multiset(o1)) && (x in o2 <==> x in multiset(o2));
    }
  }

  lemma {:induction false} NumberedIds(els: seq<JsonElement>, existing: set<Id>, next: Id)
    requires forall x :: x in existing ==> x < next
    ensures Renumbered(IdsOf(Numbered(els, existing, next)), IdsOf(els), existing, next, next + NewCount(els, existing))
  {
    if els != [] {
      var n := |els| - 1;
      var before, out := Numbered(els[..n], existing, next), Numbered(els, existing, next);
      NumberedIds(els[..n], existing, next);
      assert out[..n] == before;
      var last := if els[n].id.Some? then [els[n].id.value] else [];
      var mid := next + NewCount(els[..n], existing);
      assert Renumbered([out[n].id.value], last, existing, mid, next + NewCount(els, existing));
      RenumberedConcat(IdsOf(before), IdsOf(els[..n]), [out[n].id.value], last, existing, next, mid, next +
                       NewCount(els, existing));
    }
  }

  lemma {:induction false} NumberedFloorIds(fs: seq<JsonFloor>, targets: seq<Id>, existing: set<Id>, next: Id)
    requires |targets| == |fs| && forall x :: x in existing ==> x < next
    ensures Renumbered(FloorIdsOf(NumberedFloors(fs, targets, existing, next)), FloorIdsOf(fs), existing, next, next +
                       NewInFloors(fs, existing))
  {
    if fs == [] {
      NoneRenumbered(existing, next);
      assert NumberedFloors(fs, targets, existing, next) == [];
    } else {
      var n := |fs| - 1;
      NumberedFloorIds(fs[..n], targets[..n], existing, next);
      LastNumberedFloor(fs, targets, existing, next);
    }
  }

  lemma {:induction false} NoneRenumbered(existing: set<Id>, lo: Id)
    ensures Renumbered([], [], existing, lo, lo)
  {
  }

  lemma {:induction false} LastNumberedFloor(fs: seq<JsonFloor>, targets: seq<Id>, existing: set<Id>, next: Id)
    requires fs != [] && |targets| == |fs| && forall x :: x in existing ==> x < next
    requires var n := |fs| - 1;
             Renumbered(FloorIdsOf(NumberedFloors(fs[..n], targets[..n], existing, next)), FloorIdsOf(fs[..n]),
                        existing, next, next + NewInFloors(fs[..n], existing))
    ensures Renumbered(FloorIdsOf(NumberedFloors(fs, targets, existing, next)), FloorIdsOf(fs), existing, next, next +
                       NewInFloors(fs, existing))
  {
    var n, out := |fs| - 1, NumberedFloors(fs, targets, existing, next);
    var mid, hi := next + NewInFloors(fs[..n], existing), next + NewInFloors(fs, existing);
    var o1, i1 := FloorIdsOf(NumberedFloors(fs[..n], targets[..n], existing, next)), FloorIdsOf(fs[..n]);
    var o2, i2 := IdsOf(Numbered(fs[n].elements, existing, mid)), IdsOf(fs[n].elements);
    NumberedIds(fs[n].elements, existing, mid);
    RenumberedConcat(o1, i1, o2, i2, existing, next, mid, hi);
    assert out[..n] == NumberedFloors(fs[..n], targets[..n], existing, next);
    assert FloorIdsOf(out) == o1 + o2 && FloorIdsOf(fs) == i1 + i2;
  }

  ghost predicate SaveReady(db: Db, c: Id, q: Query) {
    Valid(db) && c in db.configs && Answers(db, c, q)
  }

  lemma {:induction false} NumberedZoneIds(zone: Option<JsonZone>, target: Id, existing: set<Id>, next: Id)
    requires forall x :: x in existing ==> x < next
    ensures Renumbered(ZoneIdsOf(NumberedZone(zone, target, existing, next)), ZoneIdsOf(zone), existing, next,
                       next + NewInZone(zone, existing))
  {
    if zone.Some? {
      NumberedIds(zone.value.elements, existing, next);
    }
  }

  lemma {:induction false} FloorsThenZoneIds(fs: seq<JsonFloor>, targets: seq<Id>, zone: Option<JsonZone>, target: Id,
                                             existing: set<Id>,
                          next: Id, mid: Id, hi: Id)
    requires |targets| == |fs| && forall x :: x in existing ==> x < next
    requires mid == next + NewInFloors(fs, existing) && hi == mid + NewInZone(zone, existing)
    ensures Renumbered(FloorIdsOf(NumberedFloors(fs, targets, existing, next)) +
                       ZoneIdsOf(NumberedZone(zone, target, existing, mid)),
                       FloorIdsOf(fs) + ZoneIdsOf(zone), existing, next, hi)
  {
    NumberedFloorIds(fs, targets, existing, next);
    NumberedZoneIds(zone, target, existing, mid);
    RenumberedConcat(FloorIdsOf(NumberedFloors(fs, targets, existing, next)), FloorIdsOf(fs),
                     ZoneIdsOf(NumberedZone(zone, target, existing, mid)), ZoneIdsOf(zone), existing, next, mid, hi);
  }

  lemma {:induction false} PlanIdsRenumbered(out: PlanJson, fs: seq<JsonFloor>, targets: seq<Id>,
                                             zone: Option<JsonZone>, target: Id,
                          existing: set<Id>, next: Id, mid: Id, hi: Id)
    requires |targets| == |fs| && forall x :: x in existing ==> x < next
    requires mid == next + NewInFloors(fs, existing) && hi == mid + NewInZone(zone, existing)
    requires out.floors == NumberedFloors(fs, targets, existing, next)
             && out.forecourt == NumberedZone(zone, target, existing, mid)
    ensures Renumbered(PlanIds(out), FloorIdsOf(fs) + ZoneIdsOf(zone), existing, next, hi)
  {
    FloorsThenZoneIds(fs, targets, zone, target, existing, next, mid, hi);
  }

  lemma {:induction false} NumberedPlanIds(db: Db, c: Id, p: PlanJson, order: seq<Id>, fs: seq<JsonFloor>,
                                           existing: set<Id>, out: PlanJson)
    requires forall f :: f in order ==> f in db.floors
    requires existing == Existing(db, c) && forall x :: x in existing ==> x < db.nextElement
    requires out == NumberedPlan(db, c, p, fs, order)
    ensures Renumbered(PlanIds(out), FloorIdsOf(fs) + ZoneIdsOf(p.forecourt), existing, db.nextElement,
                       NextElement(db, c, p, fs))
  {
    PlanIdsRenumbered(out, fs, Targets(fs, order, db.floors, db.nextFloor), p.forecourt, ForecourtId(db, c), existing,
                      db.nextElement, db.nextElement + NewInFloors(fs, existing), NextElement(db, c, p, fs));
  }

  lemma {:induction false} SavedPlanParts(db: Db, c: Id, p: PlanJson, q: Query)
    requires Answers(db, c, q)
    ensures var out, fs, existing := SavedPlan(db, c, p, q), SavedFloors(db, p, q.scan), Existing(db, c);
            && out.floors == NumberedFloors(fs, Targets(fs, q.order, db.floors, db.nextFloor), existing, db.nextElement)
            && out.forecourt == NumberedZone(p.forecourt, ForecourtId(db, c), existing, db.nextElement +
                                             NewInFloors(fs, existing))
  {
  }

  lemma {:induction false} ExistingBelow(db: Db, c: Id)
    requires Valid(db)
    ensures forall x :: x in Existing(db, c) ==> x in db.elements && x < db.nextElement
  {
  }

  // ----- Rows of a numbered plan ------------------------------------------------------------

  ghost predicate AllNumbered(els: seq<JsonElement>) {
    forall k :: 0 <= k < |els| ==> els[k].id.Some?
  }

  lemma {:induction false} LastIsNew(els: seq<JsonElement>, k: nat)
    requires k < |els| - 1 && els[k].id.Some? && Distinct(IdsOf(els))
    ensures els[|els| - 1].id != els[k].id
  {
    var n := |els| - 1;
    assert els[..n][k] == els[k];
    IdsAt(els[..n], els[k].id.value);
    if els[n].id.Some? {
      LastNotBefore(IdsOf(els[..n]), els[n].id.value);
    }
  }

  lemma {:induction false} ElementRowsFacts(place: Place, els: seq<JsonElement>)
    ensures forall x :: x in ElementRows(place, els) <==> x in IdsOf(els)
    ensures forall x :: x in ElementRows(place, els) ==> ElementRows(place, els)[x].place == place
    ensures Distinct(IdsOf(els)) ==> forall k :: 0 <= k < |els| && els[k].id.Some? ==>
              els[k].id.value in ElementRows(place, els) && ElementRows(place, els)[els[k].id.value] ==
                  ElementRow(place, els[k].body)
  {
    if els != [] {
      var n := |els| - 1;
      ElementRowsFacts(place, els[..n]);
      if Distinct(IdsOf(els)) {
        DistinctConcat(IdsOf(els[..n]), if els[n].id.Some? then [els[n].id.value] else []);
        forall k | 0 <= k < n && els[k].id.Some?
          ensures els[k].id.value in ElementRows(place, els)
                  && ElementRows(place, els)[els[k].id.value] == ElementRow(place, els[k].body)
        {
          assert els[..n][k] == els[k];
          LastIsNew(els, k);
        }
      }
    }
  }

  lemma {:induction false} TargetSetSnoc(fs: seq<JsonFloor>)
    requires fs != [] && fs[|fs| - 1].id.Some?
    ensures TargetSet(fs) == TargetSet(fs[..|fs| - 1]) + {fs[|fs| - 1].id.value}
  {
  }

  /** The rows of the floors are at floors of the plan, and are its element ids. */
  lemma {:induction false} FloorElementRowsFacts(fs: seq<JsonFloor>)
    requires forall i :: 0 <= i < |fs| ==> fs[i].id.Some?
    ensures forall x :: x in FloorElementRows(fs) <==> x in FloorIdsOf(fs)
    ensures forall x :: x in FloorElementRows(fs) ==>
              FloorElementRows(fs)[x].place.OnFloor? && FloorElementRows(fs)[x].place.floor in TargetSet(fs)
  {
    if fs != [] {
      var n := |fs| - 1;
      FloorElementRowsFacts(fs[..n]);
      ElementRowsFacts(OnFloor(fs[n].id.value), fs[n].elements);
      TargetSetSnoc(fs);
    }
  }

  /** With distinct ids, each element of the plan is on the row its floor names. */
  lemma {:induction false} FloorElementAt(fs: seq<JsonFloor>, i: nat, k: nat)
    requires forall j :: 0 <= j < |fs| ==> fs[j].id.Some?
    requires i < |fs| && k < |fs[i].elements| && fs[i].elements[k].id.Some? && Distinct(FloorIdsOf(fs))
    ensures var x := fs[i].elements[k].id.value;
            x in FloorElementRows(fs) && FloorElementRows(fs)[x] ==
                ElementRow(OnFloor(fs[i].id.value), fs[i].elements[k].body)
  {
    var n, x := |fs| - 1, fs[i].elements[k].id.value;
    var before, last := FloorIdsOf(fs[..n]), IdsOf(fs[n].elements);
    DistinctConcat(before, last);
    ElementRowsFacts(OnFloor(fs[n].id.value), fs[n].elements);
    if i < n {
      assert fs[..n][i] == fs[i];
      FloorElementAt(fs[..n], i, k);
      IdsAt(fs[i].elements, x);
      FloorIdsAt(fs[..n], x);
      assert x in before;
    }
  }

  lemma {:induction false} FloorRowsFacts(c: Id, fs: seq<JsonFloor>)
    requires forall i :: 0 <= i < |fs| ==> fs[i].id.Some?
    ensures FloorRows(c, fs).Keys == TargetSet(fs)
    ensures forall f :: f in FloorRows(c, fs) ==> FloorRows(c, fs)[f].config == c
  {
    if fs != [] {
      var n := |fs| - 1;
      FloorRowsFacts(c, fs[..n]);
      TargetSetSnoc(fs);
    }
  }

  // ----- Target rows ------------------------------------------------------------------------

  lemma {:induction false} FirstAtLevelFacts(order: seq<Id>, rows: map<Id, FloorRow>, seen: seq<Id>, level: int)
    requires forall f :: f in order ==> f in rows
    ensures var r := FirstAtLevel(order, rows, seen, level);
            && (r.Some? ==> r.value in order && r.value !in seen && rows[r.value].level == level)
            && (r.None? ==> forall f :: f in order && f !in seen ==> rows[f].level != level)
  {
    if order != [] && !(order[0] !in seen && rows[order[0]].level == level) {
      FirstAtLevelFacts(order[1..], rows, seen, level);
      assert order == [order[0]] + order[1..];
    }
  }

  /** Each target is a row of the configuration or one of the rows created by this save. */
  lemma {:induction false} TargetsFacts(fs: seq<JsonFloor>, order: seq<Id>, rows: map<Id, FloorRow>, next: Id)
    requires forall f :: f in order ==> f in rows && f < next
    ensures var ts := Targets(fs, order, rows, next);
            forall t :: t in ts ==> t in order || next <= t < next + Created(ts, next)
  {
    if fs != [] {
      var n := |fs| - 1;
      TargetsFacts(fs[..n], order, rows, next);
      var before := Targets(fs[..n], order, rows, next);
      FirstAtLevelFacts(order, rows, before, fs[n].level);
      assert Targets(fs, order, rows, next)[..n] == before;
    }
  }

  /** `out` is the floor `f` of the payload with its ids, on row `target`. */
  ghost predicate WrittenBack(out: JsonFloor, f: JsonFloor, target: Id) {
    && out.id == Some(target) && out.level == f.level && out.info == f.info
    && |out.elements| == |f.elements| && AllNumbered(out.elements)
  }

  lemma {:induction false} NumberedFloorsFacts(fs: seq<JsonFloor>, targets: seq<Id>, existing: set<Id>, next: Id)
    requires |targets| == |fs|
    ensures var out := NumberedFloors(fs, targets, existing, next);
            forall i :: 0 <= i < |fs| ==> WrittenBack(out[i], fs[i], targets[i])
  {
    if fs != [] {
      var n := |fs| - 1;
      NumberedFloorsFacts(fs[..n], targets[..n], existing, next);
      NumberedAll(fs[n].elements, existing, next + NewInFloors(fs[..n], existing));
    }
  }

  lemma {:induction false} NumberedAll(els: seq<JsonElement>, existing: set<Id>, next: Id)
    ensures var r := Numbered(els, existing, next);
            forall k :: 0 <= k < |els| ==>
                  r[k].id.Some? && r[k].body == els[k].body && (Known(els[k], existing) ==> r[k] == els[k])
  {
    if els != [] {
      NumberedAll(els[..|els| - 1], existing, next);
    }
  }

  ghost predicate ZoneWrittenBack(out: JsonZone, z: JsonZone, target: Id) {
    out.id == Some(target) && out.info == z.info && |out.elements| == |z.elements| && AllNumbered(out.elements)
  }

  lemma {:induction false} OrderFacts(db: Db, c: Id, order: seq<Id>)
    requires Valid(db) && Enumerates(order, FloorsOf(db, c))
    ensures forall f :: f in order <==> f in FloorsOf(db, c)
    ensures forall f :: f in order ==> f in db.floors && f < db.nextFloor
  {
  }

  /** The floors of the written-back plan are the target rows. */
  lemma {:induction false} SavedFloorsShape(db: Db, c: Id, p: PlanJson, q: Query)
    requires SaveReady(db, c, q)
    ensures var out, fs := SavedPlan(db, c, p, q).floors, SavedFloors(db, p, q.scan);
            var targets := Targets(fs, q.order, db.floors, db.nextFloor);
            && |out| == |fs|
            && (forall i :: 0 <= i < |fs| ==> WrittenBack(out[i], fs[i], targets[i]))
            && (forall f :: f in TargetSet(out) <==> f in targets)
            && (forall f :: f in targets ==> f in FloorsOf(db, c) || db.nextFloor <= f < NextFloor(db, fs, q.order))
  {
    var fs, existing := SavedFloors(db, p, q.scan), Existing(db, c);
    var targets := Targets(fs, q.order, db.floors, db.nextFloor);
    OrderFacts(db, c, q.order);
    TargetsFacts(fs, q.order, db.floors, db.nextFloor);
    NumberedFloorsFacts(fs, targets, existing, db.nextElement);
    TargetSetIs(NumberedFloors(fs, targets, existing, db.nextElement), targets);
  }

  lemma {:induction false} SavedZoneShape(db: Db, c: Id, p: PlanJson, q: Query)
    requires SaveReady(db, c, q)
    ensures var zone := SavedPlan(db, c, p, q).forecourt;
            && (p.forecourt.Some? <==> zone.Some?)
            && (p.forecourt.Some? ==> ZoneWrittenBack(zone.value, p.forecourt.value, ForecourtId(db, c)))
  {
    NumberedZoneFacts(p.forecourt, ForecourtId(db, c), Existing(db, c), db.nextElement +
                      NewInFloors(SavedFloors(db, p, q.scan), Existing(db, c)));
  }

  lemma {:induction false} TargetSetIs(fs: seq<JsonFloor>, targets: seq<Id>)
    requires |fs| == |targets| && forall i :: 0 <= i < |fs| ==> fs[i].id == Some(targets[i])
    ensures forall f :: f in TargetSet(fs) <==> f in targets
  {
  }

  lemma {:induction false} NumberedZoneFacts(zone: Option<JsonZone>, target: Id, existing: set<Id>, next: Id)
    ensures zone.Some? ==> ZoneWrittenBack(NumberedZone(zone, target, existing, next).value, zone.value, target)
  {
    if zone.Some? {
      NumberedAll(zone.value.elements, existing, next);
    }
  }

  ghost predicate PlacedIn(c: Id, out: PlanJson, x: Id, place: Place)
  {
    match place
    case OnFloor(f) => f in TargetSet(out.floors) && x in FloorIdsOf(out.floors)
    case OnForecourt(d) => out.forecourt.Some? && d == c && x in ZoneIdsOf(out.forecourt)
    case OnMerch(_) => false
  }

  /** Where the rows of the written-back plan are, and which ids they have. */
  lemma {:induction false} PlanRowsFacts(db: Db, c: Id, p: PlanJson, q: Query)
    requires SaveReady(db, c, q)
    ensures var out := SavedPlan(db, c, p, q);
            && (forall x :: x in PlanRows(c, out) <==> x in PlanIds(out))
            && (forall x :: x in PlanRows(c, out) ==> PlacedIn(c, out, x, PlanRows(c, out)[x].place))
            && (forall x :: x in ZoneIdsOf(out.forecourt) ==> PlanRows(c, out)[x].place == OnForecourt(c))
  {
    SavedFloorsShape(db, c, p, q);
    RowsOfNumbered(c, SavedPlan(db, c, p, q));
  }

  lemma {:induction false} RowsOfNumbered(c: Id, out: PlanJson)
    requires forall i :: 0 <= i < |out.floors| ==> out.floors[i].id.Some?
    ensures forall x :: x in PlanRows(c, out) <==> x in PlanIds(out)
    ensures forall x :: x in PlanRows(c, out) ==> PlacedIn(c, out, x, PlanRows(c, out)[x].place)
    ensures forall x :: x in ZoneIdsOf(out.forecourt) ==> PlanRows(c, out)[x].place == OnForecourt(c)
  {
    FloorElementRowsFacts(out.floors);
    if out.forecourt.Some? {
      ElementRowsFacts(OnForecourt(c), out.forecourt.value.elements);
    }
  }
}
