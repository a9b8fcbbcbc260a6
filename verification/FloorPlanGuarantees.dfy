/**
 The guarantees of a plan save: what is deleted, what is kept, where every element ends up, and
 that no shop mapping is left without its element.
 */
module FloorPlanGuarantees {
  import opened Common
  import opened FloorPlan
  import opened FloorPlanSave

  /** A mapped element on the configuration's floors: it is put back when the payload leaves it out. */
  ghost predicate IsOrphan(db: Db, c: Id, x: Id) {
    x in OnFloors(db, FloorsOf(db, c)) && x in Mapped(db)
  }

  // ----- Orphans ----------------------------------------------------------------------------

  lemma {:induction false} OrphansFacts(db: Db, incoming: seq<Id>, scan: seq<Id>)
    requires forall e :: e in scan ==> e in db.elements
    ensures forall x :: x in IdsOf(Orphans(db, incoming, scan)) <==> x in scan && x in Mapped(db) && x !in incoming
    ensures Distinct(scan) ==> forall x :: multiset(IdsOf(Orphans(db, incoming, scan)))[x] <= 1
  {
    if scan != [] {
      var n := |scan| - 1;
      var before := Orphans(db, incoming, scan[..n]);
      assert forall x :: x in scan <==> x in scan[..n] || x == scan[n];
      OrphansFacts(db, incoming, scan[..n]);
      if scan[n] in Mapped(db) && scan[n] !in incoming {
        IdsConcat(before, [JsonElement(Some(scan[n]), Bare(db.elements[scan[n]].body))]);
        assert IdsOf(Orphans(db, incoming, scan)) == IdsOf(before) + [scan[n]];
      } else {
        assert Orphans(db, incoming, scan) == before;
      }
    }
  }

  lemma {:induction false} FloorIdsSnoc(fs: seq<JsonFloor>, f: JsonFloor)
    ensures FloorIdsOf(fs + [f]) == FloorIdsOf(fs) + IdsOf(f.elements)
  {
    assert (fs + [f])[..|fs|] == fs;
  }

  lemma {:induction false} FloorIdsSplit(a: seq<JsonFloor>, b: seq<JsonFloor>)
    ensures FloorIdsOf(a + b) == FloorIdsOf(a) + FloorIdsOf(b)
  {
    if b == [] {
      assert a + b == a;
    } else {
      var n := |b| - 1;
      assert a + b == (a + b[..n]) + [b[n]];
      FloorIdsSnoc(a + b[..n], b[n]);
      FloorIdsSplit(a, b[..n]);
    }
  }

  /** Putting the orphans back adds their ids and no others. */
  lemma {:induction false} ReinjectedIds(fs: seq<JsonFloor>, orphans: seq<JsonElement>)
    ensures multiset(FloorIdsOf(Reinjected(fs, orphans))) == multiset(FloorIdsOf(fs)) + multiset(IdsOf(orphans))
  {
    if orphans != [] {
      if fs == [] {
        var r := Reinjected(fs, orphans);
        assert r == [JsonFloor(None, 0, "RDC", orphans)] && r[..0] == [];
        assert FloorIdsOf(r) == FloorIdsOf(r[..0]) + IdsOf(orphans);
      } else {
        var i := OrphanFloor(fs);
        var f := fs[i].(elements := fs[i].elements + orphans);
        assert Reinjected(fs, orphans) == fs[i := f];
        IdsConcat(fs[i].elements, orphans);
        FloorIdsAround(fs, i);
        FloorIdsAround(fs[i := f], i);
      }
    }
  }

  lemma {:induction false} FloorIdsAround(fs: seq<JsonFloor>, i: nat)
    requires i < |fs|
    ensures FloorIdsOf(fs) == FloorIdsOf(fs[..i]) + IdsOf(fs[i].elements) + FloorIdsOf(fs[i + 1..])
  {
    assert fs == fs[..i] + [fs[i]] + fs[i + 1..];
    OneFloor(fs[i]);
    FloorIdsSplit(fs[..i], [fs[i]]);
    FloorIdsSplit(fs[..i] + [fs[i]], fs[i + 1..]);
  }

  lemma {:induction false} OneFloor(f: JsonFloor)
    ensures FloorIdsOf([f]) == IdsOf(f.elements)
  {
  }

  /**
   The ids of the payload once the orphans are back: those of the payload, and the mapped elements
   on the configuration's floors. If the payload's known ids were distinct, they still are.
   */
  lemma {:induction false} SavedIds(db: Db, c: Id, p: PlanJson, q: Query)
    requires SaveReady(db, c, q)
    ensures var ids := FloorIdsOf(SavedFloors(db, p, q.scan)) + ZoneIdsOf(p.forecourt);
            && (forall x :: x in ids <==> x in PlanIds(p) || IsOrphan(db, c, x))
            && (DistinctAmong(PlanIds(p), Existing(db, c)) ==> DistinctAmong(ids, Existing(db, c)))
  {
    var orphans := Orphans(db, PlanIds(p), q.scan);
    OrphansFacts(db, PlanIds(p), q.scan);
    ReinjectedIds(p.floors, orphans);
    IdsWithOrphans(FloorIdsOf(SavedFloors(db, p, q.scan)), FloorIdsOf(p.floors), ZoneIdsOf(p.forecourt),
                   IdsOf(orphans), Existing(db, c));
  }

  lemma {:induction false} IdsWithOrphans(floors: seq<Id>, before: seq<Id>, zone: seq<Id>, orphans: seq<Id>,
                                          among: set<Id>)
    requires multiset(floors) == multiset(before) + multiset(orphans)
    requires forall x :: x in orphans ==> x !in before + zone && multiset(orphans)[x] <= 1
    ensures forall x :: x in floors + zone <==> x in before + zone || x in orphans
    ensures DistinctAmong(before + zone, among) ==> DistinctAmong(floors + zone, among)
  {
    assert multiset(floors + zone) == multiset(floors) + multiset(zone);
    assert multiset(before + zone) == multiset(before) + multiset(zone);
    SameMembers(floors + zone, before + zone, orphans);
    forall x | x in among ensures multiset(before + zone)[x] <= 1 ==> multiset(floors + zone)[x] <= 1 {
      assert x in orphans <==> x in multiset(orphans);
      assert x in before + zone <==> x in multiset(before + zone);
    }
  }

  lemma {:induction false} SameMembers(ids: seq<Id>, a: seq<Id>, b: seq<Id>)
    requires multiset(ids) == multiset(a) + multiset(b)
    ensures forall x :: x in ids <==> x in a || x in b
  {
    forall x ensures x in ids <==> x in a || x in b {
      assert x in ids <==> x in multiset(ids);
    }
  }

  // ----- One view of everything the save has computed ---------------------------------------

  /** The written-back plan: whose ids it has, and where its rows are. */
  ghost predicate Prepared(db: Db, c: Id, p: PlanJson, out: PlanJson, hiE: Id) {
    && Valid(db) && hiE >= db.nextElement
    && (forall x :: x in PlanRows(c, out) <==> x in PlanIds(out))
    && (forall x :: x in PlanIds(out) ==> x in Existing(db, c) || db.nextElement <= x < hiE)
    && (forall x :: x in Existing(db, c) ==> (x in PlanIds(out) <==> x in PlanIds(p) || IsOrphan(db, c, x)))
    && (forall x :: x in PlanRows(c, out) ==> PlacedIn(c, out, x, PlanRows(c, out)[x].place))
  }

  lemma {:induction false} SaveIsPrepared(db: Db, c: Id, p: PlanJson, q: Query)
    requires SaveReady(db, c, q)
    ensures Prepared(db, c, p, SavedPlan(db, c, p, q), NextElement(db, c, p, SavedFloors(db, p, q.scan)))
  {
    SavedIds(db, c, p, q);
    PlanRowsFacts(db, c, p, q);
    NumberedIsPrepared(db, c, p, q.order, SavedFloors(db, p, q.scan), SavedPlan(db, c, p, q));
  }

  lemma {:induction false} SavedDistinct(db: Db, c: Id, p: PlanJson, q: Query)
    requires SaveReady(db, c, q) && DistinctAmong(PlanIds(p), Existing(db, c))
    ensures Distinct(PlanIds(SavedPlan(db, c, p, q)))
  {
    SavedIds(db, c, p, q);
    NumberedDistinct(db, c, p, q.order, SavedFloors(db, p, q.scan), SavedPlan(db, c, p, q));
  }

  lemma {:induction false} NumberedDistinct(db: Db, c: Id, p: PlanJson, order: seq<Id>, fs: seq<JsonFloor>,
                                            out: PlanJson)
    requires Valid(db) && forall f :: f in order ==> f in db.floors
    requires DistinctAmong(FloorIdsOf(fs) + ZoneIdsOf(p.forecourt), Existing(db, c))
             && out == NumberedPlan(db, c, p, fs, order)
    ensures Distinct(PlanIds(out))
  {
    ExistingBelow(db, c);
    NumberedPlanIds(db, c, p, order, fs, Existing(db, c), out);
    RenumberedMembers(PlanIds(out), FloorIdsOf(fs) + ZoneIdsOf(p.forecourt), Existing(db, c), db.nextElement,
                      NextElement(db, c, p, fs));
  }

  lemma {:induction false} NumberedIsPrepared(db: Db, c: Id, p: PlanJson, order: seq<Id>, fs: seq<JsonFloor>,
                                              out: PlanJson)
    requires Valid(db) && (forall f :: f in order ==> f in db.floors) && out == NumberedPlan(db, c, p, fs, order)
    requires forall x :: x in FloorIdsOf(fs) + ZoneIdsOf(p.forecourt) <==> x in PlanIds(p) || IsOrphan(db, c, x)
    requires forall x :: x in PlanRows(c, out) <==> x in PlanIds(out)
    requires forall x :: x in PlanRows(c, out) ==> PlacedIn(c, out, x, PlanRows(c, out)[x].place)
    ensures Prepared(db, c, p, out, NextElement(db, c, p, fs))
  {
    ExistingBelow(db, c);
    NumberedPlanIds(db, c, p, order, fs, Existing(db, c), out);
    IdsPrepared(db, c, p, out, FloorIdsOf(fs) + ZoneIdsOf(p.forecourt), NextElement(db, c, p, fs));
  }

  lemma {:induction false} IdsPrepared(db: Db, c: Id, p: PlanJson, out: PlanJson, ids: seq<Id>, hiE: Id)
    requires Valid(db) && Renumbered(PlanIds(out), ids, Existing(db, c), db.nextElement, hiE)
    requires forall x :: x in ids <==> x in PlanIds(p) || IsOrphan(db, c, x)
    requires forall x :: x in PlanRows(c, out) <==> x in PlanIds(out)
    requires forall x :: x in PlanRows(c, out) ==> PlacedIn(c, out, x, PlanRows(c, out)[x].place)
    ensures Prepared(db, c, p, out, hiE)
  {
    RenumberedMembers(PlanIds(out), ids, Existing(db, c), db.nextElement, hiE);
  }

  // ----- The rows afterwards ------------------------------------------------------------------

  lemma {:induction false} NoneCascades(db: Db, c: Id, p: PlanJson, out: PlanJson, hiE: Id)
    requires Prepared(db, c, p, out, hiE)
    ensures Cascaded(db, c, out) == {}
  {
  }

  /** Deleting the unlisted floor rows takes no further element with it. */
  lemma {:induction false} NothingCascades(db: Db, c: Id, p: PlanJson, q: Query)
    requires SaveReady(db, c, q)
    ensures Cascaded(db, c, SavedPlan(db, c, p, q)) == {}
  {
    SaveIsPrepared(db, c, p, q);
    NoneCascades(db, c, p, SavedPlan(db, c, p, q), NextElement(db, c, p, SavedFloors(db, p, q.scan)));
  }

  /** Every element row after the save: those of the plan, and the old ones it did not prune. */
  ghost predicate ElementsAfter(db: Db, c: Id, out: PlanJson, elements: map<Id, ElementRow>) {
    && (forall e :: e in elements <==>
          e in PlanRows(c, out) || (e in db.elements && (e in Existing(db, c) ==> e in Mapped(db))))
    && (forall e :: e in PlanRows(c, out) ==> elements[e] == PlanRows(c, out)[e])
    && (forall e :: e in elements && e !in PlanRows(c, out) ==> elements[e] == db.elements[e])
  }

  lemma {:induction false} SaveElements(db: Db, c: Id, p: PlanJson, q: Query)
    requires SaveReady(db, c, q)
    ensures ElementsAfter(db, c, SavedPlan(db, c, p, q), SaveInto(db, c, p, q).db.elements)
  {
    var out := SavedPlan(db, c, p, q);
    SaveIsPrepared(db, c, p, q);
    NoneCascades(db, c, p, out, NextElement(db, c, p, SavedFloors(db, p, q.scan)));
    RowsAfterFacts(db, c, out);
    WithoutNothing(RowsAfter(db, c, out));
  }

  lemma {:induction false} RowsAfterFacts(db: Db, c: Id, out: PlanJson)
    ensures ElementsAfter(db, c, out, RowsAfter(db, c, out))
  {
  }

  lemma {:induction false} WithoutNothing(m: map<Id, ElementRow>)
    ensures m - {} == m
  {
  }

  /** Every floor row after the save. */
  ghost predicate FloorsAfter(db: Db, c: Id, out: PlanJson, after: Db, hiF: Id) {
    && hiF >= db.nextFloor
    && (forall f :: f in TargetSet(out.floors) ==> f in FloorsOf(db, c) || db.nextFloor <= f < hiF)
    && (forall f :: f in after.floors <==> f in TargetSet(out.floors) || (f in db.floors && f !in Dropped(db, c, out)))
    && (forall f :: f in TargetSet(out.floors) ==>
          f in FloorRows(c, out.floors) && after.floors[f] == FloorRows(c, out.floors)[f])
    && (forall f :: f in TargetSet(out.floors) ==> after.floors[f].config == c)
    && (forall f :: f in after.floors && f !in TargetSet(out.floors) ==> after.floors[f] == db.floors[f])
  }

  lemma {:induction false} SaveFloors(db: Db, c: Id, p: PlanJson, q: Query)
    requires SaveReady(db, c, q)
    ensures var saved := SaveInto(db, c, p, q);
            FloorsAfter(db, c, saved.plan, saved.db, NextFloor(db, SavedFloors(db, p, q.scan), q.order))
  {
    SavedFloorsShape(db, c, p, q);
    FloorRowsFacts(c, SavedPlan(db, c, p, q).floors);
  }

  /**
   The floor rows of the configuration are afterwards those the returned JSON floors name, and the
   unlisted ones that held a mapped element.
   */
  lemma {:induction false} FloorRowsExactly(db: Db, c: Id, p: PlanJson, q: Query)
    requires SaveReady(db, c, q)
    ensures var saved := SaveInto(db, c, p, q);
            forall f :: f in FloorsOf(saved.db, c) <==>
              f in TargetSet(saved.plan.floors) || (f in FloorsOf(db, c) && OnFloors(db, {f}) * Mapped(db) != {})
  {
    SaveFloors(db, c, p, q);
    RowsLeft(db, c, SavedPlan(db, c, p, q), SaveInto(db, c, p, q).db,
             NextFloor(db, SavedFloors(db, p, q.scan), q.order));
  }

  lemma {:induction false} RowsLeft(db: Db, c: Id, out: PlanJson, after: Db, hiF: Id)
    requires FloorsAfter(db, c, out, after, hiF)
    ensures forall f :: f in FloorsOf(after, c) <==>
              f in TargetSet(out.floors) || (f in FloorsOf(db, c) && OnFloors(db, {f}) * Mapped(db) != {})
  {
  }

  /** Every forecourt row after the save. */
  ghost predicate ZonesAfter(db: Db, c: Id, p: PlanJson, after: Db) {
    && after.nextZone >= db.nextZone
    && (forall d :: d in after.forecourts <==> d in db.forecourts || (p.forecourt.Some? && d == c))
    && (forall d :: d in db.forecourts && (d != c || p.forecourt.None?) ==> after.forecourts[d] == db.forecourts[d])
    && (p.forecourt.Some? ==> after.forecourts[c].id == ForecourtId(db, c) && ForecourtId(db, c) < after.nextZone)
  }

  lemma {:induction false} SaveZones(db: Db, c: Id, p: PlanJson, q: Query)
    requires SaveReady(db, c, q)
    ensures ZonesAfter(db, c, p, SaveInto(db, c, p, q).db)
  {
  }

  // ----- Deletions ----------------------------------------------------------------------------

  /** What one save deletes: exactly the unmapped elements of the configuration that the payload leaves out. */
  lemma {:induction false} DeletedExactly(db: Db, c: Id, p: PlanJson, q: Query, e: Id)
    requires SaveReady(db, c, q)
    ensures var after := SaveInto(db, c, p, q).db;
            (e in db.elements && e !in after.elements) <==>
                (e in Existing(db, c) && e !in PlanIds(p) && e !in Mapped(db))
  {
    SaveIsPrepared(db, c, p, q);
    SaveElements(db, c, p, q);
    DeletedFrom(db, c, p, SavedPlan(db, c, p, q), SaveInto(db, c, p, q).db.elements,
                NextElement(db, c, p, SavedFloors(db, p, q.scan)), e);
  }

  lemma {:induction false} DeletedFrom(db: Db, c: Id, p: PlanJson, out: PlanJson, elements: map<Id, ElementRow>,
                                       hiE: Id, e: Id)
    requires Prepared(db, c, p, out, hiE) && ElementsAfter(db, c, out, elements)
    ensures (e in db.elements && e !in elements) <==> (e in Existing(db, c) && e !in PlanIds(p) && e !in Mapped(db))
  {
  }

  /** A save leaves no mapping dangling. */
  lemma {:induction false} SaveKeepsMappings(db: Db, c: Id, p: PlanJson, q: Query)
    requires SaveReady(db, c, q) && MappingsSound(db)
    ensures MappingsSound(SaveInto(db, c, p, q).db)
  {
    forall l | l in db.mappings ensures db.mappings[l] in SaveInto(db, c, p, q).db.elements {
      DeletedExactly(db, c, p, q, db.mappings[l]);
      assert db.mappings[l] in Mapped(db);
    }
  }

  /** The menu assignments of every element that stays are the ones it had: there is nothing to restore. */
  lemma {:induction false} SaveKeepsMenus(db: Db, c: Id, p: PlanJson, q: Query, e: Id, m: Id)
    requires SaveReady(db, c, q)
    ensures var after := SaveInto(db, c, p, q).db;
            && ((e, m) in after.menus <==>
                  (e, m) in db.menus && (e in Existing(db, c) ==> e in PlanIds(p) || e in Mapped(db)))
            && ((e, m) in after.menus ==> after.menus[(e, m)] == db.menus[(e, m)])
  {
    DeletedExactly(db, c, p, q, e);
  }

  // ----- Integrity ----------------------------------------------------------------------------

  lemma {:induction false} PlacesKept(db: Db, c: Id, p: PlanJson, out: PlanJson, after: Db, hiF: Id, hiE: Id, e: Id)
    requires Prepared(db, c, p, out, hiE) && ElementsAfter(db, c, out, after.elements)
             && FloorsAfter(db, c, out, after, hiF)
    requires ZonesAfter(db, c, p, after) && (out.forecourt.Some? ==> p.forecourt.Some?) && after.merches == db.merches
    requires e in after.elements
    ensures PlaceExists(after, after.elements[e].place) && e < hiE
  {
    if e in PlanRows(c, out) {
      assert PlacedIn(c, out, e, PlanRows(c, out)[e].place);
      ExistingBelow(db, c);
    } else {
      assert PlaceExists(db, db.elements[e].place);
      if db.elements[e].place.OnFloor? {
        var f := db.elements[e].place.floor;
        assert e in OnFloors(db, {f}) && (f in FloorsOf(db, c) ==> e in OnFloors(db, FloorsOf(db, c)));
      }
    }
  }

  lemma {:induction false} SaveKeepsValid(db: Db, c: Id, p: PlanJson, q: Query)
    requires SaveReady(db, c, q) && !ForecourtClash(db, c, p)
    ensures Valid(SaveInto(db, c, p, q).db)
  {
    SavedElementsValid(db, c, p, q);
    SavedFloorsValid(db, c, p, q);
    SavedForecourtsValid(db, c, p, q);
  }

  lemma {:induction false} SavedElementsValid(db: Db, c: Id, p: PlanJson, q: Query)
    requires SaveReady(db, c, q)
    ensures var after := SaveInto(db, c, p, q).db;
            forall e :: e in after.elements ==> PlaceExists(after, after.elements[e].place) && e < after.nextElement
  {
    var fs := SavedFloors(db, p, q.scan);
    SaveIsPrepared(db, c, p, q);
    SaveElements(db, c, p, q);
    SaveFloors(db, c, p, q);
    SaveZones(db, c, p, q);
    SavedZoneShape(db, c, p, q);
    ElementsStayValid(db, c, p, SavedPlan(db, c, p, q), SaveInto(db, c, p, q).db, NextFloor(db, fs, q.order),
                      NextElement(db, c, p, fs));
  }

  lemma {:induction false} SavedFloorsValid(db: Db, c: Id, p: PlanJson, q: Query)
    requires SaveReady(db, c, q)
    ensures var after := SaveInto(db, c, p, q).db;
            forall f :: f in after.floors ==> after.floors[f].config in after.configs && f < after.nextFloor
  {
    SaveFloors(db, c, p, q);
    FloorsStayValid(db, c, SavedPlan(db, c, p, q), SaveInto(db, c, p, q).db,
                    NextFloor(db, SavedFloors(db, p, q.scan), q.order));
  }

  lemma {:induction false} SavedForecourtsValid(db: Db, c: Id, p: PlanJson, q: Query)
    requires SaveReady(db, c, q)
    ensures var after := SaveInto(db, c, p, q).db;
            after.nextZone >= db.nextZone &&
            forall d :: d in after.forecourts ==> d in after.configs && after.forecourts[d].id < after.nextZone
  {
  }

  lemma {:induction false} ElementsStayValid(db: Db, c: Id, p: PlanJson, out: PlanJson, after: Db, hiF: Id, hiE: Id)
    requires Prepared(db, c, p, out, hiE) && ElementsAfter(db, c, out, after.elements)
             && FloorsAfter(db, c, out, after, hiF)
    requires ZonesAfter(db, c, p, after) && (out.forecourt.Some? ==> p.forecourt.Some?) && after.merches == db.merches
    ensures forall e :: e in after.elements ==> PlaceExists(after, after.elements[e].place) && e < hiE
  {
    forall e | e in after.elements ensures PlaceExists(after, after.elements[e].place) && e < hiE {
      PlacesKept(db, c, p, out, after, hiF, hiE, e);
    }
  }

  lemma {:induction false} FloorsStayValid(db: Db, c: Id, out: PlanJson, after: Db, hiF: Id)
    requires Valid(db) && c in db.configs && FloorsAfter(db, c, out, after, hiF)
    ensures forall f :: f in after.floors ==> after.floors[f].config in db.configs && f < hiF
  {
  }

  // ----- Where every element is afterwards ----------------------------------------------------

  /** The returned JSON floors and the rows agree element by element. */
  ghost predicate HomesAgree(c: Id, out: PlanJson)
  {
    && (forall e :: e in FloorIdsOf(out.floors) ==>
          e in PlanRows(c, out) && e in FloorElementRows(out.floors)
              && PlanRows(c, out)[e] == FloorElementRows(out.floors)[e]
          && PlanRows(c, out)[e].place.OnFloor? && PlanRows(c, out)[e].place.floor in TargetSet(out.floors))
    && (forall e :: e in ZoneIdsOf(out.forecourt) ==>
          out.forecourt.Some? && e in PlanRows(c, out) && PlanRows(c, out)[e].place == OnForecourt(c))
  }

  lemma {:induction false} DistinctHomesAgree(db: Db, c: Id, p: PlanJson, q: Query)
    requires SaveReady(db, c, q) && DistinctAmong(PlanIds(p), Existing(db, c))
    ensures HomesAgree(c, SavedPlan(db, c, p, q))
  {
    SavedDistinct(db, c, p, q);
    SavedFloorsShape(db, c, p, q);
    HomesOf(c, SavedPlan(db, c, p, q));
  }

  lemma {:induction false} HomesOf(c: Id, out: PlanJson)
    requires Distinct(PlanIds(out))
    requires forall i :: 0 <= i < |out.floors| ==> out.floors[i].id.Some?
    ensures HomesAgree(c, out)
  {
    DistinctConcat(FloorIdsOf(out.floors), ZoneIdsOf(out.forecourt));
    FloorElementRowsFacts(out.floors);
    if out.forecourt.Some? {
      ElementRowsFacts(OnForecourt(c), out.forecourt.value.elements);
    }
  }

  /**
   With distinct known ids in the payload, the elements on the configuration's floors are afterwards
   exactly the ids in the returned JSON floors.
   */
  lemma {:induction false} FloorElementsExactly(db: Db, c: Id, p: PlanJson, q: Query)
    requires SaveReady(db, c, q) && DistinctAmong(PlanIds(p), Existing(db, c))
    ensures var saved := SaveInto(db, c, p, q);
            forall e :: e in OnFloors(saved.db, FloorsOf(saved.db, c)) <==> e in FloorIdsOf(saved.plan.floors)
  {
    var out, fs := SavedPlan(db, c, p, q), SavedFloors(db, p, q.scan);
    var after := SaveInto(db, c, p, q).db;
    SaveIsPrepared(db, c, p, q);
    SaveElements(db, c, p, q);
    SaveFloors(db, c, p, q);
    DistinctHomesAgree(db, c, p, q);
    forall e ensures e in OnFloors(after, FloorsOf(after, c)) <==> e in FloorIdsOf(out.floors) {
      OnFloorsAfter(db, c, p, out, after, NextFloor(db, fs, q.order), NextElement(db, c, p, fs), e);
    }
  }

  lemma {:induction false} OnFloorsAfter(db: Db, c: Id, p: PlanJson, out: PlanJson, after: Db, hiF: Id, hiE: Id, e: Id)
    requires Prepared(db, c, p, out, hiE) && ElementsAfter(db, c, out, after.elements)
             && FloorsAfter(db, c, out, after, hiF)
    requires HomesAgree(c, out)
    ensures e in OnFloors(after, FloorsOf(after, c)) <==> e in FloorIdsOf(out.floors)
  {
    if e in PlanRows(c, out) {
      assert PlacedIn(c, out, e, PlanRows(c, out)[e].place);
    } else if e in after.elements {
      assert PlaceExists(db, db.elements[e].place);
      if db.elements[e].place.OnFloor? && db.elements[e].place.floor in FloorsOf(after, c) {
        assert e in OnFloors(db, FloorsOf(db, c)) && e in Existing(db, c) && e in Mapped(db);
        assert IsOrphan(db, c, e);
      }
    }
  }

  /**
   Each element of the returned JSON floors is on the row its floor names, with the attributes
   given there; and it has kept its id if it was an element of the configuration.
   */
  lemma {:induction false} FloorElementPlaced(db: Db, c: Id, p: PlanJson, q: Query, i: nat, k: nat)
    requires SaveReady(db, c, q) && DistinctAmong(PlanIds(p), Existing(db, c))
    requires i < |SavedFloors(db, p, q.scan)| && k < |SavedFloors(db, p, q.scan)[i].elements|
    ensures var saved, given := SaveInto(db, c, p, q), SavedFloors(db, p, q.scan)[i];
            && i < |saved.plan.floors| && k < |saved.plan.floors[i].elements|
            && Placed(db, c, saved.db, saved.plan.floors[i], saved.plan.floors[i].elements[k], given.elements[k])
  {
    var saved, fs := SaveInto(db, c, p, q), SavedFloors(db, p, q.scan);
    SaveIsPrepared(db, c, p, q);
    SavedDistinct(db, c, p, q);
    SavedFloorsShape(db, c, p, q);
    SavedPlanParts(db, c, p, q);
    SaveElements(db, c, p, q);
    SaveFloors(db, c, p, q);
    DistinctHomesAgree(db, c, p, q);
    DistinctConcat(FloorIdsOf(saved.plan.floors), ZoneIdsOf(saved.plan.forecourt));
    PlacedFrom(db, c, saved.plan, saved.db, NextFloor(db, fs, q.order), fs,
               Targets(fs, q.order, db.floors, db.nextFloor), i, k);
  }

  lemma {:induction false} PlacedFrom(db: Db, c: Id, out: PlanJson, after: Db, hiF: Id, fs: seq<JsonFloor>,
                                      targets: seq<Id>, i: nat, k: nat)
    requires Valid(db) && ElementsAfter(db, c, out, after.elements) && FloorsAfter(db, c, out, after, hiF)
             && HomesAgree(c, out)
    requires |targets| == |fs| && out.floors == NumberedFloors(fs, targets, Existing(db, c), db.nextElement)
             && Distinct(FloorIdsOf(out.floors))
    requires i < |fs| && k < |fs[i].elements|
    ensures k < |out.floors[i].elements|
            && Placed(db, c, after, out.floors[i], out.floors[i].elements[k], fs[i].elements[k])
  {
    NumberedFloorsFacts(fs, targets, Existing(db, c), db.nextElement);
    GivenElement(fs, targets, Existing(db, c), db.nextElement, i, k);
    forall j | 0 <= j < |fs| ensures out.floors[j].id.Some? {
      assert WrittenBack(out.floors[j], fs[j], targets[j]);
    }
    RowOfElement(db, c, out, after, hiF, i, k);
  }

  lemma {:induction false} RowOfElement(db: Db, c: Id, out: PlanJson, after: Db, hiF: Id, i: nat, k: nat)
    requires Valid(db) && ElementsAfter(db, c, out, after.elements) && FloorsAfter(db, c, out, after, hiF)
             && HomesAgree(c, out)
    requires forall j :: 0 <= j < |out.floors| ==> out.floors[j].id.Some?
    requires i < |out.floors| && k < |out.floors[i].elements| && out.floors[i].elements[k].id.Some?
             && Distinct(FloorIdsOf(out.floors))
    ensures var f, e := out.floors[i], out.floors[i].elements[k];
            && f.id.value in FloorsOf(after, c) && e.id.value in after.elements
            && after.elements[e.id.value] == ElementRow(OnFloor(f.id.value), e.body)
  {
    FloorElementAt(out.floors, i, k);
    IdsAt(out.floors[i].elements, out.floors[i].elements[k].id.value);
    FloorIdsAt(out.floors, out.floors[i].elements[k].id.value);
    assert out.floors[i] in out.floors;
  }

  lemma {:induction false} GivenElement(fs: seq<JsonFloor>, targets: seq<Id>, existing: set<Id>, next: Id, i: nat,
                                        k: nat)
    requires |targets| == |fs| && i < |fs| && k < |fs[i].elements|
    ensures var els := NumberedFloors(fs, targets, existing, next)[i].elements;
            && |els| == |fs[i].elements| && els[k].id.Some? && els[k].body == fs[i].elements[k].body
            && if Known(fs[i].elements[k], existing) then els[k].id == fs[i].elements[k].id else els[k].id.value >= next
  {
    var lo := next + NewInFloors(fs[..i], existing);
    NumberedFloorElements(fs, targets, existing, next, i);
    NumberedAll(fs[i].elements, existing, lo);
    NumberedNew(fs[i].elements, existing, lo, k);
  }

  /** `e` of the returned floor `f` stands for `given`: on the row `f` names, under its old id if it had one here. */
  ghost predicate Placed(db: Db, c: Id, after: Db, f: JsonFloor, e: JsonElement, given: JsonElement) {
    && f.id.Some? && f.id.value in FloorsOf(after, c)
    && e.id.Some? && e.id.value in after.elements
    && after.elements[e.id.value] == ElementRow(OnFloor(f.id.value), given.body)
    && if Known(given, Existing(db, c)) then e.id == given.id else e.id.value >= db.nextElement
  }

  lemma {:induction false} NumberedFloorElements(fs: seq<JsonFloor>, targets: seq<Id>, existing: set<Id>, next: Id,
                                                 i: nat)
    requires |targets| == |fs| && i < |fs|
    ensures NumberedFloors(fs, targets, existing, next)[i].elements
            == Numbered(fs[i].elements, existing, next + NewInFloors(fs[..i], existing))
  {
    var n := |fs| - 1;
    var out := NumberedFloors(fs, targets, existing, next);
    assert out[..n] == NumberedFloors(fs[..n], targets[..n], existing, next);
    if i < n {
      NumberedFloorElements(fs[..n], targets[..n], existing, next, i);
      assert fs[..n][..i] == fs[..i] && out[i] == out[..n][i];
    }
  }

  lemma {:induction false} NumberedNew(els: seq<JsonElement>, existing: set<Id>, next: Id, k: nat)
    requires k < |els|
    ensures !Known(els[k], existing) ==> Numbered(els, existing, next)[k].id.GetOr(0) >= next
  {
    if k < |els| - 1 {
      NumberedNew(els[..|els| - 1], existing, next, k);
    }
  }

  /**
   With distinct known ids, the elements in the configuration's forecourt are its JSON elements and the
   mapped ones it left out.
   */
  lemma {:induction false} ForecourtElementsExactly(db: Db, c: Id, p: PlanJson, q: Query)
    requires SaveReady(db, c, q) && DistinctAmong(PlanIds(p), Existing(db, c))
    ensures var saved := SaveInto(db, c, p, q);
            forall e :: e in InForecourt(saved.db, c) <==>
              e in ZoneIdsOf(saved.plan.forecourt) || LeftInForecourt(db, c, p, e)
  {
    var out, fs := SavedPlan(db, c, p, q), SavedFloors(db, p, q.scan);
    var after := SaveInto(db, c, p, q).db;
    SaveIsPrepared(db, c, p, q);
    SaveElements(db, c, p, q);
    SaveZones(db, c, p, q);
    SavedZoneShape(db, c, p, q);
    DistinctHomesAgree(db, c, p, q);
    forall e ensures e in InForecourt(after, c) <==> e in ZoneIdsOf(out.forecourt) || LeftInForecourt(db, c, p, e) {
      OnForecourtAfter(db, c, p, out, after, NextElement(db, c, p, fs), e);
    }
  }

  /** A mapped element of the forecourt that the payload does not mention at all. */
  ghost predicate LeftInForecourt(db: Db, c: Id, p: PlanJson, e: Id) {
    e in InForecourt(db, c) && e in Mapped(db) && e !in PlanIds(p)
  }

  lemma {:induction false} OnForecourtAfter(db: Db, c: Id, p: PlanJson, out: PlanJson, after: Db, hiE: Id, e: Id)
    requires Prepared(db, c, p, out, hiE) && ElementsAfter(db, c, out, after.elements) && ZonesAfter(db, c, p, after)
    requires HomesAgree(c, out) && (out.forecourt.Some? ==> p.forecourt.Some?)
    ensures e in InForecourt(after, c) <==> e in ZoneIdsOf(out.forecourt) || LeftInForecourt(db, c, p, e)
  {
    if e in PlanRows(c, out) {
      assert PlacedIn(c, out, e, PlanRows(c, out)[e].place);
    } else if e in after.elements {
      assert PlaceExists(db, db.elements[e].place);
    }
  }

  // ----- Other configurations -----------------------------------------------------------------

  /** Configuration `d`, its floors, its forecourt and its elements, with their rows, are as they were. */
  ghost predicate Untouched(db: Db, after: Db, d: Id) {
    && (d in after.configs <==> d in db.configs)
        && (d in db.configs && d in after.configs ==> after.configs[d] == db.configs[d])
    && FloorsOf(after, d) == FloorsOf(db, d)
    && (forall f :: f in FloorsOf(db, d) ==> f in after.floors && f in db.floors && after.floors[f] == db.floors[f])
    && (d in after.forecourts <==> d in db.forecourts)
        && (d in db.forecourts && d in after.forecourts ==> after.forecourts[d] == db.forecourts[d])
    && Existing(after, d) == Existing(db, d)
    && forall e :: e in Existing(db, d) ==>
          e in after.elements && e in db.elements && after.elements[e] == db.elements[e]
  }

  /** Nothing of any other configuration is touched. */
  lemma {:induction false} OtherConfigsUntouched(db: Db, c: Id, p: PlanJson, q: Query, d: Id)
    requires SaveReady(db, c, q) && d != c
    ensures Untouched(db, SaveInto(db, c, p, q).db, d)
  {
    var out, fs := SavedPlan(db, c, p, q), SavedFloors(db, p, q.scan);
    SaveIsPrepared(db, c, p, q);
    SaveElements(db, c, p, q);
    SaveFloors(db, c, p, q);
    SaveZones(db, c, p, q);
    OthersUntouched(db, c, p, out, SaveInto(db, c, p, q).db, NextFloor(db, fs, q.order), NextElement(db, c, p, fs), d);
  }

  lemma {:induction false} OthersUntouched(db: Db, c: Id, p: PlanJson, out: PlanJson, after: Db, hiF: Id, hiE: Id,
                                           d: Id)
    requires Prepared(db, c, p, out, hiE) && ElementsAfter(db, c, out, after.elements)
             && FloorsAfter(db, c, out, after, hiF)
    requires ZonesAfter(db, c, p, after) && d != c
    requires d in after.configs <==> d in db.configs
    requires d in db.configs ==> after.configs[d] == db.configs[d]
    ensures Untouched(db, after, d)
  {
    OtherFloors(db, c, out, after, hiF, d);
    OtherElements(db, c, p, out, after, hiE, d);
  }

  lemma {:induction false} OtherElements(db: Db, c: Id, p: PlanJson, out: PlanJson, after: Db, hiE: Id, d: Id)
    requires Prepared(db, c, p, out, hiE) && ElementsAfter(db, c, out, after.elements) && d != c
    requires FloorsOf(after, d) == FloorsOf(db, d) && FloorsOf(db, d) !! FloorsOf(db, c)
    requires forall f :: f in TargetSet(out.floors) ==> f !in FloorsOf(after, d)
    ensures Existing(after, d) == Existing(db, d)
    ensures forall e :: e in Existing(db, d) ==>
                e in after.elements && e in db.elements && after.elements[e] == db.elements[e]
  {
    forall e ensures SameElsewhere(db, after, d, e) {
      if e in PlanRows(c, out) {
        PlanRowElsewhere(db, c, p, out, after, hiE, d, e);
      }
      OtherElement(db, c, out, after, d, e);
    }
    AllSameElsewhere(db, after, d);
  }

  lemma {:induction false} AllSameElsewhere(db: Db, after: Db, d: Id)
    requires forall e :: SameElsewhere(db, after, d, e)
    ensures Existing(after, d) == Existing(db, d)
    ensures forall e :: e in Existing(db, d) ==> after.elements[e] == db.elements[e]
  {
    forall e ensures e in Existing(after, d) <==> e in Existing(db, d)
             ensures e in Existing(db, d) ==> e in after.elements && after.elements[e] == db.elements[e]
    {
      assert SameElsewhere(db, after, d, e);
    }
  }

  ghost predicate SameElsewhere(db: Db, after: Db, d: Id, e: Id) {
    (e in Existing(after, d) <==> e in Existing(db, d))
        && (e in Existing(db, d) ==> e in after.elements && after.elements[e] == db.elements[e])
  }

  /** A row of the saved plan is nowhere in another configuration, before or after. */
  lemma {:induction false} PlanRowElsewhere(db: Db, c: Id, p: PlanJson, out: PlanJson, after: Db, hiE: Id, d: Id, e: Id)
    requires Prepared(db, c, p, out, hiE) && e in PlanRows(c, out) && ElementsAfter(db, c, out, after.elements)
    requires forall f :: f in TargetSet(out.floors) ==> f !in FloorsOf(after, d)
    requires d != c
    ensures e !in Existing(after, d) && e !in Existing(db, d)
  {
    assert PlacedIn(c, out, e, PlanRows(c, out)[e].place);
    ExistingApart(db, c, d, e);
    ExistingBelow(db, d);
  }

  lemma {:induction false} ExistingApart(db: Db, c: Id, d: Id, e: Id)
    requires d != c
    ensures e in Existing(db, c) ==> e !in Existing(db, d)
  {
  }

  lemma {:induction false} OtherFloors(db: Db, c: Id, out: PlanJson, after: Db, hiF: Id, d: Id)
    requires Valid(db) && FloorsAfter(db, c, out, after, hiF) && d != c
    ensures FloorsOf(after, d) == FloorsOf(db, d) && FloorsOf(db, d) !! FloorsOf(db, c)
    ensures forall f :: f in TargetSet(out.floors) ==> f !in FloorsOf(after, d)
    ensures forall f :: f in FloorsOf(db, d) ==> f in after.floors && f in db.floors && after.floors[f] == db.floors[f]
  {
  }

  lemma {:induction false} OtherElement(db: Db, c: Id, out: PlanJson, after: Db, d: Id, e: Id)
    requires ElementsAfter(db, c, out, after.elements)
    requires FloorsOf(after, d) == FloorsOf(db, d) && d != c
    requires e in PlanRows(c, out) ==> e !in Existing(after, d) && e !in Existing(db, d)
    ensures SameElsewhere(db, after, d, e)
  {
  }
}
