/**
 What a save makes of each part of its payload, read off the tables and the returned plan alone: which row
 every floor becomes and with what, where every element is stored and with which attributes, and how the
 mapped elements that were left out are put back.
 */
module FloorPlanSaveDetails {
  import opened Common
  import opened FloorPlan
  import opened FloorPlanSave
  import opened FloorPlanGuarantees
  import opened FloorPlanCollapse
  import opened FloorPlanSaveAgreement

  // ----- An element listed once is stored as it is listed ------------------------------------------------

  lemma {:induction false} SingleElementRow(place: Place, els: seq<JsonElement>, k: nat)
    requires k < |els| && els[k].id.Some? && Count(IdsOf(els), els[k].id.value) <= 1
    ensures var x := els[k].id.value;
            x in ElementRows(place, els) && ElementRows(place, els)[x] == ElementRow(place, els[k].body)
  {
    var n, x := |els| - 1, els[k].id.value;
    if k < n {
      NotListedLast(els, k);
      SingleElementRow(place, els[..n], k);
      RowNotLast(place, els, x);
    }
  }

  lemma {:induction false} NotListedLast(els: seq<JsonElement>, k: nat)
    requires k < |els| - 1 && els[k].id.Some? && Count(IdsOf(els), els[k].id.value) <= 1
    ensures els[..|els| - 1][k] == els[k] && els[|els| - 1].id != els[k].id
    ensures Count(IdsOf(els[..|els| - 1]), els[k].id.value) <= 1
  {
    var n, x := |els| - 1, els[k].id.value;
    assert els[..n][k] == els[k];
    IdsAt(els[..n], x);
    CountTogether(IdsOf(els), IdsOf(els[..n]), if els[n].id.Some? then [els[n].id.value] else [], x);
  }

  lemma {:induction false} RowNotLast(place: Place, els: seq<JsonElement>, x: Id)
    requires els != [] && els[|els| - 1].id != Some(x) && x in ElementRows(place, els[..|els| - 1])
    ensures x in ElementRows(place, els) && ElementRows(place, els)[x] == ElementRows(place, els[..|els| - 1])[x]
  {
  }

  lemma {:induction false} SingleFloorRow(fs: seq<JsonFloor>, i: nat, k: nat)
    requires forall j :: 0 <= j < |fs| ==> fs[j].id.Some?
    requires i < |fs| && k < |fs[i].elements| && fs[i].elements[k].id.Some?
    requires Count(FloorIdsOf(fs), fs[i].elements[k].id.value) <= 1
    ensures var el := fs[i].elements[k];
            && el.id.value in FloorElementRows(fs)
            && FloorElementRows(fs)[el.id.value] == ElementRow(OnFloor(fs[i].id.value), el.body)
  {
    var n, x := |fs| - 1, fs[i].elements[k].id.value;
    IdsAt(fs[i].elements, x);
    LastListing(fs, i, x);
    if i < n {
      SingleFloorRow(fs[..n], i, k);
    } else {
      SingleElementRow(OnFloor(fs[n].id.value), fs[n].elements, k);
    }
    LastRows(fs, x);
  }

  /** Listed once, an id is in the last floor or before it. */
  lemma {:induction false} LastListing(fs: seq<JsonFloor>, i: nat, x: Id)
    requires i < |fs| && x in IdsOf(fs[i].elements) && Count(FloorIdsOf(fs), x) <= 1
    ensures Count(FloorIdsOf(fs[..|fs| - 1]), x) <= 1 && Count(IdsOf(fs[|fs| - 1].elements), x) <= 1
    ensures i < |fs| - 1 ==> fs[..|fs| - 1][i] == fs[i] && x !in IdsOf(fs[|fs| - 1].elements)
  {
    var n := |fs| - 1;
    CountTogether(FloorIdsOf(fs), FloorIdsOf(fs[..n]), IdsOf(fs[n].elements), x);
    if i < n {
      assert fs[..n][i] == fs[i];
      FloorIdsAt(fs[..n], x);
    }
  }

  lemma {:induction false} LastRows(fs: seq<JsonFloor>, x: Id)
    requires fs != [] && fs[|fs| - 1].id.Some?
    ensures var before, last := FloorElementRows(fs[..|fs| - 1]),
                                ElementRows(OnFloor(fs[|fs| - 1].id.value), fs[|fs| - 1].elements);
            && (x in IdsOf(fs[|fs| - 1].elements) ==>
                  x in last && x in FloorElementRows(fs) && FloorElementRows(fs)[x] == last[x])
            && (x !in IdsOf(fs[|fs| - 1].elements) && x in before ==>
                  x in FloorElementRows(fs) && FloorElementRows(fs)[x] == before[x])
  {
    ElementRowsFacts(OnFloor(fs[|fs| - 1].id.value), fs[|fs| - 1].elements);
  }

  lemma {:induction false} ListedOnceOnFloor(c: Id, out: PlanJson, i: nat, k: nat)
    requires forall j :: 0 <= j < |out.floors| ==> out.floors[j].id.Some?
    requires i < |out.floors| && k < |out.floors[i].elements| && out.floors[i].elements[k].id.Some?
    requires Count(PlanIds(out), out.floors[i].elements[k].id.value) <= 1
    ensures var el := out.floors[i].elements[k];
            && el.id.value in PlanRows(c, out)
            && PlanRows(c, out)[el.id.value] == ElementRow(OnFloor(out.floors[i].id.value), el.body)
  {
    var x := out.floors[i].elements[k].id.value;
    CountTogether(PlanIds(out), FloorIdsOf(out.floors), ZoneIdsOf(out.forecourt), x);
    IdsAt(out.floors[i].elements, x);
    FloorIdsAt(out.floors, x);
    SingleFloorRow(out.floors, i, k);
    if out.forecourt.Some? {
      ElementRowsFacts(OnForecourt(c), out.forecourt.value.elements);
    }
  }

  lemma {:induction false} ListedOnceInForecourt(c: Id, out: PlanJson, k: nat)
    requires out.forecourt.Some? && k < |out.forecourt.value.elements|
    requires out.forecourt.value.elements[k].id.Some?
    requires Count(PlanIds(out), out.forecourt.value.elements[k].id.value) <= 1
    ensures var el := out.forecourt.value.elements[k];
            el.id.value in PlanRows(c, out) && PlanRows(c, out)[el.id.value] == ElementRow(OnForecourt(c), el.body)
  {
    var els, x := out.forecourt.value.elements, out.forecourt.value.elements[k].id.value;
    CountTogether(PlanIds(out), FloorIdsOf(out.floors), ZoneIdsOf(out.forecourt), x);
    SingleElementRow(OnForecourt(c), els, k);
  }

  /** Each element of the returned plan that it lists once is stored where and as it is listed. */
  lemma {:induction false} ReturnedIsStored(db: Db, c: Id, p: PlanJson, q: Query)
    requires SaveReady(db, c, q)
    ensures var s := SaveInto(db, c, p, q);
            && (forall i, k :: 0 <= i < |s.plan.floors| && 0 <= k < |s.plan.floors[i].elements| ==>
                  StoredAs(s.db, s.plan, s.plan.floors[i].elements[k], OnFloor(s.plan.floors[i].id.GetOr(0))))
            && (s.plan.forecourt.Some? ==> forall k :: 0 <= k < |s.plan.forecourt.value.elements| ==>
                  StoredAs(s.db, s.plan, s.plan.forecourt.value.elements[k], OnForecourt(c)))
  {
    SavedFloorsShape(db, c, p, q);
    SavedZoneShape(db, c, p, q);
    SaveElements(db, c, p, q);
    ListedIsStored(db, c, SavedPlan(db, c, p, q), SaveInto(db, c, p, q).db);
  }

  lemma {:induction false} ListedIsStored(db: Db, c: Id, out: PlanJson, after: Db)
    requires ElementsAfter(db, c, out, after.elements)
    requires forall i :: 0 <= i < |out.floors| ==> out.floors[i].id.Some? && AllNumbered(out.floors[i].elements)
    requires out.forecourt.Some? ==> AllNumbered(out.forecourt.value.elements)
    ensures forall i, k :: 0 <= i < |out.floors| && 0 <= k < |out.floors[i].elements| ==>
              StoredAs(after, out, out.floors[i].elements[k], OnFloor(out.floors[i].id.GetOr(0)))
    ensures out.forecourt.Some? ==> forall k :: 0 <= k < |out.forecourt.value.elements| ==>
              StoredAs(after, out, out.forecourt.value.elements[k], OnForecourt(c))
  {
    forall i, k | 0 <= i < |out.floors| && 0 <= k < |out.floors[i].elements|
      ensures StoredAs(after, out, out.floors[i].elements[k], OnFloor(out.floors[i].id.GetOr(0)))
    {
      if Count(PlanIds(out), out.floors[i].elements[k].id.GetOr(0)) <= 1 {
        ListedOnceOnFloor(c, out, i, k);
      }
    }
    if out.forecourt.Some? {
      forall k | 0 <= k < |out.forecourt.value.elements|
        ensures StoredAs(after, out, out.forecourt.value.elements[k], OnForecourt(c))
      {
        if Count(PlanIds(out), out.forecourt.value.elements[k].id.GetOr(0)) <= 1 {
          ListedOnceInForecourt(c, out, k);
        }
      }
    }
  }

  /** The element has an id; listed once, its row is at this place with the attributes listed. */
  ghost predicate StoredAs(after: Db, plan: PlanJson, el: JsonElement, place: Place) {
    && el.id.Some?
    && (Count(PlanIds(plan), el.id.value) <= 1 ==>
          el.id.value in after.elements && after.elements[el.id.value] == ElementRow(place, el.body))
  }

  // ----- The returned plan against the payload --------------------------------------------------------------

  /** Where elements are put back: on the first floor at level 0, else on the first floor. */
  predicate OrphanHome(fs: seq<JsonFloor>, i: nat) {
    i < |fs| && if exists f :: f in fs && f.level == 0
                then fs[i].level == 0 && forall j :: 0 <= j < i ==> fs[j].level != 0
                else i == 0
  }

  lemma {:induction false} ReinjectedShape(fs: seq<JsonFloor>, orphans: seq<JsonElement>)
    ensures var r := Reinjected(fs, orphans);
            && (fs != [] ==> |r| == |fs| && forall i :: 0 <= i < |fs| ==>
                  && r[i].id == fs[i].id && r[i].level == fs[i].level && r[i].info == fs[i].info
                  && r[i].elements == fs[i].elements + if OrphanHome(fs, i) then orphans else [])
            && (fs == [] ==> r == if orphans == [] then [] else [JsonFloor(None, 0, "RDC", orphans)])
  {
    if fs != [] {
      var h := OrphanFloor(fs);
      HomeIsFirst(fs);
      forall i | 0 <= i < |fs| ensures OrphanHome(fs, i) <==> i == h {
        OneHome(fs, i, h);
      }
      assert forall i :: 0 <= i < |fs| ==> fs[i].elements + [] == fs[i].elements;
    }
  }

  lemma {:induction false} HomeIsFirst(fs: seq<JsonFloor>)
    requires fs != []
    ensures OrphanHome(fs, OrphanFloor(fs))
  {
    if f :| f in fs && f.level == 0 {
      var k :| 0 <= k < |fs| && fs[k] == f;
      FirstGround(fs, k);
    }
  }

  lemma {:induction false} FirstGround(fs: seq<JsonFloor>, k: nat)
    requires k < |fs| && fs[k].level == 0
    ensures exists i :: 0 <= i < |fs| && fs[i].level == 0 && forall j :: 0 <= j < i ==> fs[j].level != 0
  {
    if j :| 0 <= j < k && fs[j].level == 0 {
      FirstGround(fs, j);
    }
  }

  lemma {:induction false} OneHome(fs: seq<JsonFloor>, i: nat, h: nat)
    requires OrphanHome(fs, h) && i < |fs|
    ensures OrphanHome(fs, i) <==> i == h
  {
  }

  /** The element as the save returns it: its own id if it was one of the configuration's, else a fresh one. */
  ghost predicate Returned(db: Db, c: Id, given: JsonElement, got: JsonElement) {
    && got.body == given.body && got.id.Some?
    && if given.id.Some? && given.id.value in Existing(db, c) then got.id == given.id
       else got.id.value >= db.nextElement
  }

  /** The elements given come first, each as returned. */
  ghost predicate AllReturned(db: Db, c: Id, given: seq<JsonElement>, got: seq<JsonElement>) {
    |given| <= |got| && forall k :: 0 <= k < |given| ==> Returned(db, c, given[k], got[k])
  }

  /** An element put back: mapped, on a floor of the configuration, not in the payload; a row's core attributes. */
  ghost predicate PutBack(db: Db, c: Id, p: PlanJson, el: JsonElement) {
    && el.id.Some? && el.id.value in OnFloors(db, FloorsOf(db, c)) && el.id.value in Mapped(db)
    && el.id.value !in PlanIds(p) && el.body == Body(db.elements[el.id.value].body.core, "", "")
  }

  /** A new floor for elements put back. */
  ghost predicate NewGround(db: Db, c: Id, p: PlanJson, out: JsonFloor) {
    && out.level == 0 && out.info == "RDC" && out.elements != []
    && forall el :: el in out.elements ==> PutBack(db, c, p, el)
  }

  /** A floor for each of the payload; or, for a payload without any, at most the new ground floor. */
  ghost predicate FloorsSaved(db: Db, c: Id, p: PlanJson, fs: seq<JsonFloor>) {
    if p.floors == [] then |fs| <= 1 && forall i :: 0 <= i < |fs| ==> NewGround(db, c, p, fs[i])
    else |fs| == |p.floors| && forall i :: 0 <= i < |fs| ==> FloorReturned(db, c, p, i, fs[i])
  }

  /** The returned floors are those of the payload, in order; without any, one for elements put back, if any. */
  lemma {:induction false} FloorsReturned(db: Db, c: Id, p: PlanJson, q: Query)
    requires SaveReady(db, c, q)
    ensures FloorsSaved(db, c, p, SaveInto(db, c, p, q).plan.floors)
  {
    var orphans, fs := Orphans(db, PlanIds(p), q.scan), SavedFloors(db, p, q.scan);
    SavedFloorsShape(db, c, p, q);
    SavedPlanParts(db, c, p, q);
    OrphansPutBack(db, c, p, q.scan);
    FloorsReturnedFrom(db, c, p, orphans, fs, Targets(fs, q.order, db.floors, db.nextFloor),
                       SavedPlan(db, c, p, q).floors);
  }

  lemma {:induction false} FloorsReturnedFrom(db: Db, c: Id, p: PlanJson, orphans: seq<JsonElement>,
                                              fs: seq<JsonFloor>, ts: seq<Id>, out: seq<JsonFloor>)
    requires fs == Reinjected(p.floors, orphans) && forall el :: el in orphans ==> PutBack(db, c, p, el)
    requires |ts| == |fs| && out == NumberedFloors(fs, ts, Existing(db, c), db.nextElement)
    requires forall i :: 0 <= i < |fs| ==> WrittenBack(out[i], fs[i], ts[i])
    ensures if p.floors == [] then |out| <= 1 && forall i :: 0 <= i < |out| ==> NewGround(db, c, p, out[i])
            else |out| == |p.floors| && forall i :: 0 <= i < |out| ==> FloorReturned(db, c, p, i, out[i])
  {
    ReinjectedShape(p.floors, orphans);
    forall i | 0 <= i < |fs|
      ensures if p.floors == [] then NewGround(db, c, p, out[i]) else FloorReturned(db, c, p, i, out[i])
    {
      FloorIsNumbered(db, c, fs, ts, out, i);
      if p.floors == [] {
        GroundReturned(db, c, p, orphans, fs[i], out[i]);
      } else {
        PayloadFloorReturned(db, c, p, orphans, fs[i], i, out[i]);
      }
    }
  }

  lemma {:induction false} GroundReturned(db: Db, c: Id, p: PlanJson, orphans: seq<JsonElement>, f: JsonFloor,
                                          out: JsonFloor)
    requires orphans != [] && (forall el :: el in orphans ==> PutBack(db, c, p, el)) && FloorNumbered(db, c, f, out)
    requires f == JsonFloor(None, 0, "RDC", orphans)
    ensures NewGround(db, c, p, out)
  {
    forall k | 0 <= k < |out.elements| ensures PutBack(db, c, p, out.elements[k]) {
      OrphanReturned(db, c, p, orphans, k, out.elements[k]);
    }
  }

  /** Floor `out` is floor `f` with ids. */
  ghost predicate FloorNumbered(db: Db, c: Id, f: JsonFloor, out: JsonFloor) {
    && out.level == f.level && out.info == f.info && |out.elements| == |f.elements|
    && forall k :: 0 <= k < |f.elements| ==> Returned(db, c, f.elements[k], out.elements[k])
  }

  /**
   Floor `i` of the payload, returned: with its level, name and geometry, and the elements given first. There are
   more only on the floor elements are put back on, and those are elements put back.
   */
  ghost predicate FloorReturned(db: Db, c: Id, p: PlanJson, i: nat, out: JsonFloor)
    requires i < |p.floors|
  {
    && out.level == p.floors[i].level && out.info == p.floors[i].info
    && AllReturned(db, c, p.floors[i].elements, out.elements)
    && (if OrphanHome(p.floors, i) then
          forall k :: |p.floors[i].elements| <= k < |out.elements| ==> PutBack(db, c, p, out.elements[k])
        else |out.elements| == |p.floors[i].elements|)
  }

  lemma {:induction false} FloorIsNumbered(db: Db, c: Id, fs: seq<JsonFloor>, ts: seq<Id>, out: seq<JsonFloor>, i: nat)
    requires |ts| == |fs| && out == NumberedFloors(fs, ts, Existing(db, c), db.nextElement) && i < |fs|
    requires WrittenBack(out[i], fs[i], ts[i])
    ensures FloorNumbered(db, c, fs[i], out[i])
  {
    forall k | 0 <= k < |fs[i].elements| ensures Returned(db, c, fs[i].elements[k], out[i].elements[k]) {
      GivenElement(fs, ts, Existing(db, c), db.nextElement, i, k);
    }
  }

  lemma {:induction false} OrphansPutBack(db: Db, c: Id, p: PlanJson, scan: seq<Id>)
    requires forall x :: x in scan ==> x in db.elements && x in OnFloors(db, FloorsOf(db, c))
    ensures forall el :: el in Orphans(db, PlanIds(p), scan) ==> PutBack(db, c, p, el)
  {
    if scan != [] {
      OrphansPutBack(db, c, p, scan[..|scan| - 1]);
    }
  }

  lemma {:induction false} OrphanReturned(db: Db, c: Id, p: PlanJson, orphans: seq<JsonElement>, k: nat,
                                          got: JsonElement)
    requires (forall el :: el in orphans ==> PutBack(db, c, p, el)) && k < |orphans|
    requires Returned(db, c, orphans[k], got)
    ensures PutBack(db, c, p, got) && got == orphans[k]
  {
    assert orphans[k] in orphans;
  }

  lemma {:induction false} PayloadFloorReturned(db: Db, c: Id, p: PlanJson, orphans: seq<JsonElement>, f: JsonFloor,
                                                i: nat, out: JsonFloor)
    requires (forall el :: el in orphans ==> PutBack(db, c, p, el)) && i < |p.floors| && FloorNumbered(db, c, f, out)
    requires f.level == p.floors[i].level && f.info == p.floors[i].info
             && f.elements == p.floors[i].elements + if OrphanHome(p.floors, i) then orphans else []
    ensures FloorReturned(db, c, p, i, out)
  {
    var m := |p.floors[i].elements|;
    forall k | 0 <= k < m ensures Returned(db, c, p.floors[i].elements[k], out.elements[k]) {
      assert f.elements[k] == p.floors[i].elements[k];
    }
    if OrphanHome(p.floors, i) {
      forall k | m <= k < |out.elements| ensures PutBack(db, c, p, out.elements[k]) {
        assert f.elements[k] == orphans[k - m];
        OrphanReturned(db, c, p, orphans, k - m, out.elements[k]);
      }
    }
  }

  // ----- Mapped elements that were left out ---------------------------------------------------------------

  /** A known id is returned as often as it was given, and once for an element put back. */
  lemma {:induction false} KnownCount(db: Db, c: Id, p: PlanJson, q: Query, x: Id)
    requires SaveReady(db, c, q) && x in Existing(db, c)
    ensures Count(PlanIds(SaveInto(db, c, p, q).plan), x)
            == Count(PlanIds(p), x) + if IsOrphan(db, c, x) && x !in PlanIds(p) then 1 else 0
  {
    var fs, orphans := SavedFloors(db, p, q.scan), Orphans(db, PlanIds(p), q.scan);
    ExistingBelow(db, c);
    NumberedPlanIds(db, c, p, q.order, fs, Existing(db, c), SavedPlan(db, c, p, q));
    assert Kept(PlanIds(SavedPlan(db, c, p, q)), FloorIdsOf(fs) + ZoneIdsOf(p.forecourt), Existing(db, c), x);
    OrphansFacts(db, PlanIds(p), q.scan);
    ReinjectedIds(p.floors, orphans);
    CountWithOrphans(FloorIdsOf(fs), FloorIdsOf(p.floors), ZoneIdsOf(p.forecourt), IdsOf(orphans), x);
  }

  lemma {:induction false} CountWithOrphans(floors: seq<Id>, before: seq<Id>, zone: seq<Id>, orphans: seq<Id>, x: Id)
    requires multiset(floors) == multiset(before) + multiset(orphans)
    requires Count(orphans, x) <= 1
    ensures Count(floors + zone, x) == Count(before + zone, x) + if x in orphans then 1 else 0
  {
    CountTogether(floors + zone, floors, zone, x);
    CountTogether(before + zone, before, zone, x);
    assert x in orphans <==> x in multiset(orphans);
  }

  /** The returned floor `i` shows `el`, put back on the floor for it, and its row is there with what it shows. */
  ghost predicate PutBackAt(p: PlanJson, s: Saved, el: JsonElement, i: nat) {
    && i < |s.plan.floors| && el in s.plan.floors[i].elements && (p.floors != [] ==> OrphanHome(p.floors, i))
    && StoredAs(s.db, s.plan, el, OnFloor(s.plan.floors[i].id.GetOr(0)))
  }

  /**
   A mapped element of the configuration's floors that the payload leaves out: it is listed once, on the first
   floor at level 0 or else the first, with its core attributes; and its row is on that floor, with those. Its
   other attributes are lost.
   */
  lemma {:induction false} MappedElementPutBack(db: Db, c: Id, p: PlanJson, q: Query, x: Id)
    requires SaveReady(db, c, q) && x in OnFloors(db, FloorsOf(db, c)) && x in Mapped(db) && x !in PlanIds(p)
    ensures var s, kept := SaveInto(db, c, p, q), Body(db.elements[x].body.core, "", "");
            && Count(PlanIds(s.plan), x) == 1
            && (exists i :: PutBackAt(p, s, JsonElement(Some(x), kept), i))
            && x in s.db.elements && s.db.elements[x].body == kept
  {
    var s := SaveInto(db, c, p, q);
    ListedOnceOnSomeFloor(db, c, p, q, x);
    var i, k :| 0 <= i < |s.plan.floors| && 0 <= k < |s.plan.floors[i].elements|
                && s.plan.floors[i].elements[k].id == Some(x);
    FloorsReturned(db, c, p, q);
    ReturnedIsStored(db, c, p, q);
    PutBackFound(db, c, p, s, i, k, x);
  }

  lemma {:induction false} PutBackFound(db: Db, c: Id, p: PlanJson, s: Saved, i: nat, k: nat, x: Id)
    requires Valid(db) && x in OnFloors(db, FloorsOf(db, c)) && x !in PlanIds(p) && Count(PlanIds(s.plan), x) == 1
    requires i < |s.plan.floors| && k < |s.plan.floors[i].elements| && s.plan.floors[i].elements[k].id == Some(x)
    requires if p.floors == [] then NewGround(db, c, p, s.plan.floors[i])
             else i < |p.floors| && FloorReturned(db, c, p, i, s.plan.floors[i])
    requires StoredAs(s.db, s.plan, s.plan.floors[i].elements[k], OnFloor(s.plan.floors[i].id.GetOr(0)))
    ensures var kept := Body(db.elements[x].body.core, "", "");
            && PutBackAt(p, s, JsonElement(Some(x), kept), i)
            && x in s.db.elements && s.db.elements[x].body == kept
  {
    ShownPutBack(db, c, p, s.plan.floors[i], i, k, x);
    assert s.plan.floors[i].elements[k] == JsonElement(Some(x), Body(db.elements[x].body.core, "", ""));
  }

  lemma {:induction false} ListedOnceOnSomeFloor(db: Db, c: Id, p: PlanJson, q: Query, x: Id)
    requires SaveReady(db, c, q) && x in OnFloors(db, FloorsOf(db, c)) && x in Mapped(db) && x !in PlanIds(p)
    ensures var plan := SaveInto(db, c, p, q).plan;
            && Count(PlanIds(plan), x) == 1
            && exists i, k :: 0 <= i < |plan.floors| && 0 <= k < |plan.floors[i].elements|
                              && plan.floors[i].elements[k].id == Some(x)
  {
    KnownCount(db, c, p, q, x);
    SavedIdsKept(db, c, p, q);
    SomewhereOnFloors(SavedPlan(db, c, p, q), p, x);
  }

  lemma {:induction false} SomewhereOnFloors(out: PlanJson, p: PlanJson, x: Id)
    requires x !in PlanIds(p) && Count(PlanIds(out), x) == Count(PlanIds(p), x) + 1
    requires Count(ZoneIdsOf(out.forecourt), x) == Count(ZoneIdsOf(p.forecourt), x)
    ensures Count(PlanIds(out), x) == 1
    ensures exists i, k :: 0 <= i < |out.floors| && 0 <= k < |out.floors[i].elements|
                           && out.floors[i].elements[k].id == Some(x)
  {
    CountTogether(PlanIds(p), FloorIdsOf(p.floors), ZoneIdsOf(p.forecourt), x);
    CountTogether(PlanIds(out), FloorIdsOf(out.floors), ZoneIdsOf(out.forecourt), x);
    assert x !in FloorIdsOf(p.floors) && x !in ZoneIdsOf(p.forecourt);
    FloorIdsAt(out.floors, x);
    var i :| 0 <= i < |out.floors| && x in IdsOf(out.floors[i].elements);
    IdsAt(out.floors[i].elements, x);
  }

  lemma {:induction false} ShownPutBack(db: Db, c: Id, p: PlanJson, out: JsonFloor, i: nat, k: nat, x: Id)
    requires Valid(db) && x in OnFloors(db, FloorsOf(db, c)) && x !in PlanIds(p)
    requires if p.floors == [] then NewGround(db, c, p, out) else i < |p.floors| && FloorReturned(db, c, p, i, out)
    requires k < |out.elements| && out.elements[k].id == Some(x)
    ensures PutBack(db, c, p, out.elements[k]) && (p.floors != [] ==> OrphanHome(p.floors, i))
  {
    if p.floors != [] && k < |p.floors[i].elements| {
      ExistingBelow(db, c);
      assert Returned(db, c, p.floors[i].elements[k], out.elements[k]);
      IdsAt(p.floors[i].elements, x);
      FloorIdsAt(p.floors, x);
      assert false;
    }
  }

  // ----- Which row each floor becomes, and with what -------------------------------------------------------

  /** Row `f` was taken by a floor before floor `i`. */
  predicate TakenBefore(fs: seq<JsonFloor>, i: nat, f: Id)
    requires i <= |fs|
  {
    exists j :: 0 <= j < i && fs[j].id == Some(f)
  }

  predicate AtLevel(db: Db, c: Id, f: Id, level: int) {
    f in FloorsOf(db, c) && db.floors[f].level == level
  }

  /**
   Floor `i` becomes the row it names, if that is one of the configuration; else the first row of its level, in
   the order of the query, that no floor before it became; else a new row.
   */
  ghost predicate RowChosen(db: Db, c: Id, order: seq<Id>, given: JsonFloor, out: seq<JsonFloor>, i: nat)
    requires i < |out|
  {
    && out[i].id.Some?
    && var row := out[i].id.value;
       if given.id.Some? && given.id.value in FloorsOf(db, c) then row == given.id.value
       else if row in FloorsOf(db, c) then
         && AtLevel(db, c, row, given.level) && !TakenBefore(out, i, row)
         && forall k, m :: 0 <= k < m < |order| && order[m] == row && AtLevel(db, c, order[k], given.level) ==>
              TakenBefore(out, i, order[k])
       else
         && row >= db.nextFloor && !TakenBefore(out, i, row)
         && forall f :: AtLevel(db, c, f, given.level) ==> TakenBefore(out, i, f)
  }

  lemma {:induction false} FirstIsFirst(order: seq<Id>, rows: map<Id, FloorRow>, seen: seq<Id>, level: int, k: nat,
                                        m: nat)
    requires (forall f :: f in order ==> f in rows) && Distinct(order) && k < m < |order|
    requires FirstAtLevel(order, rows, seen, level) == Some(order[m]) && rows[order[k]].level == level
    ensures order[k] in seen
  {
    if k > 0 {
      assert order[1..][k - 1] == order[k] && order[1..][m - 1] == order[m];
      FirstIsFirst(order[1..], rows, seen, level, k - 1, m - 1);
    }
  }

  /** Every floor of the payload becomes such a row. */
  lemma {:induction false} RowsChosen(db: Db, c: Id, p: PlanJson, q: Query, i: nat)
    requires SaveReady(db, c, q) && i < |p.floors|
    ensures var fs := SaveInto(db, c, p, q).plan.floors;
            |fs| == |p.floors| && RowChosen(db, c, q.order, p.floors[i], fs, i)
  {
    var fs := SavedFloors(db, p, q.scan);
    ReinjectedShape(p.floors, Orphans(db, PlanIds(p), q.scan));
    SavedFloorsShape(db, c, p, q);
    OrderFacts(db, c, q.order);
    RowChosenFrom(db, c, q.order, fs, SavedPlan(db, c, p, q).floors, i);
    RowChosenSame(db, c, q.order, fs[i], p.floors[i], SavedPlan(db, c, p, q).floors, i);
  }

  lemma {:induction false} RowChosenSame(db: Db, c: Id, order: seq<Id>, f: JsonFloor, given: JsonFloor,
                                         out: seq<JsonFloor>, i: nat)
    requires i < |out| && RowChosen(db, c, order, f, out, i) && f.id == given.id && f.level == given.level
    ensures RowChosen(db, c, order, given, out, i)
  {
  }

  lemma {:induction false} RowChosenFrom(db: Db, c: Id, order: seq<Id>, fs: seq<JsonFloor>, out: seq<JsonFloor>, i: nat)
    requires Valid(db) && Enumerates(order, FloorsOf(db, c)) && i < |fs| == |out|
    requires (forall f :: f in order ==> f in db.floors && f < db.nextFloor)
             && forall j :: 0 <= j < |fs| ==> out[j].id == Some(Targets(fs, order, db.floors, db.nextFloor)[j])
    ensures RowChosen(db, c, order, fs[i], out, i)
  {
    var ts, before := Targets(fs, order, db.floors, db.nextFloor), Targets(fs[..i], order, db.floors, db.nextFloor);
    TargetIs(fs, order, db.floors, db.nextFloor, i);
    TargetsFacts(fs[..i], order, db.floors, db.nextFloor);
    assert forall j :: 0 <= j < i ==> ts[j] == before[j];
    TakenAre(out, before, i);
    if !(fs[i].id.Some? && fs[i].id.value in order) {
      ByLevel(db, c, order, before, fs[i].level, out, i);
    }
  }

  lemma {:induction false} TakenAre(out: seq<JsonFloor>, before: seq<Id>, i: nat)
    requires |before| == i <= |out| && forall j :: 0 <= j < i ==> out[j].id == Some(before[j])
    ensures forall f: Id :: TakenBefore(out, i, f) <==> f in before
  {
    forall f: Id ensures TakenBefore(out, i, f) <==> f in before {
      if f in before {
        var j :| 0 <= j < |before| && before[j] == f;
        assert out[j].id == Some(f);
      }
    }
  }

  /** A floor that names no row of the configuration. */
  lemma {:induction false} ByLevel(db: Db, c: Id, order: seq<Id>, before: seq<Id>, level: int, out: seq<JsonFloor>,
                                   i: nat)
    requires Enumerates(order, FloorsOf(db, c)) && (forall f :: f in order ==> f in db.floors && f < db.nextFloor)
    requires i < |out| && (forall f: Id :: TakenBefore(out, i, f) <==> f in before)
    requires forall t :: t in before ==> t in order || db.nextFloor <= t < db.nextFloor + Created(before, db.nextFloor)
    requires var m := FirstAtLevel(order, db.floors, before, level);
             out[i].id == Some(if m.Some? then m.value else db.nextFloor + Created(before, db.nextFloor))
    ensures RowChosen(db, c, order, JsonFloor(None, level, "", []), out, i)
  {
    var first := FirstAtLevel(order, db.floors, before, level);
    FirstAtLevelFacts(order, db.floors, before, level);
    if first.Some? {
      forall k, m | 0 <= k < m < |order| && order[m] == first.value && AtLevel(db, c, order[k], level)
        ensures TakenBefore(out, i, order[k])
      {
        FirstIsFirst(order, db.floors, before, level, k, m);
      }
    }
  }

  /** The row has what the last floor that became it was given. */
  lemma {:induction false} FloorRowAfter(db: Db, c: Id, p: PlanJson, q: Query, i: nat)
    requires SaveReady(db, c, q)
    requires var fs := SaveInto(db, c, p, q).plan.floors;
             i < |fs| && forall j :: i < j < |fs| ==> fs[j].id != fs[i].id
    ensures var s := SaveInto(db, c, p, q);
            && s.plan.floors[i].id.Some? && s.plan.floors[i].id.value in s.db.floors
            && s.db.floors[s.plan.floors[i].id.value] == FloorRow(c, s.plan.floors[i].level, s.plan.floors[i].info)
  {
    SavedFloorsShape(db, c, p, q);
    SaveFloors(db, c, p, q);
    FloorRowFrom(db, c, SavedPlan(db, c, p, q), SaveInto(db, c, p, q).db,
                 NextFloor(db, SavedFloors(db, p, q.scan), q.order), i);
  }

  lemma {:induction false} FloorRowFrom(db: Db, c: Id, out: PlanJson, after: Db, hiF: Id, i: nat)
    requires FloorsAfter(db, c, out, after, hiF) && forall j :: 0 <= j < |out.floors| ==> out.floors[j].id.Some?
    requires i < |out.floors| && forall j :: i < j < |out.floors| ==> out.floors[j].id != out.floors[i].id
    ensures out.floors[i].id.value in after.floors
            && after.floors[out.floors[i].id.value] == FloorRow(c, out.floors[i].level, out.floors[i].info)
  {
    assert out.floors[i] in out.floors && out.floors[i].id.value in TargetSet(out.floors);
    LastRowWins(c, out.floors, i);
  }

  lemma {:induction false} LastRowWins(c: Id, fs: seq<JsonFloor>, i: nat)
    requires forall j :: 0 <= j < |fs| ==> fs[j].id.Some?
    requires i < |fs| && forall j :: i < j < |fs| ==> fs[j].id != fs[i].id
    ensures fs[i].id.value in FloorRows(c, fs)
            && FloorRows(c, fs)[fs[i].id.value] == FloorRow(c, fs[i].level, fs[i].info)
  {
    var n := |fs| - 1;
    if i < n {
      LastRowWins(c, fs[..n], i);
    }
  }

  // ----- The forecourt and the configuration ----------------------------------------------------------------

  /** The zone returned for one given: name and geometry, the elements in order, and the id of its row. */
  ghost predicate ZoneReturned(db: Db, c: Id, given: Option<JsonZone>, got: Option<JsonZone>) {
    if given.None? then got.None?
    else
      && got.Some? && got.value.info == given.value.info
      && got.value.id == Some(if c in db.forecourts then db.forecourts[c].id else db.nextZone)
      && |got.value.elements| == |given.value.elements|
      && AllReturned(db, c, given.value.elements, got.value.elements)
  }

  lemma {:induction false} NumberedZoneReturned(db: Db, c: Id, given: Option<JsonZone>, next: Id)
    requires next >= db.nextElement
    ensures ZoneReturned(db, c, given, NumberedZone(given, ForecourtId(db, c), Existing(db, c), next))
  {
    if given.Some? {
      var els, existing := given.value.elements, Existing(db, c);
      NumberedAll(els, existing, next);
      forall k | 0 <= k < |els| ensures Returned(db, c, els[k], Numbered(els, existing, next)[k]) {
        NumberedNew(els, existing, next, k);
      }
    }
  }

  lemma {:induction false} SavedZoneReturned(db: Db, c: Id, p: PlanJson, q: Query)
    requires Answers(db, c, q)
    ensures ZoneReturned(db, c, p.forecourt, SavedPlan(db, c, p, q).forecourt)
  {
    SavedPlanParts(db, c, p, q);
    NumberedZoneReturned(db, c, p.forecourt,
                         db.nextElement + NewInFloors(SavedFloors(db, p, q.scan), Existing(db, c)));
  }

  lemma {:induction false} ZoneRows(db: Db, c: Id, p: PlanJson, q: Query, out: PlanJson)
    requires c in db.configs && Answers(db, c, q) && out == SavedPlan(db, c, p, q)
    ensures var s := SaveInto(db, c, p, q);
            && s.plan == out && out.merch == p.merch && s.db.merches == db.merches
            && s.db.forecourts == if out.forecourt.None? then db.forecourts
                                  else db.forecourts[c := ZoneRow(ForecourtId(db, c), out.forecourt.value.info)]
  {
  }

  /** The forecourt, the external zone and their rows, once a plan has been saved. */
  ghost predicate ForecourtSaved(db: Db, c: Id, p: PlanJson, s: Saved) {
    && s.plan.merch == p.merch && s.db.merches == db.merches
    && ZoneReturned(db, c, p.forecourt, s.plan.forecourt)
    && s.db.forecourts == if p.forecourt.None? then db.forecourts
                          else db.forecourts[c := ZoneRow(s.plan.forecourt.value.id.value, p.forecourt.value.info)]
  }

  /**
   The forecourt of the payload is returned with its name and geometry, its elements in order, and the id of the
   configuration's row, a new one if it had none; and that is the row. The external zone is not touched.
   */
  lemma {:induction false} ForecourtReturned(db: Db, c: Id, p: PlanJson, q: Query)
    requires SaveReady(db, c, q)
    ensures ForecourtSaved(db, c, p, SaveInto(db, c, p, q))
  {
    var out, s := SavedPlan(db, c, p, q), SaveInto(db, c, p, q);
    SavedZoneReturned(db, c, p, q);
    ZoneRows(db, c, p, q, out);
    ForecourtIsSaved(db, c, p, out, s);
  }

  lemma {:induction false} ForecourtIsSaved(db: Db, c: Id, p: PlanJson, out: PlanJson, s: Saved)
    requires out.merch == p.merch && ZoneReturned(db, c, p.forecourt, out.forecourt)
    requires s.plan == out && s.db.merches == db.merches
    requires s.db.forecourts == if out.forecourt.None? then db.forecourts
                                else db.forecourts[c := ZoneRow(ForecourtId(db, c), out.forecourt.value.info)]
    ensures ForecourtSaved(db, c, p, s)
  {
  }
}
