/**
 What becomes of an element's attributes: what one save stores of those it is given, what loading and saving
 keeps of them, and what every run keeps.
 */
module FloorPlanAttributes {
  import opened Common
  import opened FloorPlan
  import opened FloorPlanSave
  import opened FloorPlanGuarantees
  import opened FloorPlanLoad
  import opened FloorPlanCollapse
  import opened FloorPlanOps
  import opened FloorPlanSaveAgreement
  import opened FloorPlanSaveDetails
  import opened FloorPlanLoadDetails
  import opened FloorPlanAgreement
  import opened FloorPlanRuns
  import opened FloorPlanOpDetails

  // ----- One save ------------------------------------------------------------------------------------------

  /** An element of the configuration that a floor of the payload lists, and nothing else does. */
  ghost predicate GivenOnce(db: Db, c: Id, p: PlanJson, i: nat, k: nat) {
    && i < |p.floors| && k < |p.floors[i].elements| && p.floors[i].elements[k].id.Some?
    && p.floors[i].elements[k].id.value in Existing(db, c)
    && Count(PlanIds(p), p.floors[i].elements[k].id.value) == 1
  }

  /** It is returned as given, and stored so on the floor's row. */
  lemma {:induction false} GivenIsStored(db: Db, c: Id, p: PlanJson, q: Query, i: nat, k: nat)
    requires SaveReady(db, c, q) && GivenOnce(db, c, p, i, k)
    ensures var s, el := SaveInto(db, c, p, q), p.floors[i].elements[k];
            && i < |s.plan.floors| && k < |s.plan.floors[i].elements| && s.plan.floors[i].elements[k] == el
            && s.plan.floors[i].id.Some? && el.id.value in s.db.elements
            && s.db.elements[el.id.value] == ElementRow(OnFloor(s.plan.floors[i].id.value), el.body)
  {
    var s, el := SaveInto(db, c, p, q), p.floors[i].elements[k];
    ListedInPlan(p, i, k);
    KnownCount(db, c, p, q, el.id.value);
    FloorsReturned(db, c, p, q);
    assert FloorReturned(db, c, p, i, s.plan.floors[i]);
    assert Returned(db, c, el, s.plan.floors[i].elements[k]);
    ReturnedIsStored(db, c, p, q);
    SavedFloorsShape(db, c, p, q);
    assert StoredAs(s.db, s.plan, s.plan.floors[i].elements[k], OnFloor(s.plan.floors[i].id.GetOr(0)));
  }

  lemma {:induction false} ListedInPlan(p: PlanJson, i: nat, k: nat)
    requires i < |p.floors| && k < |p.floors[i].elements| && p.floors[i].elements[k].id.Some?
    ensures p.floors[i].elements[k].id.value in PlanIds(p)
  {
    IdsAt(p.floors[i].elements, p.floors[i].elements[k].id.value);
    FloorIdsAt(p.floors, p.floors[i].elements[k].id.value);
  }

  /** So is one that the forecourt lists, and nothing else does. */
  lemma {:induction false} GivenInForecourt(db: Db, c: Id, p: PlanJson, q: Query, k: nat)
    requires SaveReady(db, c, q) && p.forecourt.Some? && k < |p.forecourt.value.elements|
    requires var el := p.forecourt.value.elements[k];
             el.id.Some? && el.id.value in Existing(db, c) && Count(PlanIds(p), el.id.value) == 1
    ensures var s, el := SaveInto(db, c, p, q), p.forecourt.value.elements[k];
            && s.plan.forecourt.Some? && k < |s.plan.forecourt.value.elements|
            && s.plan.forecourt.value.elements[k] == el
            && el.id.value in s.db.elements && s.db.elements[el.id.value] == ElementRow(OnForecourt(c), el.body)
  {
    var s, el := SaveInto(db, c, p, q), p.forecourt.value.elements[k];
    IdsAt(p.forecourt.value.elements, el.id.value);
    KnownCount(db, c, p, q, el.id.value);
    ForecourtReturned(db, c, p, q);
    assert Returned(db, c, el, s.plan.forecourt.value.elements[k]);
    ReturnedIsStored(db, c, p, q);
    assert StoredAs(s.db, s.plan, s.plan.forecourt.value.elements[k], OnForecourt(c));
  }

  // ----- Loading and saving ----------------------------------------------------------------------------------

  lemma {:induction false} LoadedOnce(db: Db, c: Id, order: seq<Id>, scan: seq<Id>, p: PlanJson, i: nat, k: nat)
    requires Loaded(db, c, order, scan, p) && i < |p.floors| && k < |p.floors[i].elements|
    requires p.floors[i].elements[k].id.Some? && p.floors[i].elements[k].id.value in Existing(db, c)
    ensures GivenOnce(db, c, p, i, k)
  {
    LoadedDistinct(db, c, order, scan, p);
    ListedInPlan(p, i, k);
    var x := p.floors[i].elements[k].id.value;
    assert x in PlanIds(p) <==> x in multiset(PlanIds(p));
  }

  /** What a load and save makes of an element on a floor: the attributes it was shown with. */
  lemma {:induction false} ShownIsStored(db: Db, c: Id, order: seq<Id>, scan: seq<Id>, p: PlanJson, q: Query, i: nat,
                                         el: JsonElement)
    requires Loaded(db, c, order, scan, p) && SaveReady(db, c, q) && i < |p.floors| && el in p.floors[i].elements
    requires el.id.Some? && el.id.value in Existing(db, c)
    ensures var after := SaveInto(db, c, p, q).db;
            el.id.value in after.elements && after.elements[el.id.value].body == el.body
  {
    var k :| 0 <= k < |p.floors[i].elements| && p.floors[i].elements[k] == el;
    LoadedOnce(db, c, order, scan, p, i, k);
    GivenIsStored(db, c, p, q, i, k);
  }

  /** The first version of `x` among the JSON floors at a level. */
  ghost predicate VersionOf(fs: seq<JsonFloor>, j: nat, k: nat, x: Id, level: int) {
    FirstVersion(fs, j, k) && fs[j].level == level && fs[j].elements[k].id == Some(x)
  }

  /**
   While JSON and rows agree, a load and save gives an element on a floor the attributes of its first version in the
   JSON of its level; without one it keeps its own, but for the tags.
   */
  lemma {:induction false} LoadSaveAttributes(db: Db, c: Id, order: seq<Id>, scan: seq<Id>, p: PlanJson, q: Query,
                                              x: Id, level: int)
    requires Loaded(db, c, order, scan, p) && SaveReady(db, c, q) && OnLevel(db, c, x, level)
    ensures var after, fs := SaveInto(db, c, p, q).db, db.configs[c].data.floors;
            && x in after.elements
            && (!ListedAtLevel(fs, level, x) ==>
                  after.elements[x].body == Body(db.elements[x].body.core, db.elements[x].body.extras, ""))
            && (forall j: nat, k: nat :: VersionOf(fs, j, k, x, level) ==>
                  after.elements[x].body == fs[j].elements[k].body)
  {
    var fs := db.configs[c].data.floors;
    var i := LevelOf(db, c, order, scan, p, x, level);
    LoadSaveDeletesNothing(db, c, order, scan, p, q, x);
    if !ListedAtLevel(fs, level, x) {
      RowOnlyShown(db, c, order, scan, p, i, x);
      ShownIsStored(db, c, order, scan, p, q, i,
                    JsonElement(Some(x), Body(db.elements[x].body.core, db.elements[x].body.extras, "")));
    }
    forall j: nat, k: nat | VersionOf(fs, j, k, x, level)
      ensures SaveInto(db, c, p, q).db.elements[x].body == fs[j].elements[k].body
    {
      FirstVersionShown(db, c, order, scan, p, i, j, k);
      ShownIsStored(db, c, order, scan, p, q, i, fs[j].elements[k]);
    }
  }

  /** The loaded floor of a level that holds a row. */
  ghost function LevelOf(db: Db, c: Id, order: seq<Id>, scan: seq<Id>, p: PlanJson, x: Id, level: int): (i: nat)
    requires LoadReady(db, c, order, scan) && IsLoad(db, c, order, scan, p) && OnLevel(db, c, x, level)
    ensures i < |p.floors| && p.floors[i].level == level
  {
    assert db.elements[x].place.floor in order && LevelUsed(db, db.configs[c].data.floors, order, level);
    var i :| 0 <= i < |p.floors| && p.floors[i].level == level;
    i
  }

  // ----- Every run: a save whose payload shows the rows' core attributes ---------------------------------------

  /** These elements show the core attributes of their rows. */
  ghost predicate ShowCores(db: Db, els: seq<JsonElement>) {
    forall el :: el in els && el.id.Some? && el.id.value in db.elements ==>
      el.body.core == db.elements[el.id.value].body.core
  }

  ghost predicate FloorsShowCores(db: Db, fs: seq<JsonFloor>) {
    forall i :: 0 <= i < |fs| ==> ShowCores(db, fs[i].elements)
  }

  ghost predicate PlanShowsCores(db: Db, p: PlanJson) {
    && FloorsShowCores(db, p.floors)
    && (p.forecourt.Some? ==> ShowCores(db, p.forecourt.value.elements))
  }

  /** Rows keep their core attributes. */
  ghost predicate CoresKept(db: Db, after: Db) {
    forall x :: x in db.elements && x in after.elements ==> after.elements[x].body.core == db.elements[x].body.core
  }

  lemma {:induction false} RowFrom(place: Place, els: seq<JsonElement>, x: Id)
    requires x in ElementRows(place, els)
    ensures exists el :: el in els && el.id == Some(x) && ElementRows(place, els)[x].body == el.body
  {
    var n := |els| - 1;
    if els[n].id != Some(x) {
      RowFrom(place, els[..n], x);
    } else {
      assert els[n] in els;
    }
  }

  ghost predicate ListedWith(out: PlanJson, x: Id, body: Body) {
    || (exists i :: 0 <= i < |out.floors| && JsonElement(Some(x), body) in out.floors[i].elements)
    || (out.forecourt.Some? && JsonElement(Some(x), body) in out.forecourt.value.elements)
  }

  lemma {:induction false} FloorRowListed(fs: seq<JsonFloor>, x: Id)
    requires x in FloorElementRows(fs)
    ensures exists i :: 0 <= i < |fs| && JsonElement(Some(x), FloorElementRows(fs)[x].body) in fs[i].elements
  {
    var n := |fs| - 1;
    var last := ElementRows(OnFloor(fs[n].id.GetOr(0)), fs[n].elements);
    if x in last {
      RowFrom(OnFloor(fs[n].id.GetOr(0)), fs[n].elements, x);
      var el :| el in fs[n].elements && el.id == Some(x) && last[x].body == el.body;
      assert el == JsonElement(Some(x), last[x].body);
    } else {
      FloorRowListed(fs[..n], x);
    }
  }

  /** A row of the plan has the attributes of one of its listings. */
  lemma {:induction false} PlanRowListed(c: Id, out: PlanJson, x: Id)
    requires x in PlanRows(c, out)
    ensures ListedWith(out, x, PlanRows(c, out)[x].body)
  {
    if out.forecourt.Some? && x in ElementRows(OnForecourt(c), out.forecourt.value.elements) {
      RowFrom(OnForecourt(c), out.forecourt.value.elements, x);
      var rows := ElementRows(OnForecourt(c), out.forecourt.value.elements);
      var el :| el in out.forecourt.value.elements && el.id == Some(x) && rows[x].body == el.body;
      assert el == JsonElement(Some(x), rows[x].body);
    } else {
      FloorRowListed(out.floors, x);
    }
  }

  /** What a save returns of known elements shows the cores of their rows, when the payload does. */
  lemma {:induction false} ReturnedShowsCores(db: Db, c: Id, p: PlanJson, q: Query)
    requires SaveReady(db, c, q) && PlanShowsCores(db, p)
    ensures PlanShowsCores(db, SaveInto(db, c, p, q).plan)
  {
    FloorsReturned(db, c, p, q);
    ForecourtReturned(db, c, p, q);
    ReturnedPlanShowsCores(db, c, p, SaveInto(db, c, p, q));
  }

  lemma {:induction false} ReturnedPlanShowsCores(db: Db, c: Id, p: PlanJson, s: Saved)
    requires Valid(db) && PlanShowsCores(db, p) && ForecourtSaved(db, c, p, s)
    requires FloorsSaved(db, c, p, s.plan.floors)
    ensures PlanShowsCores(db, s.plan)
  {
    forall i | 0 <= i < |s.plan.floors| ensures ShowCores(db, s.plan.floors[i].elements) {
      if p.floors != [] {
        FloorShowsCores(db, c, p, i, s.plan.floors[i]);
      }
    }
    if p.forecourt.Some? {
      AllReturnedShow(db, c, p.forecourt.value.elements, s.plan.forecourt.value.elements);
    }
  }

  lemma {:induction false} FloorShowsCores(db: Db, c: Id, p: PlanJson, i: nat, out: JsonFloor)
    requires Valid(db) && i < |p.floors| && FloorReturned(db, c, p, i, out) && ShowCores(db, p.floors[i].elements)
    ensures ShowCores(db, out.elements)
  {
    var m := |p.floors[i].elements|;
    AllReturnedShow(db, c, p.floors[i].elements, out.elements[..m]);
    forall el | el in out.elements && el.id.Some? && el.id.value in db.elements
      ensures el.body.core == db.elements[el.id.value].body.core
    {
      var k :| 0 <= k < |out.elements| && out.elements[k] == el;
      if k < m {
        assert out.elements[..m][k] == el && el in out.elements[..m];
      } else {
        assert PutBack(db, c, p, el);
      }
    }
  }

  lemma {:induction false} AllReturnedShow(db: Db, c: Id, given: seq<JsonElement>, got: seq<JsonElement>)
    requires Valid(db) && AllReturned(db, c, given, got) && |got| == |given| && ShowCores(db, given)
    ensures ShowCores(db, got)
  {
    forall el | el in got && el.id.Some? && el.id.value in db.elements
      ensures el.body.core == db.elements[el.id.value].body.core
    {
      var k :| 0 <= k < |got| && got[k] == el;
      assert Returned(db, c, given[k], got[k]) && given[k] in given;
    }
  }

  /** Such a save keeps the core attributes of every element, of whatever configuration. */
  lemma {:induction false} SaveKeepsCores(db: Db, c: Id, p: PlanJson, q: Query)
    requires SaveReady(db, c, q) && PlanShowsCores(db, p)
    ensures CoresKept(db, SaveInto(db, c, p, q).db)
  {
    var out, after := SavedPlan(db, c, p, q), SaveInto(db, c, p, q).db;
    ReturnedShowsCores(db, c, p, q);
    SaveElements(db, c, p, q);
    forall x | x in db.elements && x in after.elements
      ensures after.elements[x].body.core == db.elements[x].body.core
    {
      if x in PlanRows(c, out) {
        PlanRowListed(c, out, x);
      }
    }
  }

  /** The payload of the operation, if it is a save, shows the core attributes of the rows it lists. */
  ghost predicate OpShowsCores(db: Db, op: Op) {
    op.SavePlanOp? ==> PlanShowsCores(db, op.data)
  }

  lemma {:induction false} SavePlanKeepsCores(db: Db, c: Id, space: Id, data: PlanJson, q: Query)
    requires Valid(db) && Answers(db, c, q) && PlanShowsCores(db, data) && SavePlan(db, c, space, data, q).Ok?
    ensures CoresKept(db, SavePlan(db, c, space, data, q).value.db)
  {
    var upserted := WithConfig(db, c, space, data);
    UpsertedReady(db, c, space, data, q);
    SameRowsShow(db, upserted, data);
    SaveKeepsCores(upserted, c, data, q);
    SameRowsKeep(db, upserted, SaveInto(upserted, c, data, q).db);
  }

  lemma {:induction false} SameRowsShow(db: Db, mid: Db, p: PlanJson)
    requires mid.elements == db.elements && PlanShowsCores(db, p)
    ensures PlanShowsCores(mid, p)
  {
  }

  lemma {:induction false} SameRowsKeep(db: Db, mid: Db, after: Db)
    requires mid.elements == db.elements && CoresKept(mid, after)
    ensures CoresKept(db, after)
  {
  }

  lemma {:induction false} PerformKeepsCores(db: Db, op: Op)
    requires Sound(db) && Possible(db, op) && OpShowsCores(db, op)
    ensures CoresKept(db, Perform(db, op))
  {
    match op
    case SavePlanOp(c, space, data, q) =>
      if SavePlan(db, c, space, data, q).Ok? {
        SavePlanKeepsCores(db, c, space, data, q);
      }
    case QuickCreateOp(space, explicit, oldest, answer, body) => QuickCreateKeepsCores(db, op);
    case AssignToFloorOp(space, explicit, oldest, ids, level, info, answer) => AssignKeepsCores(db, op);
    case AssignToForecourtOp(space, explicit, oldest, ids) => AssignKeepsCores(db, op);
    case CreateMappingOp(location, e) =>
    case DeleteMappingOp(location) => DeleteKeepsCores(db, op);
  }

  lemma {:induction false} QuickCreateKeepsCores(db: Db, op: Op)
    requires Sound(db) && Possible(db, op) && op.QuickCreateOp?
    ensures CoresKept(db, Perform(db, op))
  {
  }

  lemma {:induction false} DeleteKeepsCores(db: Db, op: Op)
    requires Possible(db, op) && op.DeleteMappingOp?
    ensures CoresKept(db, Perform(db, op))
  {
  }

  lemma {:induction false} MovedKeepsCores(db: Db, mid: Db, moved: seq<Id>, place: Place)
    requires mid.elements == db.elements
    ensures CoresKept(db, Moved(mid, moved, place)) && CoresKept(db, mid)
    ensures Moved(mid, moved, place).elements.Keys == db.elements.Keys
  {
  }

  lemma {:induction false} AssignKeepsCores(db: Db, op: Op)
    requires Possible(db, op) && (op.AssignToFloorOp? || op.AssignToForecourtOp?)
    ensures CoresKept(db, Perform(db, op)) && Perform(db, op).elements.Keys == db.elements.Keys
  {
    var c, moved := TargetConfig(db, op.space, op.explicit, op.oldest), Movable(db, op.space, op.ids);
    if c.Some? && op.space in db.spaces {
      if op.AssignToFloorOp? {
        var found := EnsureFloor(db, c.value, op.answer, op.level, op.info);
        AssignedResult(db, op.space, op.explicit, op.oldest, op.ids, op.level, op.info, op.answer, c.value);
        MovedKeepsCores(db, found.db, moved, OnFloor(found.row));
      } else {
        ForecourtAssigned(db, op.space, op.explicit, op.oldest, op.ids, c.value);
        MovedKeepsCores(db, EnsureForecourt(db, c.value), moved, OnForecourt(c.value));
      }
    }
  }

  /**
   Over every run whose saves show the core attributes of the rows they list, a mapped shop keeps its own until its
   mapping is changed.
   */
  lemma {:induction false} RunKeepsShopCore(states: seq<Db>, ops: seq<Op>, location: string)
    requires Run(states, ops) && Sound(states[0]) && location in states[0].mappings
    requires forall k :: 0 <= k < |ops| && (ops[k].CreateMappingOp? || ops[k].DeleteMappingOp?) ==>
               ops[k].location != location
    requires forall k :: 0 <= k < |ops| ==> OpShowsCores(states[k], ops[k])
    ensures var e, after := states[0].mappings[location], states[|ops|];
            && location in after.mappings && after.mappings[location] == e
            && e in states[0].elements && e in after.elements
            && after.elements[e].body.core == states[0].elements[e].body.core
  {
    RunKeepsShop(states, ops, location);
    if ops != [] {
      var n := |ops| - 1;
      RunKeepsShop(states[..n + 1], ops[..n], location);
      RunKeepsShopCore(states[..n + 1], ops[..n], location);
      RunKeepsMappings(states[..n + 1], ops[..n]);
      assert states[n + 1] == Perform(states[n], ops[n]);
      PerformKeepsCores(states[n], ops[n]);
    }
  }

  // ----- Every run: loads and saves show them ------------------------------------------------------------------

  ghost predicate JsonShowsCores(db: Db, c: Id) {
    c in db.configs && PlanShowsCores(db, db.configs[c].data)
  }

  lemma {:induction false} JsonAtShows(db: Db, fs: seq<JsonFloor>, level: int)
    requires FloorsShowCores(db, fs)
    ensures ShowCores(db, JsonAt(fs, level))
  {
    if fs != [] {
      JsonAtShows(db, fs[..|fs| - 1], level);
    }
  }

  lemma {:induction false} IdlessFrom(els: seq<JsonElement>)
    ensures forall el :: el in Idless(els) ==> el in els
  {
    if els != [] {
      IdlessFrom(els[..|els| - 1]);
    }
  }

  /** What loading gives shows the core attributes of the rows, while the JSON does. */
  lemma {:induction false} LoadShowsCores(db: Db, c: Id, order: seq<Id>, scan: seq<Id>, p: PlanJson)
    requires LoadReady(db, c, order, scan) && IsLoad(db, c, order, scan, p) && JsonShowsCores(db, c)
    ensures PlanShowsCores(db, p)
  {
    var fs := db.configs[c].data.floors;
    forall i | 0 <= i < |p.floors| ensures ShowCores(db, p.floors[i].elements) {
      var level := p.floors[i].level;
      JsonAtShows(db, fs, level);
      KeptFrom([], JsonAt(fs, level) + RowsAt(db, order, scan, level));
      RowsAtShown(db, order, scan, level);
      IdlessFrom(JsonAt(fs, level));
    }
  }

  /** Rows that are new have ids of their own. */
  ghost predicate NewAreFresh(db: Db, after: Db) {
    forall x :: x in after.elements && x !in db.elements ==> x >= db.nextElement
  }

  /** JSON from the past still shows the cores of the rows. */
  lemma {:induction false} StillShows(db: Db, after: Db, json: PlanJson)
    requires PlanShowsCores(db, json) && PlanFromPast(db, json) && CoresKept(db, after) && NewAreFresh(db, after)
    ensures PlanShowsCores(after, json)
  {
    forall i | 0 <= i < |json.floors| ensures ShowCores(after, json.floors[i].elements) {
      assert FloorFromPast(db, json.floors[i]);
      ElementsStillShow(db, after, json.floors[i].elements);
    }
    if json.forecourt.Some? {
      assert ZoneIdsOf(json.forecourt) == IdsOf(json.forecourt.value.elements);
      ElementsStillShow(db, after, json.forecourt.value.elements);
    }
  }

  lemma {:induction false} ElementsStillShow(db: Db, after: Db, els: seq<JsonElement>)
    requires ShowCores(db, els) && (forall x :: x in IdsOf(els) ==> x < db.nextElement)
    requires CoresKept(db, after) && NewAreFresh(db, after)
    ensures ShowCores(after, els)
  {
    forall el | el in els && el.id.Some? && el.id.value in after.elements
      ensures el.body.core == after.elements[el.id.value].body.core
    {
      var k :| 0 <= k < |els| && els[k] == el;
      IdsAt(els, el.id.value);
    }
  }

  /** The plan a save returns, and stores, shows the cores of the rows it leaves. */
  lemma {:induction false} SavedShowsCores(db: Db, c: Id, p: PlanJson, q: Query)
    requires SaveReady(db, c, q) && PlanShowsCores(db, p)
    ensures JsonShowsCores(SaveInto(db, c, p, q).db, c) && NewAreFresh(db, SaveInto(db, c, p, q).db)
  {
    var s := SaveInto(db, c, p, q);
    ReturnedShowsCores(db, c, p, q);
    SaveKeepsCores(db, c, p, q);
    ReturnedIsStored(db, c, p, q);
    SavedIdsKept(db, c, p, q);
    SaveIsPrepared(db, c, p, q);
    SaveElements(db, c, p, q);
    ExistingBelow(db, c);
    forall i | 0 <= i < |s.plan.floors| ensures ShowCores(s.db, s.plan.floors[i].elements) {
      StoredShows(db, c, s, s.plan.floors[i].elements, OnFloor(s.plan.floors[i].id.GetOr(0)));
    }
    if s.plan.forecourt.Some? {
      StoredShows(db, c, s, s.plan.forecourt.value.elements, OnForecourt(c));
    }
  }

  lemma {:induction false} StoredShows(db: Db, c: Id, s: Saved, els: seq<JsonElement>, place: Place)
    requires ShowCores(db, els) && CoresKept(db, s.db)
    requires forall x :: x !in Existing(db, c) ==> Count(PlanIds(s.plan), x) <= 1
    requires forall x :: x in Existing(db, c) ==> x in db.elements
    requires forall k :: 0 <= k < |els| ==> StoredAs(s.db, s.plan, els[k], place)
    ensures ShowCores(s.db, els)
  {
    forall el | el in els && el.id.Some? && el.id.value in s.db.elements
      ensures el.body.core == s.db.elements[el.id.value].body.core
    {
      var k :| 0 <= k < |els| && els[k] == el;
      assert StoredAs(s.db, s.plan, els[k], place);
    }
  }

  lemma {:induction false} WithoutShows(db: Db, els: seq<JsonElement>, moved: seq<Id>)
    requires ShowCores(db, els)
    ensures ShowCores(db, Without(els, moved))
  {
    if els != [] {
      WithoutShows(db, els[..|els| - 1], moved);
    }
  }

  lemma {:induction false} FloorsWithoutShow(db: Db, fs: seq<JsonFloor>, moved: seq<Id>)
    requires FloorsShowCores(db, fs)
    ensures FloorsShowCores(db, FloorsWithout(fs, moved))
  {
    forall i | 0 <= i < |fs| ensures ShowCores(db, FloorsWithout(fs, moved)[i].elements) {
      WithoutShows(db, fs[i].elements, moved);
    }
  }

  lemma {:induction false} AddedShows(db: Db, fs: seq<JsonFloor>, f: Id, row: FloorRow, els: seq<JsonElement>)
    requires FloorsShowCores(db, fs) && ShowCores(db, els)
    ensures FloorsShowCores(db, AddToFloor(fs, f, row, els)) && FloorsShowCores(db, WithFloor(fs, f, row))
  {
  }

  lemma {:induction false} StubsShow(db: Db, moved: seq<Id>)
    ensures ShowCores(db, Stubs(db, moved))
  {
    if moved != [] {
      StubsShow(db, moved[..|moved| - 1]);
    }
  }

  lemma {:induction false} NonEmptyShow(db: Db, fs: seq<JsonFloor>, keep: Option<Id>)
    requires FloorsShowCores(db, fs)
    ensures FloorsShowCores(db, NonEmptyFloors(fs, keep))
  {
    var r := NonEmptyFloors(fs, keep);
    NonEmptyAreThere(fs, keep);
    forall i | 0 <= i < |r| ensures ShowCores(db, r[i].elements) {
      assert r[i] in fs;
    }
  }

  lemma {:induction false} MovedToFloorShows(db: Db, json: PlanJson, f: Id, row: FloorRow, moved: seq<Id>)
    requires PlanShowsCores(db, json)
    ensures PlanShowsCores(db, JsonMovedToFloor(db, json, f, row, moved))
  {
    FloorsWithoutShow(db, json.floors, moved);
    StubsShow(db, moved);
    AddedShows(db, FloorsWithout(json.floors, moved), f, row, Stubs(db, moved));
    NonEmptyShow(db, AddToFloor(FloorsWithout(json.floors, moved), f, row, Stubs(db, moved)), Some(f));
  }

  lemma {:induction false} AllShow(db: Db, fs: seq<JsonFloor>)
    requires FloorsShowCores(db, fs)
    ensures ShowCores(db, AllElements(fs))
  {
    if fs != [] {
      AllShow(db, fs[..|fs| - 1]);
    }
  }

  lemma {:induction false} FirstIsAmong(els: seq<JsonElement>, x: Id)
    ensures FirstWithId(els, x).Some? ==> FirstWithId(els, x).value in els
  {
    if els != [] {
      FirstIsAmong(els[1..], x);
    }
  }

  lemma {:induction false} JoinedShows(db: Db, els: seq<JsonElement>, all: seq<JsonElement>, moved: seq<Id>)
    requires ShowCores(db, els) && ShowCores(db, all)
    ensures ShowCores(db, JoinForecourt(db, els, all, moved))
  {
    if moved != [] {
      JoinedShows(db, els, all, moved[..|moved| - 1]);
      FirstIsAmong(all, moved[|moved| - 1]);
    }
  }

  lemma {:induction false} MovedToForecourtShows(db: Db, json: PlanJson, row: ZoneRow, moved: seq<Id>)
    requires PlanShowsCores(db, json)
    ensures PlanShowsCores(db, JsonMovedToForecourt(db, json, row, moved))
  {
    FloorsWithoutShow(db, json.floors, moved);
    NonEmptyShow(db, FloorsWithout(json.floors, moved), None);
    AllShow(db, json.floors);
    JoinedShows(db, if json.forecourt.Some? then json.forecourt.value.elements else [], AllElements(json.floors),
                moved);
  }

  lemma {:induction false} WithoutElementShows(db: Db, json: PlanJson, e: Id)
    requires PlanShowsCores(db, json)
    ensures PlanShowsCores(db, JsonWithoutElement(json, e))
  {
    FloorsWithoutShow(db, json.floors, [e]);
    if json.forecourt.Some? {
      WithoutShows(db, json.forecourt.value.elements, [e]);
    }
  }

  // Each operation keeps the JSON showing the cores of the rows.

  lemma {:induction false} ElsewhereShows(db: Db, after: Db, c: Id)
    requires c in db.configs && c in after.configs && after.configs[c].data == db.configs[c].data
    requires JsonShowsCores(db, c) && JsonFromPast(db, c) && CoresKept(db, after) && NewAreFresh(db, after)
    ensures JsonShowsCores(after, c)
  {
    StillShows(db, after, db.configs[c].data);
  }

  lemma {:induction false} SaveShows(db: Db, d: Id, space: Id, data: PlanJson, q: Query, c: Id)
    requires Valid(db) && Answers(db, d, q) && PlanShowsCores(db, data) && SavePlan(db, d, space, data, q).Ok?
    requires JsonShowsCores(db, c) && JsonFromPast(db, c)
    ensures JsonShowsCores(SavePlan(db, d, space, data, q).value.db, c)
  {
    var upserted, after := WithConfig(db, d, space, data), SavePlan(db, d, space, data, q).value.db;
    UpsertedReady(db, d, space, data, q);
    SameRowsShow(db, upserted, data);
    SavedShowsCores(upserted, d, data, q);
    if d != c {
      OtherConfigsUntouched(upserted, d, data, q, c);
      SavePlanKeepsCores(db, d, space, data, q);
      SameRowsFresh(db, upserted, after);
      ElsewhereShows(db, after, c);
    }
  }

  lemma {:induction false} SameRowsFresh(db: Db, mid: Db, after: Db)
    requires mid.elements == db.elements && mid.nextElement == db.nextElement && NewAreFresh(mid, after)
    ensures NewAreFresh(db, after)
  {
  }

  lemma {:induction false} QuickCreateShows(db: Db, op: Op, c: Id)
    requires Sound(db) && Possible(db, op) && op.QuickCreateOp? && JsonShowsCores(db, c) && JsonFromPast(db, c)
    ensures JsonShowsCores(Perform(db, op), c)
  {
    var d := TargetConfig(db, op.space, op.explicit, op.oldest);
    if d.Some? && op.space in db.spaces {
      var found := EnsureFloor(db, d.value, op.answer, 0, "RDC");
      CreatedShows(db, found.db, found.row, op.body, c);
      if d == Some(c) {
        NewElementShows(found.db, found.row, found.db.floors[found.row], op.body, db.configs[c].data);
      }
      WrittenAfter(WithElement(found.db, found.row, op.body), Perform(db, op), c, d.value,
                   JsonWithElement(db.configs[d.value].data, found.row, found.db.floors[found.row],
                                   NewElement(found.db, op.body)));
    }
  }

  lemma {:induction false} CreatedShows(db: Db, mid: Db, f: Id, body: Body, c: Id)
    requires Valid(db) && c in db.configs && mid.elements == db.elements && mid.nextElement == db.nextElement
    requires JsonShowsCores(db, c) && JsonFromPast(db, c)
    ensures PlanShowsCores(WithElement(mid, f, body), db.configs[c].data)
  {
    StillShows(db, WithElement(mid, f, body), db.configs[c].data);
  }

  lemma {:induction false} NewElementShows(db: Db, f: Id, row: FloorRow, body: Body, json: PlanJson)
    requires PlanShowsCores(WithElement(db, f, body), json)
    ensures PlanShowsCores(WithElement(db, f, body), JsonWithElement(json, f, row, NewElement(db, body)))
  {
    AddedShows(WithElement(db, f, body), json.floors, f, row, [NewElement(db, body)]);
  }

  lemma {:induction false} WrittenAfter(mid: Db, after: Db, c: Id, d: Id, json: PlanJson)
    requires c in mid.configs && d in mid.configs && after == WriteJson(mid, d, json)
    requires PlanShowsCores(mid, mid.configs[c].data) && (d == c ==> PlanShowsCores(mid, json))
    ensures JsonShowsCores(after, c)
  {
    SameRowsShow(mid, after, after.configs[c].data);
  }

  lemma {:induction false} AssignToFloorShows(db: Db, op: Op, c: Id)
    requires Sound(db) && Possible(db, op) && op.AssignToFloorOp? && JsonShowsCores(db, c) && JsonFromPast(db, c)
    ensures JsonShowsCores(Perform(db, op), c)
  {
    var d, moved := TargetConfig(db, op.space, op.explicit, op.oldest), Movable(db, op.space, op.ids);
    AssignKeepsCores(db, op);
    if d.Some? && op.space in db.spaces {
      var found := EnsureFloor(db, d.value, op.answer, op.level, op.info);
      var placed := Moved(found.db, moved, OnFloor(found.row));
      AssignedResult(db, op.space, op.explicit, op.oldest, op.ids, op.level, op.info, op.answer, d.value);
      MovedKeepsCores(db, found.db, moved, OnFloor(found.row));
      StillShows(db, placed, db.configs[c].data);
      MovedToFloorShows(placed, db.configs[c].data, found.row, found.db.floors[found.row], moved);
      WrittenShows(db, placed, Perform(db, op), c, d.value,
                   JsonMovedToFloor(placed, db.configs[d.value].data, found.row, found.db.floors[found.row], moved));
    }
  }

  lemma {:induction false} WrittenShows(db: Db, placed: Db, after: Db, c: Id, d: Id, json: PlanJson)
    requires c in db.configs && d in db.configs && placed.configs == db.configs
    requires PlanShowsCores(placed, db.configs[c].data) && (d == c ==> PlanShowsCores(placed, json))
    requires after == WriteJson(placed, d, json) || (after.elements == db.elements && after.configs == db.configs)
    requires PlanShowsCores(db, db.configs[c].data)
    ensures JsonShowsCores(after, c)
  {
    SameRowsShow(placed, WriteJson(placed, d, json), db.configs[c].data);
    if d == c {
      SameRowsShow(placed, WriteJson(placed, d, json), json);
    }
    if after.elements == db.elements {
      SameRowsShow(db, after, db.configs[c].data);
    }
  }

  lemma {:induction false} AssignToForecourtShows(db: Db, op: Op, c: Id)
    requires Sound(db) && Possible(db, op) && op.AssignToForecourtOp? && JsonShowsCores(db, c) && JsonFromPast(db, c)
    ensures JsonShowsCores(Perform(db, op), c)
  {
    var d, moved := TargetConfig(db, op.space, op.explicit, op.oldest), Movable(db, op.space, op.ids);
    AssignKeepsCores(db, op);
    if d.Some? && op.space in db.spaces {
      var ensured := EnsureForecourt(db, d.value);
      var placed := Moved(ensured, moved, OnForecourt(d.value));
      ForecourtAssigned(db, op.space, op.explicit, op.oldest, op.ids, d.value);
      MovedKeepsCores(db, ensured, moved, OnForecourt(d.value));
      StillShows(db, placed, db.configs[c].data);
      MovedToForecourtShows(placed, db.configs[c].data, ensured.forecourts[d.value], moved);
      WrittenShows(db, placed, Perform(db, op), c, d.value,
                   JsonMovedToForecourt(placed, db.configs[d.value].data, ensured.forecourts[d.value], moved));
    }
  }

  lemma {:induction false} DeleteShows(db: Db, op: Op, c: Id)
    requires Possible(db, op) && op.DeleteMappingOp? && JsonShowsCores(db, c)
    ensures JsonShowsCores(Perform(db, op), c)
  {
    if op.location in db.mappings {
      WithoutElementShows(db, db.configs[c].data, db.mappings[op.location]);
    }
  }

  lemma {:induction false} PerformShows(db: Db, op: Op, c: Id)
    requires Sound(db) && Possible(db, op) && OpShowsCores(db, op) && JsonShowsCores(db, c) && JsonFromPast(db, c)
    ensures JsonShowsCores(Perform(db, op), c)
  {
    match op
    case SavePlanOp(d, space, data, q) =>
      if SavePlan(db, d, space, data, q).Ok? {
        SaveShows(db, d, space, data, q, c);
      }
    case QuickCreateOp(_, _, _, _, _) => QuickCreateShows(db, op, c);
    case AssignToFloorOp(_, _, _, _, _, _, _) => AssignToFloorShows(db, op, c);
    case AssignToForecourtOp(_, _, _, _) => AssignToForecourtShows(db, op, c);
    case CreateMappingOp(_, _) =>
    case DeleteMappingOp(_) => DeleteShows(db, op, c);
  }

  /** Every save of the run is a load and save of `c`. */
  ghost predicate OnlyLoadSaves(states: seq<Db>, ops: seq<Op>, c: Id)
    requires MeetingRun(states, ops, c)
  {
    forall k :: 0 <= k < |ops| && ops[k].SavePlanOp? ==>
      ops[k].config == c && Valid(states[k]) && IsLoadOf(states[k], c, ops[k].data)
  }

  lemma {:induction false} LoadSaveStep(db: Db, op: Op, c: Id)
    requires Sound(db) && Possible(db, op) && InStep(db, c) && JsonShowsCores(db, c) && Meets(db, op, c)
    requires op.SavePlanOp? ==> op.config == c && IsLoadOf(db, c, op.data)
    ensures OpShowsCores(db, op) && JsonShowsCores(Perform(db, op), c)
    ensures Sound(Perform(db, op)) && InStep(Perform(db, op), c)
  {
    if op.SavePlanOp? {
      var order, scan :| LoadReady(db, c, order, scan) && IsLoad(db, c, order, scan, op.data);
      LoadShowsCores(db, c, order, scan, op.data);
    }
    PerformShows(db, op, c);
    PerformSound(db, op);
    PerformInStepIff(db, op, c);
  }

  /** Step `k` of such a run. */
  lemma {:induction false} StepOf(states: seq<Db>, ops: seq<Op>, c: Id, k: nat)
    requires MeetingRun(states, ops, c) && OnlyLoadSaves(states, ops, c) && k < |ops|
    ensures Possible(states[k], ops[k]) && states[k + 1] == Perform(states[k], ops[k])
    ensures c in states[k].configs && Meets(states[k], ops[k], c)
    ensures ops[k].SavePlanOp? ==>
              ops[k].config == c && Valid(states[k]) && IsLoadOf(states[k], c, ops[k].data)
  {
  }

  ghost predicate AllWell(db: Db, c: Id) {
    Sound(db) && InStep(db, c) && JsonShowsCores(db, c)
  }

  lemma {:induction false} LoadSavesShow(states: seq<Db>, ops: seq<Op>, c: Id, n: nat)
    requires MeetingRun(states, ops, c) && AllWell(states[0], c) && OnlyLoadSaves(states, ops, c) && n <= |ops|
    ensures AllWell(states[n], c)
  {
    if n > 0 {
      var k := n - 1;
      LoadSavesShow(states, ops, c, k);
      StepOf(states, ops, c, k);
      LoadSaveStep(states[k], ops[k], c);
      assert AllWell(Perform(states[k], ops[k]), c);
    }
  }

  /**
   Over every run of loads and saves of a configuration, and quick creations, assignments, mapping creations and
   deletions that meet their conditions, a mapped shop keeps its row, its id and its core attributes.
   */
  lemma {:induction false} LoadSavesKeepShop(states: seq<Db>, ops: seq<Op>, c: Id, location: string)
    requires MeetingRun(states, ops, c) && Sound(states[0]) && InStep(states[0], c) && JsonShowsCores(states[0], c)
    requires OnlyLoadSaves(states, ops, c) && location in states[0].mappings
    requires forall k :: 0 <= k < |ops| && (ops[k].CreateMappingOp? || ops[k].DeleteMappingOp?) ==>
               ops[k].location != location
    ensures var e, after := states[0].mappings[location], states[|ops|];
            && location in after.mappings && after.mappings[location] == e
            && e in states[0].elements && e in after.elements
            && after.elements[e].body.core == states[0].elements[e].body.core
  {
    forall k | 0 <= k < |ops| ensures OpShowsCores(states[k], ops[k]) {
      LoadSavesShow(states, ops, c, k);
      StepOf(states, ops, c, k);
      LoadSaveStep(states[k], ops[k], c);
    }
    RunKeepsShopCore(states, ops, location);
  }

  // ----- What is not kept ----------------------------------------------------------------------------------------

  lemma {:induction false} TimesListed(fs: seq<JsonFloor>, h: JsonFloor, el: JsonElement)
    requires Times(fs, h, el) > 0
    ensures exists j :: 0 <= j < |fs| && SameHeader(fs[j], h) && el in fs[j].elements
  {
    var n := |fs| - 1;
    if !(SameHeader(fs[n], h) && el in fs[n].elements) {
      assert multiset(fs[n].elements)[el] > 0 <==> el in multiset(fs[n].elements);
      TimesListed(fs[..n], h, el);
    }
  }

  lemma {:induction false} ListedTimes(fs: seq<JsonFloor>, j: nat, el: JsonElement)
    requires j < |fs| && el in fs[j].elements
    ensures Times(fs, fs[j], el) > 0
  {
    var n := |fs| - 1;
    if j < n {
      assert fs[..n][j] == fs[j];
      ListedTimes(fs[..n], j, el);
    } else {
      assert el in multiset(fs[n].elements);
    }
  }

  /** Every listing of `x` in the JSON floors has only its core; one is under a header with the id of its row. */
  ghost predicate BareOnly(db: Db, c: Id, x: Id) {
    && c in db.configs && x in db.elements && db.elements[x].place.OnFloor?
    && var fs, bare := db.configs[c].data.floors, JsonElement(Some(x), Body(db.elements[x].body.core, "", ""));
       && (forall j, el :: 0 <= j < |fs| && el in fs[j].elements && el.id == Some(x) ==> el == bare)
       && (exists j :: 0 <= j < |fs| && fs[j].id == Some(db.elements[x].place.floor) && bare in fs[j].elements)
  }

  /** So it is once it has been assigned to a floor. */
  lemma {:induction false} AssignedIsBare(db: Db, space: Id, explicit: Option<Id>, oldest: Option<Id>, ids: seq<Id>,
                                          level: int, info: Info, atLevel: Option<Id>, c: Id, e: JsonFloor, x: Id)
    requires OldestAnswer(db, space, oldest) && TargetConfig(db, space, explicit, oldest) == Some(c)
             && LevelAnswer(db, c, level, atLevel) && space in db.spaces && x in ids && InSpace(db, x, space)
    requires var f := atLevel.GetOr(db.nextFloor);
             EntryFor(db.configs[c].data.floors, f, if atLevel.Some? then db.floors[f] else FloorRow(c, level, info), e)
    ensures var r := AssignToFloor(db, space, explicit, oldest, ids, level, info, atLevel);
            r.Ok? && BareOnly(r.value, c, x) && r.value.elements[x].body == db.elements[x].body
  {
    AssignedJson(db, space, explicit, oldest, ids, level, info, atLevel, c, e);
    AssignedRows(db, space, explicit, oldest, ids, level, info, atLevel, c);
    var after := AssignToFloor(db, space, explicit, oldest, ids, level, info, atLevel).value;
    EntryNames(db.configs[c].data.floors, atLevel.GetOr(db.nextFloor),
               if atLevel.Some? then db.floors[atLevel.value] else FloorRow(c, level, info), e);
    BareFrom(db, db.configs[c].data.floors, after.configs[c].data.floors, Movable(db, space, ids),
             atLevel.GetOr(db.nextFloor), e, x);
  }

  lemma {:induction false} EntryNames(fs: seq<JsonFloor>, f: Id, row: FloorRow, e: JsonFloor)
    requires EntryFor(fs, f, row, e)
    ensures e.id == Some(f)
  {
  }

  lemma {:induction false} BareFrom(db: Db, was: seq<JsonFloor>, now: seq<JsonFloor>, moved: seq<Id>, f: Id,
                                    e: JsonFloor, x: Id)
    requires JoinedFloor(db, was, now, moved, f, e) && x in moved && x in db.elements && e.id == Some(f)
    ensures var bare := JsonElement(Some(x), Body(db.elements[x].body.core, "", ""));
            && (forall j, el :: 0 <= j < |now| && el in now[j].elements && el.id == Some(x) ==> el == bare)
            && (exists j :: 0 <= j < |now| && now[j].id == Some(f) && bare in now[j].elements)
  {
    var bare := JsonElement(Some(x), Body(db.elements[x].body.core, "", ""));
    assert BareRow(db, bare, moved);
    TimesListed(now, e, bare);
    forall j, el | 0 <= j < |now| && el in now[j].elements && el.id == Some(x) ensures el == bare {
      ListedTimes(now, j, el);
      assert Names(el, moved) && BareRow(db, el, moved);
    }
  }

  /**
   The next load and save then stores the core alone: rotation, capacity, notes, picture and tags of an element are
   lost once it is assigned to a floor and the plan is loaded and saved.
   */
  lemma {:induction false} BareIsStored(db: Db, c: Id, order: seq<Id>, scan: seq<Id>, p: PlanJson, q: Query, x: Id)
    requires Loaded(db, c, order, scan, p) && SaveReady(db, c, q) && BareOnly(db, c, x)
             && db.elements[x].place.floor in FloorsOf(db, c)
    ensures var after := SaveInto(db, c, p, q).db;
            x in after.elements && after.elements[x].body == Body(db.elements[x].body.core, "", "")
  {
    var fs, f := db.configs[c].data.floors, db.elements[x].place.floor;
    var j :| 0 <= j < |fs| && fs[j].id == Some(f)
             && JsonElement(Some(x), Body(db.elements[x].body.core, "", "")) in fs[j].elements;
    assert FloorAgrees(db, c, fs[j]) && OnLevel(db, c, x, db.floors[f].level);
    var i := LevelOf(db, c, order, scan, p, x, db.floors[f].level);
    LoadedIds(db, c, order, scan, p, i, x);
    IdsAt(p.floors[i].elements, x);
    var k :| 0 <= k < |p.floors[i].elements| && p.floors[i].elements[k].id == Some(x);
    ShownIsListed(db, c, order, scan, p, i, p.floors[i].elements[k], j);
    ShownIsStored(db, c, order, scan, p, q, i, p.floors[i].elements[k]);
  }

  /** What is shown of an element that the JSON of its level lists is one of the listings. */
  lemma {:induction false} ShownIsListed(db: Db, c: Id, order: seq<Id>, scan: seq<Id>, p: PlanJson, i: nat,
                                         el: JsonElement, j: nat)
    requires LoadReady(db, c, order, scan) && IsLoad(db, c, order, scan, p) && i < |p.floors|
    requires el in p.floors[i].elements && el.id.Some? && j < |db.configs[c].data.floors|
    requires db.configs[c].data.floors[j].level == p.floors[i].level
    requires exists m :: m in db.configs[c].data.floors[j].elements && m.id == el.id
    ensures exists l :: 0 <= l < |db.configs[c].data.floors| && el in db.configs[c].data.floors[l].elements
  {
    var fs := db.configs[c].data.floors;
    var m :| m in fs[j].elements && m.id == el.id;
    var k :| 0 <= k < |fs[j].elements| && fs[j].elements[k] == m;
    var l, n := FirstListing(fs, j, k);
    FirstVersionShown(db, c, order, scan, p, i, l, n);
    LoadedIds(db, c, order, scan, p, i, el.id.value);
    SameId(p.floors[i].elements, el, fs[l].elements[n]);
  }

  lemma {:induction false} SameId(els: seq<JsonElement>, a: JsonElement, b: JsonElement)
    requires Distinct(IdsOf(els)) && a in els && b in els && a.id.Some? && a.id == b.id
    ensures a == b
  {
    var n := |els| - 1;
    DistinctConcat(IdsOf(els[..n]), if els[n].id.Some? then [els[n].id.value] else []);
    assert els == els[..n] + [els[n]];
    if els[n] != a && els[n] != b {
      SameId(els[..n], a, b);
    } else if a != b {
      var other := if els[n] == a then b else a;
      var k :| 0 <= k < n && els[..n][k] == other;
      IdsAt(els[..n], a.id.value);
      LastNotBefore(IdsOf(els[..n]), a.id.value);
    }
  }

  /** The first version of the id that element `k` of floor `j` has. */
  lemma {:induction false} FirstListing(fs: seq<JsonFloor>, j: nat, k: nat) returns (l: nat, n: nat)
    requires j < |fs| && k < |fs[j].elements| && fs[j].elements[k].id.Some?
    ensures FirstVersion(fs, l, n) && fs[l].level == fs[j].level && fs[l].elements[n].id == fs[j].elements[k].id
    decreases j, k
  {
    if l', n' :| 0 <= l' < |fs| && 0 <= n' < |fs[l'].elements| && fs[l'].level == fs[j].level && Earlier(l', n', j, k)
                 && fs[l'].elements[n'].id == fs[j].elements[k].id {
      l, n := FirstListing(fs, l', n');
    } else {
      l, n := j, k;
    }
  }
}
