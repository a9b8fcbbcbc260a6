/**
 What quick creation, the two assignments and the deletion of a mapping make of the rows and of the JSON, read
 off their results alone.
 */
module FloorPlanOpDetails {
  import opened Common
  import opened FloorPlan
  import opened FloorPlanSave
  import opened FloorPlanGuarantees
  import opened FloorPlanOps
  import opened FloorPlanLoad
  import opened FloorPlanCollapse
  import opened FloorPlanAgreement
  import opened FloorPlanSaveAgreement

  // ----- Which configuration an operation works on -----------------------------------------------------------

  /**
   No configuration but `c` changes, nor a floor or forecourt row of another; and `c` is as it was, or it has new data
   and the next version.
   */
  ghost predicate OnlyConfig(db: Db, after: Db, c: Id) {
    && after.configs.Keys == db.configs.Keys
    && (forall d :: d in db.configs && d != c ==> after.configs[d] == db.configs[d])
    && (c in db.configs ==> after.configs[c] == db.configs[c]
                            || after.configs[c] == db.configs[c].(data := after.configs[c].data,
                                                                  version := db.configs[c].version + 1))
    && (forall f :: f in db.floors ==> f in after.floors && after.floors[f] == db.floors[f])
    && (forall f :: f in after.floors && f !in db.floors ==> after.floors[f].config == c)
    && (forall d :: d != c ==> (d in after.forecourts <==> d in db.forecourts)
                               && (d in db.forecourts ==> after.forecourts[d] == db.forecourts[d]))
  }

  /**
   An explicit configuration that is a user configuration of the space is the only one the operation changes,
   whatever the oldest one is; without it, the oldest is, and without any the operation fails.
   */
  ghost predicate WorksOn(db: Db, space: Id, explicit: Option<Id>, oldest: Option<Id>, r: Result<Db, OpError>) {
    if space !in db.spaces then r == Err(NotFound)
    else if explicit.Some? && explicit.value in db.configs && db.configs[explicit.value].space == space
            && !db.configs[explicit.value].isSystem then r.Ok? && OnlyConfig(db, r.value, explicit.value)
    else if oldest.Some? then r.Ok? && OnlyConfig(db, r.value, oldest.value)
    else r == Err(NoUserConfig)
  }

  lemma {:induction false} FloorEnsured(db: Db, c: Id, found: Option<Id>, level: int, info: Info)
    requires Valid(db)
    ensures OnlyConfig(db, EnsureFloor(db, c, found, level, info).db, c)
  {
  }

  lemma {:induction false} ForecourtEnsured(db: Db, c: Id)
    ensures OnlyConfig(db, EnsureForecourt(db, c), c)
  {
  }

  lemma {:induction false} MovedAndWritten(db: Db, mid: Db, moved: seq<Id>, place: Place, c: Id, data: PlanJson)
    requires OnlyConfig(db, mid, c) && c in db.configs && mid.configs == db.configs
    ensures OnlyConfig(db, WriteJson(Moved(mid, moved, place), c, data), c)
  {
  }

  lemma {:induction false} CreatedAndWritten(db: Db, mid: Db, f: Id, body: Body, c: Id, data: PlanJson)
    requires OnlyConfig(db, mid, c) && c in db.configs && mid.configs == db.configs
    ensures OnlyConfig(db, WriteJson(WithElement(mid, f, body), c, data), c)
  {
  }

  lemma {:induction false} QuickCreateWorksOn(db: Db, space: Id, explicit: Option<Id>, oldest: Option<Id>,
                                              lowest: Option<Id>, body: Body)
    requires Valid(db) && OldestAnswer(db, space, oldest)
    requires var c := TargetConfig(db, space, explicit, oldest); c.Some? ==> LowestAnswer(db, c.value, lowest)
    ensures WorksOn(db, space, explicit, oldest, QuickCreate(db, space, explicit, oldest, lowest, body))
  {
    var c := TargetConfig(db, space, explicit, oldest);
    if c.Some? {
      var found := EnsureFloor(db, c.value, lowest, 0, "RDC");
      FloorEnsured(db, c.value, lowest, 0, "RDC");
      CreatedAndWritten(db, found.db, found.row, body, c.value,
                        JsonWithElement(db.configs[c.value].data, found.row, found.db.floors[found.row],
                                        NewElement(found.db, body)));
    }
  }

  lemma {:induction false} AssignToFloorWorksOn(db: Db, space: Id, explicit: Option<Id>, oldest: Option<Id>,
                                                ids: seq<Id>, level: int, info: Info, atLevel: Option<Id>)
    requires Valid(db) && OldestAnswer(db, space, oldest)
    requires var c := TargetConfig(db, space, explicit, oldest); c.Some? ==> LevelAnswer(db, c.value, level, atLevel)
    ensures WorksOn(db, space, explicit, oldest,
                    AssignToFloor(db, space, explicit, oldest, ids, level, info, atLevel))
  {
    var c := TargetConfig(db, space, explicit, oldest);
    if c.Some? && space in db.spaces {
      var found, moved := EnsureFloor(db, c.value, atLevel, level, info), Movable(db, space, ids);
      var placed := Moved(found.db, moved, OnFloor(found.row));
      FloorEnsured(db, c.value, atLevel, level, info);
      AssignedResult(db, space, explicit, oldest, ids, level, info, atLevel, c.value);
      MovedAndWritten(db, found.db, moved, OnFloor(found.row), c.value,
                      JsonMovedToFloor(placed, found.db.configs[c.value].data, found.row, found.db.floors[found.row],
                                       moved));
    }
  }

  lemma {:induction false} AssignToForecourtWorksOn(db: Db, space: Id, explicit: Option<Id>, oldest: Option<Id>,
                                                    ids: seq<Id>)
    requires Valid(db) && OldestAnswer(db, space, oldest)
    ensures WorksOn(db, space, explicit, oldest, AssignToForecourt(db, space, explicit, oldest, ids))
  {
    var c := TargetConfig(db, space, explicit, oldest);
    if c.Some? && space in db.spaces {
      var ensured, moved := EnsureForecourt(db, c.value), Movable(db, space, ids);
      ForecourtEnsured(db, c.value);
      ForecourtAssigned(db, space, explicit, oldest, ids, c.value);
      MovedAndWritten(db, ensured, moved, OnForecourt(c.value), c.value,
                      JsonMovedToForecourt(Moved(ensured, moved, OnForecourt(c.value)), ensured.configs[c.value].data,
                                           ensured.forecourts[c.value], moved));
    }
  }

  // ----- The rows ----------------------------------------------------------------------------------------------

  /** The row found, or else a new one of the configuration with this level and name. */
  ghost predicate FoundOrNew(db: Db, after: Db, c: Id, found: Option<Id>, level: int, info: Info, f: Id) {
    if found.Some? then f == found.value && after.floors == db.floors
    else f == db.nextFloor && after.floors == db.floors[f := FloorRow(c, level, info)]
  }

  /** A quick creation adds one row, on the lowest floor or else on a new ground floor. */
  lemma {:induction false} QuickCreatedRow(db: Db, space: Id, explicit: Option<Id>, oldest: Option<Id>,
                                           lowest: Option<Id>, body: Body, c: Id)
    requires OldestAnswer(db, space, oldest) && TargetConfig(db, space, explicit, oldest) == Some(c)
             && LowestAnswer(db, c, lowest) && space in db.spaces
    ensures var r := QuickCreate(db, space, explicit, oldest, lowest, body);
            && r.Ok? && FoundOrNew(db, r.value, c, lowest, 0, "RDC", lowest.GetOr(db.nextFloor))
            && r.value.elements
               == db.elements[db.nextElement := ElementRow(OnFloor(lowest.GetOr(db.nextFloor)), body)]
  {
  }

  /** Of the requested elements those of the space, and no other, are at the new place, with the attributes they had. */
  ghost predicate RowsMoved(db: Db, after: Db, space: Id, ids: seq<Id>, place: Place) {
    && after.elements.Keys == db.elements.Keys
    && forall e :: e in db.elements ==>
         after.elements[e] == if e in ids && InSpace(db, e, space) then ElementRow(place, db.elements[e].body)
                              else db.elements[e]
  }

  lemma {:induction false} MovedRows(db: Db, mid: Db, space: Id, ids: seq<Id>, place: Place)
    requires mid.elements == db.elements
    ensures RowsMoved(db, Moved(mid, Movable(db, space, ids), place), space, ids, place)
    ensures Movable(db, space, ids) == [] ==> RowsMoved(db, mid, space, ids, place)
  {
    MovableFacts(db, space, ids);
    if Movable(db, space, ids) == [] {
      forall e | e in db.elements ensures !(e in ids && InSpace(db, e, space)) {
        assert e !in Movable(db, space, ids);
      }
    }
  }

  lemma {:induction false} AssignedRows(db: Db, space: Id, explicit: Option<Id>, oldest: Option<Id>, ids: seq<Id>,
                                        level: int, info: Info, atLevel: Option<Id>, c: Id)
    requires OldestAnswer(db, space, oldest) && TargetConfig(db, space, explicit, oldest) == Some(c)
             && LevelAnswer(db, c, level, atLevel) && space in db.spaces
    ensures var r := AssignToFloor(db, space, explicit, oldest, ids, level, info, atLevel);
            && r.Ok? && FoundOrNew(db, r.value, c, atLevel, level, info, atLevel.GetOr(db.nextFloor))
            && RowsMoved(db, r.value, space, ids, OnFloor(atLevel.GetOr(db.nextFloor)))
  {
    AssignedResult(db, space, explicit, oldest, ids, level, info, atLevel, c);
    var found := EnsureFloor(db, c, atLevel, level, info);
    MovedRows(db, found.db, space, ids, OnFloor(found.row));
  }

  lemma {:induction false} ForecourtRows(db: Db, space: Id, explicit: Option<Id>, oldest: Option<Id>, ids: seq<Id>,
                                         c: Id)
    requires OldestAnswer(db, space, oldest) && TargetConfig(db, space, explicit, oldest) == Some(c)
             && space in db.spaces
    ensures var r := AssignToForecourt(db, space, explicit, oldest, ids);
            && r.Ok? && RowsMoved(db, r.value, space, ids, OnForecourt(c))
            && r.value.forecourts == if c in db.forecourts then db.forecourts
                                     else db.forecourts[c := ZoneRow(db.nextZone, "Parvis")]
  {
    ForecourtAssigned(db, space, explicit, oldest, ids, c);
    MovedRows(db, EnsureForecourt(db, c), space, ids, OnForecourt(c));
  }

  // ----- The JSON: what stays ---------------------------------------------------------------------------------

  predicate Names(el: JsonElement, moved: seq<Id>) {
    el.id.Some? && el.id.value in moved
  }

  predicate SameHeader(f: JsonFloor, g: JsonFloor) {
    f.id == g.id && f.level == g.level && f.info == g.info
  }

  /** How often the entries with the header of `h` list an element. */
  function Times(fs: seq<JsonFloor>, h: JsonFloor, el: JsonElement): (n: nat) {
    if fs == [] then 0
    else Times(fs[..|fs| - 1], h, el) +
         if SameHeader(fs[|fs| - 1], h) then multiset(fs[|fs| - 1].elements)[el] else 0
  }

  /** Entries list the elements that are not moved as often as they did, under the same headers. */
  ghost predicate OthersStay(was: seq<JsonFloor>, now: seq<JsonFloor>, moved: seq<Id>) {
    forall h, el :: !Names(el, moved) ==> Times(now, h, el) == Times(was, h, el)
  }

  lemma {:induction false} WithoutTimes(els: seq<JsonElement>, moved: seq<Id>, el: JsonElement)
    ensures multiset(Without(els, moved))[el] == if Names(el, moved) then 0 else multiset(els)[el]
  {
    if els != [] {
      var n := |els| - 1;
      assert els == els[..n] + [els[n]];
      WithoutTimes(els[..n], moved, el);
    }
  }

  lemma {:induction false} FilteredTimes(fs: seq<JsonFloor>, moved: seq<Id>, h: JsonFloor, el: JsonElement)
    ensures Times(FloorsWithout(fs, moved), h, el) == if Names(el, moved) then 0 else Times(fs, h, el)
  {
    if fs != [] {
      var n := |fs| - 1;
      assert FloorsWithout(fs, moved)[..n] == FloorsWithout(fs[..n], moved);
      FilteredTimes(fs[..n], moved, h, el);
      WithoutTimes(fs[n].elements, moved, el);
    }
  }

  lemma {:induction false} NonEmptyTimes(fs: seq<JsonFloor>, keep: Option<Id>, h: JsonFloor, el: JsonElement)
    ensures Times(NonEmptyFloors(fs, keep), h, el) == Times(fs, h, el)
  {
    if fs != [] {
      var n := |fs| - 1;
      NonEmptyTimes(fs[..n], keep, h, el);
      var before := NonEmptyFloors(fs[..n], keep);
      if (keep.Some? && fs[n].id == keep) || fs[n].elements != [] {
        TimesAppend(before, fs[n], h, el);
      } else {
        assert NonEmptyFloors(fs, keep) == before;
      }
    }
  }

  /** Entries that list nothing are gone, except the one kept. */
  lemma {:induction false} NoneEmpty(fs: seq<JsonFloor>, keep: Option<Id>)
    ensures forall f :: f in NonEmptyFloors(fs, keep) ==> f.elements != [] || (keep.Some? && f.id == keep)
  {
    if fs != [] {
      NoneEmpty(fs[..|fs| - 1], keep);
    }
  }

  lemma {:induction false} TimesAppend(fs: seq<JsonFloor>, f: JsonFloor, h: JsonFloor, el: JsonElement)
    ensures Times(fs + [f], h, el) == Times(fs, h, el) + if SameHeader(f, h) then multiset(f.elements)[el] else 0
  {
    assert (fs + [f])[..|fs|] == fs;
  }

  lemma {:induction false} TimesUpdate(fs: seq<JsonFloor>, i: nat, els: seq<JsonElement>, h: JsonFloor, el: JsonElement)
    requires i < |fs|
    ensures Times(fs[i := fs[i].(elements := fs[i].elements + els)], h, el)
            == Times(fs, h, el) + if SameHeader(fs[i], h) then multiset(els)[el] else 0
  {
    var n, gs := |fs| - 1, fs[i := fs[i].(elements := fs[i].elements + els)];
    if i < n {
      assert gs[..n] == fs[..n][i := fs[..n][i].(elements := fs[..n][i].elements + els)] && gs[n] == fs[n];
      TimesUpdate(fs[..n], i, els, h, el);
    } else {
      assert gs[..n] == fs[..n];
      assert multiset(fs[n].elements + els) == multiset(fs[n].elements) + multiset(els);
    }
  }

  /** The entry that elements for a row join: the first with its id, or a new one with the row's level and name. */
  ghost predicate EntryFor(fs: seq<JsonFloor>, f: Id, row: FloorRow, h: JsonFloor) {
    if exists g :: g in fs && g.id == Some(f) then
      exists i :: 0 <= i < |fs| && fs[i].id == Some(f) && SameHeader(h, fs[i])
                  && forall j :: 0 <= j < i ==> fs[j].id != Some(f)
    else h.id == Some(f) && h.level == row.level && h.info == row.info
  }

  lemma {:induction false} AddedTimes(fs: seq<JsonFloor>, f: Id, row: FloorRow, els: seq<JsonElement>, h: JsonFloor,
                                      e: JsonFloor, el: JsonElement)
    requires EntryFor(fs, f, row, e)
    ensures Times(AddToFloor(fs, f, row, els), h, el)
            == Times(fs, h, el) + if SameHeader(e, h) then multiset(els)[el] else 0
  {
    var i := FindFloor(fs, f);
    if i < |fs| {
      assert fs[i] in fs;
      TimesUpdate(fs, i, els, h, el);
    } else {
      assert forall g :: g in fs ==> g.id != Some(f);
      var gs := fs + [JsonFloor(Some(f), row.level, row.info, [])];
      TimesUpdate(gs, i, els, h, el);
      TimesAppend(fs, JsonFloor(Some(f), row.level, row.info, []), h, el);
    }
  }

  // ----- The JSON of an assignment ----------------------------------------------------------------------------

  /** What a moved element looks like in the JSON when it is written anew: its row's core attributes. */
  predicate BareRow(db: Db, el: JsonElement, moved: seq<Id>) {
    && Names(el, moved) && el.id.value in db.elements
    && el.body == Body(db.elements[el.id.value].body.core, "", "")
  }

  lemma {:induction false} StubsAre(db: Db, moved: seq<Id>)
    ensures forall el :: el in Stubs(db, moved) ==> BareRow(db, el, moved)
  {
    if moved != [] {
      assert moved == moved[..|moved| - 1] + [moved[|moved| - 1]];
      StubsAre(db, moved[..|moved| - 1]);
    }
  }

  lemma {:induction false} StubsTimes(db: Db, moved: seq<Id>, el: JsonElement)
    ensures !Names(el, moved) ==> multiset(Stubs(db, moved))[el] == 0
    ensures BareRow(db, el, moved) ==> multiset(Stubs(db, moved))[el] >= 1
  {
    StubsAre(db, moved);
    assert el in Stubs(db, moved) <==> el in multiset(Stubs(db, moved));
    if BareRow(db, el, moved) {
      StubIds(db, moved, el.id.value);
      IdsAt(Stubs(db, moved), el.id.value);
      var k :| 0 <= k < |Stubs(db, moved)| && Stubs(db, moved)[k].id == el.id;
      assert Stubs(db, moved)[k] in Stubs(db, moved);
      assert Stubs(db, moved)[k] == el;
    }
  }

  /**
   The floors of the JSON once elements are assigned to row `f`: those not moved stay under their headers; each
   moved element is listed in the entry for `f` (named by header `e`), as its row's core, and nowhere else; entries
   that list nothing are gone, except the entry for `f`.
   */
  ghost predicate JoinedFloor(db: Db, was: seq<JsonFloor>, now: seq<JsonFloor>, moved: seq<Id>, f: Id, e: JsonFloor) {
    && OthersStay(was, now, moved)
    && (forall el :: BareRow(db, el, moved) ==> Times(now, e, el) >= 1)
    && (forall h, el :: Names(el, moved) && Times(now, h, el) > 0 ==> BareRow(db, el, moved) && SameHeader(h, e))
    && (forall g :: g in now ==> g.elements != [] || g.id == Some(f))
  }

  lemma {:induction false} MovedToFloorTimes(db: Db, json: PlanJson, f: Id, row: FloorRow, moved: seq<Id>, e: JsonFloor,
                                             h: JsonFloor, el: JsonElement)
    requires EntryFor(json.floors, f, row, e)
    ensures var now := JsonMovedToFloor(db, json, f, row, moved).floors;
            Times(now, h, el) == (if Names(el, moved) then 0 else Times(json.floors, h, el))
                                 + if SameHeader(e, h) then multiset(Stubs(db, moved))[el] else 0
  {
    var without := FloorsWithout(json.floors, moved);
    FilteredTimes(json.floors, moved, h, el);
    SameEntry(json.floors, without, f, row, e);
    AddedTimes(without, f, row, Stubs(db, moved), h, e, el);
    NonEmptyTimes(AddToFloor(without, f, row, Stubs(db, moved)), Some(f), h, el);
  }

  lemma {:induction false} SameEntry(fs: seq<JsonFloor>, gs: seq<JsonFloor>, f: Id, row: FloorRow, e: JsonFloor)
    requires |fs| == |gs| && (forall i :: 0 <= i < |fs| ==> SameHeader(fs[i], gs[i])) && EntryFor(fs, f, row, e)
    ensures EntryFor(gs, f, row, e)
  {
    if g :| g in fs && g.id == Some(f) {
      var i :| 0 <= i < |fs| && fs[i].id == Some(f) && SameHeader(e, fs[i])
               && forall j :: 0 <= j < i ==> fs[j].id != Some(f);
      assert gs[i] in gs && SameHeader(e, gs[i]);
    } else {
      forall g | g in gs ensures g.id != Some(f) {
        var i :| 0 <= i < |gs| && gs[i] == g;
        assert fs[i] in fs;
      }
    }
  }

  /** Assigning elements to a floor, the JSON. */
  lemma {:induction false} MovedToFloorJson(db: Db, json: PlanJson, f: Id, row: FloorRow, moved: seq<Id>, e: JsonFloor)
    requires EntryFor(json.floors, f, row, e)
    ensures var now := JsonMovedToFloor(db, json, f, row, moved);
            now.forecourt == json.forecourt && now.merch == json.merch
            && JoinedFloor(db, json.floors, now.floors, moved, f, e)
  {
    var now := JsonMovedToFloor(db, json, f, row, moved).floors;
    forall h, el ensures (!Names(el, moved) ==> Times(now, h, el) == Times(json.floors, h, el))
                         && (BareRow(db, el, moved) ==> Times(now, e, el) >= 1)
                         && (Names(el, moved) && Times(now, h, el) > 0 ==> BareRow(db, el, moved) && SameHeader(h, e))
    {
      MovedToFloorTimes(db, json, f, row, moved, e, h, el);
      MovedToFloorTimes(db, json, f, row, moved, e, e, el);
      StubsTimes(db, moved, el);
      StubsAre(db, moved);
      assert el in Stubs(db, moved) <==> el in multiset(Stubs(db, moved));
    }
    NoneEmpty(AddToFloor(FloorsWithout(json.floors, moved), f, row, Stubs(db, moved)), Some(f));
  }

  /**
   `assignElementsToFloorLevel`: when any element moves, the JSON of the configuration changes so; the forecourt and
   the external zone stay.
   */
  lemma {:induction false} AssignedJson(db: Db, space: Id, explicit: Option<Id>, oldest: Option<Id>, ids: seq<Id>,
                                        level: int, info: Info, atLevel: Option<Id>, c: Id, e: JsonFloor)
    requires OldestAnswer(db, space, oldest) && TargetConfig(db, space, explicit, oldest) == Some(c)
             && LevelAnswer(db, c, level, atLevel) && space in db.spaces
    requires var f := atLevel.GetOr(db.nextFloor);
             EntryFor(db.configs[c].data.floors, f, if atLevel.Some? then db.floors[f] else FloorRow(c, level, info), e)
    ensures var r := AssignToFloor(db, space, explicit, oldest, ids, level, info, atLevel);
            var moved := Movable(db, space, ids);
            && r.Ok? && (forall x :: x in moved <==> x in ids && InSpace(db, x, space))
            && var was, now := db.configs[c].data, r.value.configs[c].data;
               if moved == [] then now == was
               else now.forecourt == was.forecourt && now.merch == was.merch
                    && JoinedFloor(db, was.floors, now.floors, moved, atLevel.GetOr(db.nextFloor), e)
  {
    var found, moved := EnsureFloor(db, c, atLevel, level, info), Movable(db, space, ids);
    var placed := Moved(found.db, moved, OnFloor(found.row));
    AssignedResult(db, space, explicit, oldest, ids, level, info, atLevel, c);
    MovableFacts(db, space, ids);
    MovedToFloorJson(placed, db.configs[c].data, found.row, found.db.floors[found.row], moved, e);
    SameBareRows(db, placed, moved, db.configs[c].data.floors,
                 JsonMovedToFloor(placed, db.configs[c].data, found.row, found.db.floors[found.row], moved).floors,
                 found.row, e);
  }

  lemma {:induction false} SameBareRows(db: Db, placed: Db, moved: seq<Id>, was: seq<JsonFloor>, now: seq<JsonFloor>,
                                        f: Id, e: JsonFloor)
    requires placed.elements.Keys == db.elements.Keys
    requires forall x :: x in db.elements ==> placed.elements[x].body == db.elements[x].body
    requires JoinedFloor(placed, was, now, moved, f, e)
    ensures JoinedFloor(db, was, now, moved, f, e)
  {
    forall el ensures BareRow(placed, el, moved) <==> BareRow(db, el, moved) {
    }
  }

  // ----- The JSON of a forecourt assignment -------------------------------------------------------------------

  /** `el` is the first element with its id, floor after floor. */
  ghost predicate FirstOnFloors(fs: seq<JsonFloor>, el: JsonElement) {
    exists j, k :: 0 <= j < |fs| && 0 <= k < |fs[j].elements| && fs[j].elements[k] == el && el.id.Some?
      && forall l, m :: 0 <= l < |fs| && 0 <= m < |fs[l].elements| && (l < j || (l == j && m < k)) ==>
           fs[l].elements[m].id != el.id
  }

  /** A moved element as it joins the forecourt: its first version on the floors, or else its row's core attributes. */
  ghost predicate Joins(db: Db, fs: seq<JsonFloor>, moved: seq<Id>, el: JsonElement) {
    && Names(el, moved)
    && if exists f :: f in fs && Lists(f, el.id.value) then FirstOnFloors(fs, el) else BareRow(db, el, moved)
  }

  lemma {:induction false} FirstWithIdFacts(els: seq<JsonElement>, x: Id)
    ensures FirstWithId(els, x).Some? <==> x in IdsOf(els)
    ensures FirstWithId(els, x).Some? ==> exists k :: 0 <= k < |els| && els[k] == FirstWithId(els, x).value
                                                       && forall m :: 0 <= m < k ==> els[m].id != Some(x)
  {
    IdsAt(els, x);
    if els != [] && els[0].id != Some(x) {
      FirstWithIdFacts(els[1..], x);
      IdsAt(els[1..], x);
      assert forall k :: 0 <= k < |els| - 1 ==> els[1..][k] == els[k + 1];
      if FirstWithId(els[1..], x).Some? {
        var k :| 0 <= k < |els[1..]| && els[1..][k] == FirstWithId(els[1..], x).value
                 && forall m :: 0 <= m < k ==> els[1..][m].id != Some(x);
        forall m | 0 <= m < k + 1 ensures els[m].id != Some(x) {
          assert m > 0 ==> els[1..][m - 1] == els[m];
        }
        assert els[k + 1] == FirstWithId(els, x).value;
      }
    }
  }

  lemma {:induction false} AllElementsIds(fs: seq<JsonFloor>, x: Id)
    ensures x in IdsOf(AllElements(fs)) <==> exists f :: f in fs && Lists(f, x)
  {
    if fs != [] {
      var n := |fs| - 1;
      assert fs == fs[..n] + [fs[n]];
      AllElementsIds(fs[..n], x);
      IdsConcat(AllElements(fs[..n]), fs[n].elements);
      assert fs[n] in fs;
    }
  }

  lemma {:induction false} FirstOfAll(fs: seq<JsonFloor>, k: nat, x: Id)
    requires k < |AllElements(fs)| && AllElements(fs)[k].id == Some(x)
    requires forall m :: 0 <= m < k ==> AllElements(fs)[m].id != Some(x)
    ensures FirstOnFloors(fs, AllElements(fs)[k])
  {
    var n := |fs| - 1;
    var before := AllElements(fs[..n]);
    var el := AllElements(fs)[k];
    if k < |before| {
      assert forall m :: 0 <= m < k ==> AllElements(fs)[m] == before[m];
      FirstOfAll(fs[..n], k, x);
      EarlierFirst(fs, el);
    } else {
      var i := k - |before|;
      assert fs[n].elements[i] == el;
      forall l, m | 0 <= l < |fs| && 0 <= m < |fs[l].elements| && (l < n || (l == n && m < i))
        ensures fs[l].elements[m].id != el.id
      {
        if l < n {
          assert forall q :: 0 <= q < |before| ==> AllElements(fs)[q] == before[q];
          NotAmong(fs[..n], l, m, x);
        } else {
          assert AllElements(fs)[|before| + m] == fs[n].elements[m];
        }
      }
    }
  }

  lemma {:induction false} EarlierFirst(fs: seq<JsonFloor>, el: JsonElement)
    requires fs != [] && FirstOnFloors(fs[..|fs| - 1], el)
    ensures FirstOnFloors(fs, el)
  {
    var gs := fs[..|fs| - 1];
    var j, k :| 0 <= j < |gs| && 0 <= k < |gs[j].elements| && gs[j].elements[k] == el && el.id.Some?
      && forall l, m :: 0 <= l < |gs| && 0 <= m < |gs[l].elements| && (l < j || (l == j && m < k)) ==>
           gs[l].elements[m].id != el.id;
    assert fs[j] == gs[j];
    forall l, m | 0 <= l < |fs| && 0 <= m < |fs[l].elements| && (l < j || (l == j && m < k))
      ensures fs[l].elements[m].id != el.id
    {
      assert gs[l] == fs[l];
    }
  }

  lemma {:induction false} NotAmong(fs: seq<JsonFloor>, l: nat, m: nat, x: Id)
    requires l < |fs| && m < |fs[l].elements|
    requires forall k :: 0 <= k < |AllElements(fs)| ==> AllElements(fs)[k].id != Some(x)
    ensures fs[l].elements[m].id != Some(x)
  {
    var n := |fs| - 1;
    var before := AllElements(fs[..n]);
    if l < n {
      assert forall k :: 0 <= k < |before| ==> AllElements(fs)[k] == before[k];
      assert fs[..n][l] == fs[l];
      NotAmong(fs[..n], l, m, x);
    } else {
      assert AllElements(fs)[|before| + m] == fs[n].elements[m];
    }
  }

  /** The elements of the forecourt first, as they were, and then each moved one that it did not list, once. */
  ghost predicate JoinedZone(db: Db, fs: seq<JsonFloor>, was: seq<JsonElement>, now: seq<JsonElement>, moved: seq<Id>) {
    && |was| <= |now| && now[..|was|] == was
    && (forall k :: |was| <= k < |now| ==> Joins(db, fs, moved, now[k]) && !Names(now[k], IdsOf(was)))
    && (forall x :: x in moved ==> x in IdsOf(now))
  }

  lemma {:induction false} JoinsMore(db: Db, fs: seq<JsonFloor>, moved: seq<Id>, more: seq<Id>, el: JsonElement)
    requires Joins(db, fs, moved, el) && forall x :: x in moved ==> x in more
    ensures Joins(db, fs, more, el)
  {
  }

  lemma {:induction false} JoinedForecourtIs(db: Db, fs: seq<JsonFloor>, els: seq<JsonElement>, moved: seq<Id>)
    requires forall x :: x in moved ==> x in db.elements
    ensures JoinedZone(db, fs, els, JoinForecourt(db, els, AllElements(fs), moved), moved)
  {
    if moved != [] {
      var n := |moved| - 1;
      var x, before := moved[n], JoinForecourt(db, els, AllElements(fs), moved[..n]);
      assert moved == moved[..n] + [x];
      JoinedForecourtIs(db, fs, els, moved[..n]);
      forall k | |els| <= k < |before| ensures Joins(db, fs, moved, before[k]) {
        JoinsMore(db, fs, moved[..n], moved, before[k]);
      }
      if x !in IdsOf(before) {
        NewJoins(db, fs, els, before, moved, x);
      }
    }
  }

  lemma {:induction false} NewJoins(db: Db, fs: seq<JsonFloor>, els: seq<JsonElement>, before: seq<JsonElement>,
                                    moved: seq<Id>, x: Id)
    requires x in moved && x in db.elements && x !in IdsOf(before) && |els| <= |before| && before[..|els|] == els
    ensures var found := FirstWithId(AllElements(fs), x);
            var el := if found.Some? then found.value else JsonElement(Some(x), Bare(db.elements[x].body));
            && Joins(db, fs, moved, el) && !Names(el, IdsOf(els)) && el.id == Some(x)
            && IdsOf(before + [el]) == IdsOf(before) + [x]
  {
    var all := AllElements(fs);
    var found := FirstWithId(all, x);
    var el := if found.Some? then found.value else JsonElement(Some(x), Bare(db.elements[x].body));
    FirstWithIdFacts(all, x);
    AllElementsIds(fs, x);
    if found.Some? {
      var k :| 0 <= k < |all| && all[k] == found.value && forall m :: 0 <= m < k ==> all[m].id != Some(x);
      FirstOfAll(fs, k, x);
    }
    IdsConcat(before, [el]);
    IdsOfOne(el);
    IdsConcat(els, before[|els|..]);
    assert before == els + before[|els|..];
  }

  /** The floors of the JSON without the moved elements, and without the entries that are left empty. */
  ghost predicate WithoutMoved(was: seq<JsonFloor>, now: seq<JsonFloor>, moved: seq<Id>) {
    && OthersStay(was, now, moved)
    && (forall h, el :: Names(el, moved) ==> Times(now, h, el) == 0)
    && (forall g :: g in now ==> g.elements != [])
  }

  lemma {:induction false} FloorsAreLeft(fs: seq<JsonFloor>, moved: seq<Id>)
    ensures WithoutMoved(fs, NonEmptyFloors(FloorsWithout(fs, moved), None), moved)
  {
    var now := NonEmptyFloors(FloorsWithout(fs, moved), None);
    forall h, el ensures Times(now, h, el) == if Names(el, moved) then 0 else Times(fs, h, el) {
      FilteredTimes(fs, moved, h, el);
      NonEmptyTimes(FloorsWithout(fs, moved), None, h, el);
    }
    NoneEmpty(FloorsWithout(fs, moved), None);
  }

  /**
   `assignElementsToForecourt`: when any element moves, the floors of the JSON lose it, and the entries that are left
   empty; the forecourt, made from its row if the JSON had none, gains those it did not list.
   */
  lemma {:induction false} ForecourtJson(db: Db, space: Id, explicit: Option<Id>, oldest: Option<Id>, ids: seq<Id>,
                                         c: Id)
    requires OldestAnswer(db, space, oldest) && TargetConfig(db, space, explicit, oldest) == Some(c)
             && space in db.spaces
    ensures var r, moved := AssignToForecourt(db, space, explicit, oldest, ids), Movable(db, space, ids);
            && r.Ok? && (forall x :: x in moved <==> x in ids && InSpace(db, x, space))
            && c in r.value.configs && c in r.value.forecourts
            && var was, now := db.configs[c].data, r.value.configs[c].data;
               if moved == [] then now == was
               else
                 && now.merch == was.merch && WithoutMoved(was.floors, now.floors, moved) && now.forecourt.Some?
                 && ForecourtJoined(db, was, now.forecourt.value, r.value.forecourts[c], moved)
  {
    var ensured, moved := EnsureForecourt(db, c), Movable(db, space, ids);
    ForecourtAssigned(db, space, explicit, oldest, ids, c);
    MovableFacts(db, space, ids);
    ForecourtIsJoined(db, Moved(ensured, moved, OnForecourt(c)), db.configs[c].data, ensured.forecourts[c], moved);
  }

  lemma {:induction false} ForecourtIsJoined(db: Db, placed: Db, was: PlanJson, row: ZoneRow, moved: seq<Id>)
    requires placed.elements.Keys == db.elements.Keys && forall x :: x in moved ==> x in db.elements
    requires forall x :: x in db.elements ==> placed.elements[x].body == db.elements[x].body
    ensures var now := JsonMovedToForecourt(placed, was, row, moved);
            && now.merch == was.merch && WithoutMoved(was.floors, now.floors, moved) && now.forecourt.Some?
            && ForecourtJoined(db, was, now.forecourt.value, row, moved)
  {
    var now := JsonMovedToForecourt(placed, was, row, moved);
    FloorsAreLeft(was.floors, moved);
    JoinedForecourtIs(placed, was.floors, if was.forecourt.Some? then was.forecourt.value.elements else [], moved);
    SameJoined(db, placed, was, now.forecourt.value, moved);
  }

  ghost predicate ForecourtJoined(db: Db, was: PlanJson, now: JsonZone, row: ZoneRow, moved: seq<Id>) {
    if was.forecourt.Some? then
      && now.id == was.forecourt.value.id && now.info == was.forecourt.value.info
      && JoinedZone(db, was.floors, was.forecourt.value.elements, now.elements, moved)
    else now.id == Some(row.id) && now.info == row.info && JoinedZone(db, was.floors, [], now.elements, moved)
  }

  lemma {:induction false} SameJoined(db: Db, placed: Db, was: PlanJson, now: JsonZone, moved: seq<Id>)
    requires placed.elements.Keys == db.elements.Keys
    requires forall x :: x in db.elements ==> placed.elements[x].body == db.elements[x].body
    requires JoinedZone(placed, was.floors, if was.forecourt.Some? then was.forecourt.value.elements else [],
                        now.elements, moved)
    ensures JoinedZone(db, was.floors, if was.forecourt.Some? then was.forecourt.value.elements else [], now.elements,
                       moved)
  {
    forall el ensures Joins(placed, was.floors, moved, el) <==> Joins(db, was.floors, moved, el) {
    }
  }

  // ----- The JSON of a quick creation -------------------------------------------------------------------------

  /** `quickCreateElement`: the entry for the row lists the new element once more than before; nothing else changes. */
  lemma {:induction false} QuickCreatedJson(db: Db, space: Id, explicit: Option<Id>, oldest: Option<Id>,
                                            lowest: Option<Id>, body: Body, c: Id, e: JsonFloor)
    requires Valid(db) && OldestAnswer(db, space, oldest) && TargetConfig(db, space, explicit, oldest) == Some(c)
             && LowestAnswer(db, c, lowest) && space in db.spaces && JsonFromPast(db, c)
    requires EntryFor(db.configs[c].data.floors, lowest.GetOr(db.nextFloor),
                      if lowest.Some? then db.floors[lowest.value] else FloorRow(c, 0, "RDC"), e)
    ensures var r := QuickCreate(db, space, explicit, oldest, lowest, body);
            && r.Ok? && c in r.value.configs
            && var was, now, el := db.configs[c].data, r.value.configs[c].data, JsonElement(Some(db.nextElement), body);
               && now.forecourt == was.forecourt && now.merch == was.merch
               && forall h, x :: Times(now.floors, h, x)
                                 == Times(was.floors, h, x) + if x == el && SameHeader(e, h) then 1 else 0
  {
    var was, f := db.configs[c].data, lowest.GetOr(db.nextFloor);
    var row := if lowest.Some? then db.floors[f] else FloorRow(c, 0, "RDC");
    var el := JsonElement(Some(db.nextElement), body);
    NotListedYet(db, c, f, row);
    forall h, x ensures Times(AddToFloor(was.floors, f, row, [el]), h, x)
                        == Times(was.floors, h, x) + if x == el && SameHeader(e, h) then 1 else 0
    {
      AddedTimes(was.floors, f, row, [el], h, e, x);
    }
  }

  lemma {:induction false} NotListedYet(db: Db, c: Id, f: Id, row: FloorRow)
    requires c in db.configs && JsonFromPast(db, c)
    ensures var fs := db.configs[c].data.floors;
            db.nextElement !in IdsOf(WithFloor(fs, f, row)[FindFloor(fs, f)].elements)
  {
    var fs := db.configs[c].data.floors;
    if FindFloor(fs, f) < |fs| {
      assert FloorFromPast(db, fs[FindFloor(fs, f)]);
    }
  }

  // ----- Deleting the last mapping of an element --------------------------------------------------------------

  /** The JSON lists `e` nowhere, and everything else as it did. */
  ghost predicate JsonLost(was: PlanJson, now: PlanJson, e: Id) {
    && |now.floors| == |was.floors|
    && (forall i :: 0 <= i < |was.floors| ==> SameHeader(now.floors[i], was.floors[i]))
    && (forall h, el :: Times(now.floors, h, el) == if el.id == Some(e) then 0 else Times(was.floors, h, el))
    && ZoneLost(was.forecourt, now.forecourt, e) && ZoneLost(was.merch, now.merch, e)
  }

  lemma {:induction false} JsonIsLost(json: PlanJson, e: Id)
    ensures JsonLost(json, JsonWithoutElement(json, e), e)
  {
    assert forall el: JsonElement :: Names(el, [e]) <==> el.id == Some(e);
    forall h, el ensures Times(FloorsWithout(json.floors, [e]), h, el)
                         == if el.id == Some(e) then 0 else Times(json.floors, h, el)
    {
      FilteredTimes(json.floors, [e], h, el);
    }
    ZoneIsLost(json.forecourt, e);
    ZoneIsLost(json.merch, e);
  }

  /**
   Once the last mapping of one of the tenant's own elements is deleted, the element is gone: its row, its menu
   assignments and every listing of it in the JSON of its configuration; nothing else is.
   */
  lemma {:induction false} LastMappingDeleted(db: Db, location: string, c: Id)
    requires location in db.mappings && IsOwn(db, db.mappings[location])
    requires ConfigAt(db, db.elements[db.mappings[location]].place) == Some(c)
    requires forall l :: l in db.mappings && l != location ==> db.mappings[l] != db.mappings[location]
    ensures var r, e := DeleteMapping(db, location), db.mappings[location];
            && r.mappings == db.mappings - {location} && r.elements == db.elements - {e}
            && (forall k :: k in r.menus <==> k in db.menus && k.0 != e)
            && (forall k :: k in r.menus ==> r.menus[k] == db.menus[k])
            && OnlyConfig(db, r, c) && r.floors == db.floors
            && c in db.configs && c in r.configs && JsonLost(db.configs[c].data, r.configs[c].data, e)
  {
    var e, mid := db.mappings[location], db.(mappings := db.mappings - {location});
    assert e !in Mapped(mid) && IsOwn(mid, e);
    JsonIsLost(db.configs[c].data, e);
  }

  /** While another mapping is left on the element, or when it is not the tenant's own, only the mapping goes. */
  lemma {:induction false} OtherMappingDeleted(db: Db, location: string)
    requires location in db.mappings ==>
               !IsOwn(db, db.mappings[location])
               || exists l :: l in db.mappings && l != location && db.mappings[l] == db.mappings[location]
    ensures DeleteMapping(db, location) == db.(mappings := db.mappings - {location})
  {
    if location in db.mappings {
      var e, mid := db.mappings[location], db.(mappings := db.mappings - {location});
      if l :| l in db.mappings && l != location && db.mappings[l] == e {
        assert l in mid.mappings;
      }
    } else {
      assert db.mappings - {location} == db.mappings;
    }
  }

  ghost predicate ZoneLost(was: Option<JsonZone>, now: Option<JsonZone>, e: Id) {
    if was.None? then now.None?
    else now.Some? && now.value.id == was.value.id && now.value.info == was.value.info && forall el ::
           multiset(now.value.elements)[el] == if el.id == Some(e) then 0 else multiset(was.value.elements)[el]
  }

  lemma {:induction false} ZoneIsLost(zone: Option<JsonZone>, e: Id)
    ensures zone.Some? ==>
              ZoneLost(zone, Some(zone.value.(elements := Without(zone.value.elements, [e]))), e)
  {
    if zone.Some? {
      forall el ensures multiset(Without(zone.value.elements, [e]))[el]
                        == if el.id == Some(e) then 0 else multiset(zone.value.elements)[el]
      {
        WithoutTimes(zone.value.elements, [e], el);
      }
    }
  }

  // ----- Saving ---------------------------------------------------------------------------------------------------

  /**
   A save stores what it returns in the configuration it names, and leaves the space, the kind and the version as they
   are; a new configuration is a user one of the space. No other configuration changes.
   */
  lemma {:induction false} SavedConfiguration(db: Db, c: Id, space: Id, data: PlanJson, q: Query)
    requires Answers(db, c, q) && SavePlan(db, c, space, data, q).Ok?
    ensures var s := SavePlan(db, c, space, data, q).value;
            && s.db.configs.Keys == db.configs.Keys + {c}
            && (forall d :: d in db.configs && d != c ==> s.db.configs[d] == db.configs[d])
            && (c in db.configs ==> s.db.configs[c] == db.configs[c].(data := s.plan))
            && (c in db.configs && db.configs[c].space in db.spaces ==> db.configs[c].space == space)
            && (c !in db.configs ==> s.db.configs[c] == Config(space, false, s.plan, 0))
  {
  }

  // ----- Mapping --------------------------------------------------------------------------------------------------

  /** The element is on a floor or the forecourt of a configuration of the tenant. */
  predicate OnOwnPlan(db: Db, e: Id) {
    && e in db.elements
    && match db.elements[e].place
       case OnFloor(f) => f in db.floors && OwnConfig(db, db.floors[f].config)
       case OnForecourt(c) => c in db.forecourts && OwnConfig(db, c)
       case OnMerch(_) => false
  }

  predicate OwnConfig(db: Db, c: Id) {
    c in db.configs && db.configs[c].space in db.spaces
  }

  /** A location is mapped to an element of the tenant on a floor or a forecourt, and to no other. */
  lemma {:induction false} MappingCreated(db: Db, location: string, e: Id)
    ensures var r := CreateMapping(db, location, e);
            && (r.Ok? <==> OnOwnPlan(db, e)) && (r.Err? ==> r.error == NotFound)
            && (r.Ok? ==> r.value == db.(mappings := db.mappings[location := e]))
  {
  }
}
