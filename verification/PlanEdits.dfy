/**
 The other operations on the floor plan, over the tables: each loop of the code, against the functions
 of the model.
 */
module PlanEdits {
  import opened Common
  import opened FloorPlan
  import opened FloorPlanSave
  import opened FloorPlanOps
  import opened PlanStore

  // ----- Moving elements ------------------------------------------------------------------------------

  /** A space keeps its elements while they are moved to a place of that space. */
  lemma {:induction false} MovedInSpace(db: Db, moved: seq<Id>, place: Place, space: Id, e: Id)
    requires ConfigAt(db, place).Some? && ConfigAt(db, place).value in db.configs
             && db.configs[ConfigAt(db, place).value].space == space
    requires forall x :: x in moved ==> InSpace(db, x, space)
    ensures InSpace(Moved(db, moved, place), e, space) <==> InSpace(db, e, space)
  {
  }

  lemma {:induction false} MovedSnoc(db: Db, moved: seq<Id>, place: Place, e: Id)
    requires e in db.elements
    ensures Moved(db, moved + [e], place).elements ==
            Moved(db, moved, place).elements[e := db.elements[e].(place := place)]
  {
  }

  lemma {:induction false} MovableInSpace(db: Db, space: Id, ids: seq<Id>)
    ensures forall x :: x in Movable(db, space, ids) ==> InSpace(db, x, space)
  {
    if ids != [] {
      MovableInSpace(db, space, ids[..|ids| - 1]);
    }
  }

  /** New rows hold nothing, so the elements of a space are the same before and after one is created. */
  lemma {:induction false} SameMovable(db: Db, after: Db, space: Id, ids: seq<Id>)
    requires forall e :: InSpace(after, e, space) <==> InSpace(db, e, space)
    ensures Movable(after, space, ids) == Movable(db, space, ids)
  {
    if ids != [] {
      SameMovable(db, after, space, ids[..|ids| - 1]);
    }
  }

  lemma {:induction false} EnsuredFloorInSpace(db: Db, c: Id, found: Option<Id>, level: int, info: Info, space: Id,
                                               ids: seq<Id>)
    requires Valid(db)
    ensures Movable(EnsureFloor(db, c, found, level, info).db, space, ids) == Movable(db, space, ids)
  {
    var after := EnsureFloor(db, c, found, level, info).db;
    forall e ensures InSpace(after, e, space) <==> InSpace(db, e, space) {
    }
    SameMovable(db, after, space, ids);
  }

  lemma {:induction false} EnsuredForecourtInSpace(db: Db, c: Id, space: Id, ids: seq<Id>)
    requires Valid(db)
    ensures Movable(EnsureForecourt(db, c), space, ids) == Movable(db, space, ids)
  {
    forall e ensures InSpace(EnsureForecourt(db, c), e, space) <==> InSpace(db, e, space) {
      EnsuredForecourtSame(db, c, space, e);
    }
    SameMovable(db, EnsureForecourt(db, c), space, ids);
  }

  lemma {:induction false} EnsuredForecourtSame(db: Db, c: Id, space: Id, e: Id)
    requires Valid(db)
    ensures InSpace(EnsureForecourt(db, c), e, space) <==> InSpace(db, e, space)
  {
  }

  lemma {:induction false} MovableNext(db: Db, space: Id, ids: seq<Id>, k: nat)
    requires k < |ids|
    ensures Movable(db, space, ids[..k + 1])
            == Movable(db, space, ids[..k]) + if InSpace(db, ids[k], space) then [ids[k]] else []
  {
    assert ids[..k + 1][..k] == ids[..k];
  }

  /** The loop over the requested ids: each element of the space is moved at once. */
  method MoveElements(store: Store, space: Id, ids: seq<Id>, place: Place) returns (moved: seq<Id>)
    requires var db := store.Contents();
             ConfigAt(db, place).Some? && ConfigAt(db, place).value in db.configs
                 && db.configs[ConfigAt(db, place).value].space == space
    modifies store`elements
    ensures moved == Movable(old(store.Contents()), space, ids)
    ensures store.elements == Moved(old(store.Contents()), moved, place).elements
  {
    ghost var db := store.Contents();
    moved := [];
    for k := 0 to |ids|
      invariant moved == Movable(db, space, ids[..k])
      invariant store.Contents() == Moved(db, moved, place)
    {
      MovableNext(db, space, ids, k);
      MovableInSpace(db, space, ids[..k]);
      MovedInSpace(db, moved, place, space, ids[k]);
      if InSpace(store.Contents(), ids[k], space) {
        MovedSnoc(db, moved, place, ids[k]);
        store.elements := store.elements[ids[k] := store.elements[ids[k]].(place := place)];
        moved := moved + [ids[k]];
      }
    }
    assert ids[..|ids|] == ids;
  }

  // ----- The JSON of a move -----------------------------------------------------------------------------

  method FilterElements(els: seq<JsonElement>, moved: seq<Id>) returns (r: seq<JsonElement>)
    ensures r == Without(els, moved)
  {
    r := [];
    for k := 0 to |els|
      invariant r == Without(els[..k], moved)
    {
      assert els[..k + 1][..k] == els[..k];
      if els[k].id.None? || els[k].id.value !in moved {
        r := r + [els[k]];
      }
    }
    assert els[..|els|] == els;
  }

  method FilterFloors(fs: seq<JsonFloor>, moved: seq<Id>) returns (r: seq<JsonFloor>)
    ensures r == FloorsWithout(fs, moved)
  {
    r := fs;
    for k := 0 to |fs|
      invariant |r| == |fs|
      invariant forall i :: 0 <= i < k ==> r[i] == fs[i].(elements := Without(fs[i].elements, moved))
      invariant forall i :: k <= i < |fs| ==> r[i] == fs[i]
    {
      var els := FilterElements(fs[k].elements, moved);
      r := r[k := fs[k].(elements := els)];
    }
  }

  /** Finds the JSON entry of a floor row, adding one when there is none. */
  method FindOrAddFloor(fs: seq<JsonFloor>, f: Id, row: FloorRow) returns (r: seq<JsonFloor>, i: nat)
    ensures r == WithFloor(fs, f, row) && i == FindFloor(fs, f) && i < |r|
  {
    i := 0;
    while i < |fs| && fs[i].id != Some(f)
      invariant i <= |fs| && forall j :: 0 <= j < i ==> fs[j].id != Some(f)
    {
      i := i + 1;
    }
    r := if i < |fs| then fs else fs + [JsonFloor(Some(f), row.level, row.info, [])];
    assert FindFloor(fs, f) == i;
  }

  method DropEmptyFloors(fs: seq<JsonFloor>, keep: Option<Id>) returns (r: seq<JsonFloor>)
    ensures r == NonEmptyFloors(fs, keep)
  {
    r := [];
    for k := 0 to |fs|
      invariant r == NonEmptyFloors(fs[..k], keep)
    {
      assert fs[..k + 1][..k] == fs[..k];
      if (keep.Some? && fs[k].id == keep) || fs[k].elements != [] {
        r := r + [fs[k]];
      }
    }
    assert fs[..|fs|] == fs;
  }

  /** The elements of every floor, as a search over them sees them. */
  method CollectElements(fs: seq<JsonFloor>) returns (all: seq<JsonElement>)
    ensures all == AllElements(fs)
  {
    all := [];
    for k := 0 to |fs|
      invariant all == AllElements(fs[..k])
    {
      assert fs[..k + 1][..k] == fs[..k];
      all := all + fs[k].elements;
    }
    assert fs[..|fs|] == fs;
  }

  lemma {:induction false} FirstWithIdIn(els: seq<JsonElement>, x: Id)
    ensures FirstWithId(els, x).None? <==> x !in IdsOf(els)
  {
    if els != [] {
      FirstWithIdIn(els[1..], x);
      assert [els[0]] + els[1..] == els;
      IdsConcat([els[0]], els[1..]);
      assert IdsOf([els[0]]) == if els[0].id.Some? then [els[0].id.value] else [] by {
        assert [els[0]][..0] == [];
      }
    }
  }

  lemma {:induction false} WithoutHasNone(els: seq<JsonElement>, moved: seq<Id>, x: Id)
    requires x in moved
    ensures x !in IdsOf(Without(els, moved))
  {
    if els != [] {
      var n := |els| - 1;
      WithoutHasNone(els[..n], moved, x);
      IdsConcat(Without(els[..n], moved), [els[n]]);
      assert IdsOf([els[n]]) == if els[n].id.Some? then [els[n].id.value] else [] by {
        assert [els[n]][..0] == [];
      }
      assert Without(els[..n], moved) + [] == Without(els[..n], moved);
    }
  }

  /** After the filter no floor holds a moved element any more: the search for an old version never finds one. */
  lemma {:induction false} NoneLeft(fs: seq<JsonFloor>, moved: seq<Id>, x: Id)
    requires x in moved && forall i :: 0 <= i < |fs| ==> x !in IdsOf(fs[i].elements)
    ensures FirstWithId(AllElements(fs), x).None?
  {
    if fs != [] {
      var n := |fs| - 1;
      assert forall i :: 0 <= i < n ==> fs[..n][i] == fs[i];
      NoneLeft(fs[..n], moved, x);
      FirstWithIdIn(AllElements(fs[..n]), x);
      FirstWithIdIn(AllElements(fs), x);
      IdsConcat(AllElements(fs[..n]), fs[n].elements);
    }
  }

  lemma {:induction false} FilteredHasNone(fs: seq<JsonFloor>, moved: seq<Id>, f: Id, row: FloorRow, x: Id)
    requires x in moved
    ensures FirstWithId(AllElements(WithFloor(FloorsWithout(fs, moved), f, row)), x).None?
  {
    var gs := WithFloor(FloorsWithout(fs, moved), f, row);
    forall i | 0 <= i < |gs| ensures x !in IdsOf(gs[i].elements) {
      if i < |fs| {
        WithoutHasNone(fs[i].elements, moved, x);
      }
    }
    NoneLeft(gs, moved, x);
  }

  /** `assignElementsToFloorLevel`, the JSON: the moved elements leave every floor and join the target's. */
  method MoveJsonToFloor(store: Store, json: PlanJson, f: Id, row: FloorRow, moved: seq<Id>) returns (r: PlanJson)
    ensures r == JsonMovedToFloor(store.Contents(), json, f, row, moved)
  {
    var filtered := FilterFloors(json.floors, moved);
    var gs, i := FindOrAddFloor(filtered, f, row);
    var all := CollectElements(gs);
    var base, stubs := gs[i].elements, [];
    for k := 0 to |moved|
      invariant stubs == Stubs(store.Contents(), moved[..k])
    {
      assert moved[..k + 1][..k] == moved[..k];
      var existing := FirstWithId(all, moved[k]);
      if existing.Some? {
        // The branch that reuses an old JSON version is dead: the filter above has removed them all.
        FilteredHasNone(json.floors, moved, f, row, moved[k]);
        assert false;
      } else if moved[k] in store.elements {
        stubs := stubs + [JsonElement(Some(moved[k]), Bare(store.elements[moved[k]].body))];
      }
    }
    assert moved[..|moved|] == moved;
    var cleaned := DropEmptyFloors(gs[i := gs[i].(elements := base + stubs)], Some(f));
    r := json.(floors := cleaned);
  }

  /** `assignElementsToForecourt`, the JSON. */
  method MoveJsonToForecourt(store: Store, json: PlanJson, row: ZoneRow, moved: seq<Id>) returns (r: PlanJson)
    ensures r == JsonMovedToForecourt(store.Contents(), json, row, moved)
  {
    var all := CollectElements(json.floors);
    var filtered := FilterFloors(json.floors, moved);
    var zone := if json.forecourt.Some? then json.forecourt.value else JsonZone(Some(row.id), row.info, []);
    var els := zone.elements;
    for k := 0 to |moved|
      invariant els == JoinForecourt(store.Contents(), zone.elements, all, moved[..k])
    {
      assert moved[..k + 1][..k] == moved[..k];
      var existing := FirstWithId(all, moved[k]);
      if moved[k] in IdsOf(els) {
      } else if existing.Some? {
        els := els + [existing.value];
      } else if moved[k] in store.elements {
        els := els + [JsonElement(Some(moved[k]), Bare(store.elements[moved[k]].body))];
      }
    }
    assert moved[..|moved|] == moved;
    var cleaned := DropEmptyFloors(filtered, None);
    r := json.(floors := cleaned, forecourt := Some(zone.(elements := els)));
  }

  // ----- The operations -----------------------------------------------------------------------------------

  method EnsureFloorRow(store: Store, c: Id, found: Option<Id>, level: int, info: Info) returns (row: Id)
    modifies store`floors, store`nextFloor
    ensures row == EnsureFloor(old(store.Contents()), c, found, level, info).row
    ensures store.Contents() == EnsureFloor(old(store.Contents()), c, found, level, info).db
  {
    if found.Some? {
      return found.value;
    }
    row := store.nextFloor;
    store.floors, store.nextFloor := store.floors[row := FloorRow(c, level, info)], row + 1;
  }

  /** The optimistic writer, when no one else writes meanwhile. */
  method WriteConfigJson(store: Store, c: Id, data: PlanJson)
    requires c in store.configs
    modifies store`configs
    ensures store.Contents() == WriteJson(old(store.Contents()), c, data)
  {
    store.configs := store.configs[c := store.configs[c].(data := data, version := store.configs[c].version + 1)];
  }

  /** `quickCreateElement`, the JSON: the element joins the floor's entry unless it is there already. */
  method AddJsonElement(json: PlanJson, f: Id, row: FloorRow, el: JsonElement) returns (r: PlanJson)
    requires el.id.Some?
    ensures r == JsonWithElement(json, f, row, el)
  {
    var gs, i := FindOrAddFloor(json.floors, f, row);
    if el.id.value !in IdsOf(gs[i].elements) {
      gs := gs[i := gs[i].(elements := gs[i].elements + [el])];
    }
    r := json.(floors := gs);
  }

  method CreateElementRow(store: Store, f: Id, body: Body) returns (el: JsonElement)
    modifies store`elements, store`nextElement
    ensures el == NewElement(old(store.Contents()), body)
    ensures store.Contents() == WithElement(old(store.Contents()), f, body)
  {
    var id := store.nextElement;
    store.elements, store.nextElement := store.elements[id := ElementRow(OnFloor(f), body)], id + 1;
    el := JsonElement(Some(id), body);
  }

  /** `quickCreateElement`. */
  method QuickCreateElement(store: Store, space: Id, explicit: Option<Id>, oldest: Option<Id>, lowest: Option<Id>,
                            body: Body) returns (r: Result<Id, OpError>)
    requires OldestAnswer(store.Contents(), space, oldest)
    requires var c := TargetConfig(store.Contents(), space, explicit, oldest); c.Some? ==>
               LowestAnswer(store.Contents(), c.value, lowest)
    modifies store
    ensures var s := QuickCreate(old(store.Contents()), space, explicit, oldest, lowest, body);
            && (s.Ok? ==> r == Ok(old(store.nextElement))) && (s.Err? ==> r == Err(s.error))
            && store.Contents() == Value(old(store.Contents()), s)
  {
    var c := TargetConfig(store.Contents(), space, explicit, oldest);
    if space !in store.spaces {
      return Err(NotFound);
    }
    if c.None? {
      return Err(NoUserConfig);
    }
    var row := EnsureFloorRow(store, c.value, lowest, 0, "RDC");
    var el := CreateElementRow(store, row, body);
    var json := AddJsonElement(store.configs[c.value].data, row, store.floors[row], el);
    WriteConfigJson(store, c.value, json);
    r := Ok(el.id.value);
  }

  /** `assignElementsToFloorLevel`; the elements moved. */
  method AssignElementsToFloorLevel(store: Store, space: Id, explicit: Option<Id>, oldest: Option<Id>, ids: seq<Id>,
                                    level: int, info: Info, atLevel: Option<Id>)
    returns (r: Result<seq<Id>, OpError>)
    requires Valid(store.Contents()) && OldestAnswer(store.Contents(), space, oldest)
    requires var c := TargetConfig(store.Contents(), space, explicit, oldest); c.Some? ==>
               LevelAnswer(store.Contents(), c.value, level, atLevel)
    modifies store
    ensures var s := AssignToFloor(old(store.Contents()), space, explicit, oldest, ids, level, info, atLevel);
            && (s.Ok? ==> r == Ok(Movable(old(store.Contents()), space, ids))) && (s.Err? ==> r == Err(s.error))
            && store.Contents() == Value(old(store.Contents()), s)
  {
    ghost var db := store.Contents();
    var c := TargetConfig(store.Contents(), space, explicit, oldest);
    if space !in store.spaces {
      return Err(NotFound);
    }
    if c.None? {
      return Err(NoUserConfig);
    }
    var row := EnsureFloorRow(store, c.value, atLevel, level, info);
    EnsuredFloorInSpace(db, c.value, atLevel, level, info, space, ids);
    var moved := MoveElements(store, space, ids, OnFloor(row));
    if moved != [] {
      var json := MoveJsonToFloor(store, store.configs[c.value].data, row, store.floors[row], moved);
      WriteConfigJson(store, c.value, json);
    }
    r := Ok(moved);
  }

  /** `assignElementsToForecourt`; the elements moved. */
  method AssignElementsToForecourt(store: Store, space: Id, explicit: Option<Id>, oldest: Option<Id>, ids: seq<Id>)
      returns (r: Result<seq<Id>, OpError>)
    requires Valid(store.Contents()) && OldestAnswer(store.Contents(), space, oldest)
    modifies store
    ensures var s := AssignToForecourt(old(store.Contents()), space, explicit, oldest, ids);
            && (s.Ok? ==> r == Ok(Movable(old(store.Contents()), space, ids))) && (s.Err? ==> r == Err(s.error))
            && store.Contents() == Value(old(store.Contents()), s)
  {
    ghost var db := store.Contents();
    var c := TargetConfig(store.Contents(), space, explicit, oldest);
    if space !in store.spaces {
      return Err(NotFound);
    }
    if c.None? {
      return Err(NoUserConfig);
    }
    if c.value !in store.forecourts {
      store.forecourts, store.nextZone := store.forecourts[c.value := ZoneRow(store.nextZone, "Parvis")],
          store.nextZone + 1;
    }
    EnsuredForecourtInSpace(db, c.value, space, ids);
    var moved := MoveElements(store, space, ids, OnForecourt(c.value));
    if moved != [] {
      var json := MoveJsonToForecourt(store, store.configs[c.value].data, store.forecourts[c.value], moved);
      WriteConfigJson(store, c.value, json);
    }
    r := Ok(moved);
  }

  /** `createLocationShopMapping`. */
  method CreateLocationShopMapping(store: Store, location: string, e: Id) returns (r: Result<Id, OpError>)
    modifies store`mappings
    ensures var s := CreateMapping(old(store.Contents()), location, e);
            && r == (if s.Ok? then Ok(e) else Err(s.error)) && store.Contents() == Value(old(store.Contents()), s)
  {
    if !IsOwn(store.Contents(), e) || store.elements[e].place.OnMerch? {
      return Err(NotFound);
    }
    store.mappings := store.mappings[location := e];
    r := Ok(e);
  }

  /** `deleteElementIfUnreferenced`, the JSON: the element leaves every floor and zone. */
  method RemoveFromJson(json: PlanJson, e: Id) returns (r: PlanJson)
    ensures r == JsonWithoutElement(json, e)
  {
    var floors := FilterFloors(json.floors, [e]);
    var forecourt, merch := json.forecourt, json.merch;
    if forecourt.Some? {
      var els := FilterElements(forecourt.value.elements, [e]);
      forecourt := Some(forecourt.value.(elements := els));
    }
    if merch.Some? {
      var els := FilterElements(merch.value.elements, [e]);
      merch := Some(merch.value.(elements := els));
    }
    r := PlanJson(floors, forecourt, merch);
  }

  /** `deleteElementIfUnreferenced`; true when the element was deleted. */
  method DeleteElementIfUnreferenced(store: Store, e: Id) returns (deleted: bool)
    modifies store
    ensures store.Contents() == DeleteUnreferenced(old(store.Contents()), e)
    ensures deleted <==> e in old(store.elements) && e !in store.elements
  {
    if exists l :: l in store.mappings && store.mappings[l] == e {
      return false;
    }
    if e !in store.elements {
      return false;
    }
    var c := ConfigAt(store.Contents(), store.elements[e].place);
    if c.None? || c.value !in store.configs || store.configs[c.value].space !in store.spaces {
      return false;
    }
    store.elements := store.elements - {e};
    store.menus := map k | k in store.menus && k.0 != e :: store.menus[k];
    var json := RemoveFromJson(store.configs[c.value].data, e);
    if json != store.configs[c.value].data {
      WriteConfigJson(store, c.value, json);
    }
    deleted := true;
  }

  /** `deleteLocationShopMapping`. */
  method DeleteLocationShopMapping(store: Store, location: string)
    modifies store
    ensures store.Contents() == DeleteMapping(old(store.Contents()), location)
  {
    if location in store.mappings {
      var e := store.mappings[location];
      store.mappings := store.mappings - {location};
      var _ := DeleteElementIfUnreferenced(store, e);
    }
  }
}
