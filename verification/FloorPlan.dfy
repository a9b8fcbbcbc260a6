/**
 The floor plan of a space, stored twice: as JSON on its configuration and as floor, forecourt
 and element rows; with the shop mappings and menu assignments that point at the elements
 (spaces.service.ts). This module holds the data and what one plan save computes.

 Ids generated by the database are numbers handed out by a counter per table, so that a generated
 id is never one used before. The name and geometry of a floor or zone are one value.
 */
module FloorPlan {
  import opened Common

  type Id = nat
  type Info = string

  /**
   The drawing attributes of an element, by how far they are carried. `core` (name, type, position, size,
   kinds) is in every form an element is written in. `extras` (3D height, rotation, capacity, picture, notes,
   corners) and `tags` are not: left out, they become the default, "".
   */
  datatype Body = Body(core: string, extras: string, tags: string)

  /** A row as loading a configuration shows it: without its tags. */
  function Shown(b: Body): (r: Body) {
    b.(tags := "")
  }

  /** A row as it is written when it is put back into a payload, or joins a floor or forecourt of the JSON. */
  function Bare(b: Body): (r: Body) {
    Body(b.core, "", "")
  }

  datatype JsonElement = JsonElement(id: Option<Id>, body: Body)
  datatype JsonFloor = JsonFloor(id: Option<Id>, level: int, info: Info, elements: seq<JsonElement>)
  datatype JsonZone = JsonZone(id: Option<Id>, info: Info, elements: seq<JsonElement>)
  datatype PlanJson = PlanJson(floors: seq<JsonFloor>, forecourt: Option<JsonZone>, merch: Option<JsonZone>)

  datatype Config = Config(space: Id, isSystem: bool, data: PlanJson, version: nat)
  datatype FloorRow = FloorRow(config: Id, level: int, info: Info)
  datatype ZoneRow = ZoneRow(id: Id, info: Info)
  // A configuration has at most one forecourt and one external zone, so the row is named by its configuration.
  datatype Place = OnFloor(floor: Id) | OnForecourt(config: Id) | OnMerch(config: Id)
  datatype ElementRow = ElementRow(place: Place, body: Body)

  /**
   The tables as one tenant's requests see them. Spaces and shop mappings carry a tenant, and every query
   on them is filtered by it: these are its own. The others carry none: they hold every tenant's plans.
   */
  datatype Db = Db(
    spaces: set<Id>,
    configs: map<Id, Config>,
    floors: map<Id, FloorRow>,
    forecourts: map<Id, ZoneRow>,   // by configuration
    merches: map<Id, ZoneRow>,      // by configuration
    elements: map<Id, ElementRow>,
    mappings: map<string, Id>,      // shop mapping: Weezevent location -> element, without a foreign key
    menus: map<(Id, Id), bool>,     // menu assignment: (element, menu item) -> enabled
    nextConfig: Id, nextFloor: Id, nextZone: Id, nextElement: Id)

  // ----- Queries --------------------------------------------------------------------------

  function FloorsIn(floors: map<Id, FloorRow>, c: Id): (s: set<Id>) {
    set f | f in floors && floors[f].config == c
  }

  function FloorsOf(db: Db, c: Id): (s: set<Id>) {
    FloorsIn(db.floors, c)
  }

  function ElementsOn(elements: map<Id, ElementRow>, floors: set<Id>): (s: set<Id>) {
    set e | e in elements && elements[e].place.OnFloor? && elements[e].place.floor in floors
  }

  function OnFloors(db: Db, floors: set<Id>): (s: set<Id>) {
    ElementsOn(db.elements, floors)
  }

  function ElementsAt(elements: map<Id, ElementRow>, place: Place): (s: set<Id>) {
    set e | e in elements && elements[e].place == place
  }

  function InForecourt(db: Db, c: Id): (s: set<Id>) {
    ElementsAt(db.elements, OnForecourt(c))
  }

  /** The elements a plan save looks after: those on the configuration's floors and forecourt. */
  function Existing(db: Db, c: Id): (s: set<Id>) {
    OnFloors(db, FloorsOf(db, c)) + InForecourt(db, c)
  }

  function Mapped(db: Db): (s: set<Id>) {
    set l | l in db.mappings :: db.mappings[l]
  }

  // ----- Integrity ------------------------------------------------------------------------

  predicate PlaceIn(floors: map<Id, FloorRow>, forecourts: map<Id, ZoneRow>, merches: map<Id, ZoneRow>, p: Place) {
    match p
    case OnFloor(f) => f in floors
    case OnForecourt(c) => c in forecourts
    case OnMerch(c) => c in merches
  }

  predicate PlaceExists(db: Db, p: Place) {
    PlaceIn(db.floors, db.forecourts, db.merches, p)
  }

  // Foreign keys, and counters above every id in use: one predicate for each table.

  ghost predicate ConfigsValid(configs: map<Id, Config>, nextConfig: Id) {
    forall c :: c in configs ==> c < nextConfig
  }

  ghost predicate FloorsValid(floors: map<Id, FloorRow>, configs: map<Id, Config>, nextFloor: Id) {
    forall f :: f in floors ==> floors[f].config in configs && f < nextFloor
  }

  ghost predicate ForecourtsValid(forecourts: map<Id, ZoneRow>, configs: map<Id, Config>, nextZone: Id) {
    forall c :: c in forecourts ==> c in configs && forecourts[c].id < nextZone
  }

  ghost predicate MerchesValid(merches: map<Id, ZoneRow>, configs: map<Id, Config>) {
    forall c :: c in merches ==> c in configs
  }

  ghost predicate ElementsValid(elements: map<Id, ElementRow>, floors: map<Id, FloorRow>, forecourts: map<Id, ZoneRow>,
                                merches: map<Id, ZoneRow>, nextElement: Id) {
    forall e :: e in elements ==> PlaceIn(floors, forecourts, merches, elements[e].place) && e < nextElement
  }

  ghost predicate MenusValid(menus: map<(Id, Id), bool>, elements: map<Id, ElementRow>) {
    forall k :: k in menus ==> k.0 in elements
  }

  ghost predicate Valid(db: Db) {
    && ConfigsValid(db.configs, db.nextConfig)
    && FloorsValid(db.floors, db.configs, db.nextFloor)
    && ForecourtsValid(db.forecourts, db.configs, db.nextZone)
    && MerchesValid(db.merches, db.configs)
    && ElementsValid(db.elements, db.floors, db.forecourts, db.merches, db.nextElement)
    && MenusValid(db.menus, db.elements)
  }

  /** Every shop mapping points at an element that exists. */
  ghost predicate MappingsSound(db: Db) {
    forall l :: l in db.mappings ==> db.mappings[l] in db.elements
  }

  // ----- Payload ids ----------------------------------------------------------------------

  function IdsOf(els: seq<JsonElement>): (ids: seq<Id>) {
    if els == [] then []
    else IdsOf(els[..|els| - 1]) + if els[|els| - 1].id.Some? then [els[|els| - 1].id.value] else []
  }

  function FloorIdsOf(fs: seq<JsonFloor>): (ids: seq<Id>) {
    if fs == [] then [] else FloorIdsOf(fs[..|fs| - 1]) + IdsOf(fs[|fs| - 1].elements)
  }

  function ZoneIdsOf(zone: Option<JsonZone>): (ids: seq<Id>) {
    if zone.Some? then IdsOf(zone.value.elements) else []
  }

  /** All element ids a payload mentions on its floors and forecourt, in order and with repetitions. */
  function PlanIds(p: PlanJson): (ids: seq<Id>) {
    FloorIdsOf(p.floors) + ZoneIdsOf(p.forecourt)
  }

  /** No id of `among` occurs twice in `ids`. */
  ghost predicate DistinctAmong(ids: seq<Id>, among: set<Id>) {
    forall x :: x in among ==> multiset(ids)[x] <= 1
  }

  // ----- 2a: mapped elements absent from the payload are put back --------------------------

  function Orphans(db: Db, incoming: seq<Id>, scan: seq<Id>): (els: seq<JsonElement>)
    requires forall e :: e in scan ==> e in db.elements
  {
    if scan == [] then []
    else
      var n := |scan| - 1;
      Orphans(db, incoming, scan[..n]) +
      if scan[n] in Mapped(db) && scan[n] !in incoming
          then [JsonElement(Some(scan[n]), Bare(db.elements[scan[n]].body))] else []
  }

  /** The first floor at level 0, or else the first floor. */
  function OrphanFloor(fs: seq<JsonFloor>): (i: nat)
    requires fs != []
    ensures i < |fs|
  {
    if k :| 0 <= k < |fs| && fs[k].level == 0 && forall j :: 0 <= j < k ==> fs[j].level != 0 then k else 0
  }

  function Reinjected(fs: seq<JsonFloor>, orphans: seq<JsonElement>): (r: seq<JsonFloor>) {
    if orphans == [] then fs
    else if fs == [] then [JsonFloor(None, 0, "RDC", orphans)]
    else
      var i := OrphanFloor(fs);
      fs[i := fs[i].(elements := fs[i].elements + orphans)]
  }

  // ----- 3: which row each floor of the payload becomes -------------------------------------

  function FirstAtLevel(order: seq<Id>, rows: map<Id, FloorRow>, seen: seq<Id>, level: int): (r: Option<Id>)
    requires forall f :: f in order ==> f in rows
  {
    if order == [] then None
    else if order[0] !in seen && rows[order[0]].level == level then Some(order[0])
    else FirstAtLevel(order[1..], rows, seen, level)
  }

  /**
   By the id the client sent, if it is a row of this configuration; otherwise by level, among the rows
   not taken yet.
   */
  function MatchRow(f: JsonFloor, order: seq<Id>, rows: map<Id, FloorRow>, seen: seq<Id>): (r: Option<Id>)
    requires forall g :: g in order ==> g in rows
  {
    if f.id.Some? && f.id.value in order then f.id else FirstAtLevel(order, rows, seen, f.level)
  }

  /** How many of the rows taken so far were created by this save. */
  function Created(seen: seq<Id>, next: Id): (n: nat) {
    if seen == [] then 0 else Created(seen[..|seen| - 1], next) + if seen[|seen| - 1] >= next then 1 else 0
  }

  function Targets(fs: seq<JsonFloor>, order: seq<Id>, rows: map<Id, FloorRow>, next: Id): (ts: seq<Id>)
    requires forall f :: f in order ==> f in rows
    ensures |ts| == |fs|
  {
    if fs == [] then []
    else
      var n := |fs| - 1;
      var before := Targets(fs[..n], order, rows, next);
      var m := MatchRow(fs[n], order, rows, before);
      before + [if m.Some? then m.value else next + Created(before, next)]
  }

  // ----- 3, 4: the ids written back into the payload ----------------------------------------

  predicate Known(e: JsonElement, existing: set<Id>) {
    e.id.Some? && e.id.value in existing
  }

  function NewCount(els: seq<JsonElement>, existing: set<Id>): (n: nat) {
    if els == [] then 0 else NewCount(els[..|els| - 1], existing) + if Known(els[|els| - 1], existing) then 0 else 1
  }

  /** Elements of this configuration keep their id; every other one gets a fresh id. */
  function Numbered(els: seq<JsonElement>, existing: set<Id>, next: Id): (r: seq<JsonElement>)
    ensures |r| == |els|
  {
    if els == [] then []
    else
      var n := |els| - 1;
      Numbered(els[..n], existing, next) +
      [if Known(els[n], existing) then els[n] else els[n].(id := Some(next + NewCount(els[..n], existing)))]
  }

  function NewInFloors(fs: seq<JsonFloor>, existing: set<Id>): (n: nat) {
    if fs == [] then 0 else NewInFloors(fs[..|fs| - 1], existing) + NewCount(fs[|fs| - 1].elements, existing)
  }

  function NewInZone(zone: Option<JsonZone>, existing: set<Id>): (n: nat) {
    if zone.Some? then NewCount(zone.value.elements, existing) else 0
  }

  function NumberedFloors(fs: seq<JsonFloor>, targets: seq<Id>, existing: set<Id>, next: Id): (r: seq<JsonFloor>)
    requires |targets| == |fs|
    ensures |r| == |fs|
  {
    if fs == [] then []
    else
      var n := |fs| - 1;
      NumberedFloors(fs[..n], targets[..n], existing, next) +
      [JsonFloor(Some(targets[n]), fs[n].level, fs[n].info,
                 Numbered(fs[n].elements, existing, next + NewInFloors(fs[..n], existing)))]
  }

  function NumberedZone(zone: Option<JsonZone>, target: Id, existing: set<Id>, next: Id): (r: Option<JsonZone>) {
    if zone.None? then None
    else Some(JsonZone(Some(target), zone.value.info, Numbered(zone.value.elements, existing, next)))
  }

  // ----- The rows a numbered plan stands for -------------------------------------------------

  /** Later entries win, as later updates of the same row do. */
  function ElementRows(place: Place, els: seq<JsonElement>): (m: map<Id, ElementRow>) {
    if els == [] then map[]
    else
      var n := |els| - 1;
      var before := ElementRows(place, els[..n]);
      if els[n].id.Some? then before[els[n].id.value := ElementRow(place, els[n].body)] else before
  }

  function FloorElementRows(fs: seq<JsonFloor>): (m: map<Id, ElementRow>) {
    if fs == [] then map[]
    else
      var n := |fs| - 1;
      FloorElementRows(fs[..n]) + ElementRows(OnFloor(fs[n].id.GetOr(0)), fs[n].elements)
  }

  function PlanRows(c: Id, p: PlanJson): (m: map<Id, ElementRow>) {
    FloorElementRows(p.floors) + if p.forecourt.Some? then ElementRows(OnForecourt(c), p.forecourt.value.elements)
        else map[]
  }

  function FloorRows(c: Id, fs: seq<JsonFloor>): (m: map<Id, FloorRow>) {
    if fs == [] then map[]
    else
      var n := |fs| - 1;
      FloorRows(c, fs[..n])[fs[n].id.GetOr(0) := FloorRow(c, fs[n].level, fs[n].info)]
  }

  // ----- The whole save ----------------------------------------------------------------------

  datatype Saved = Saved(db: Db, plan: PlanJson)

  /** The save aborts on the unique forecourt when the payload names another one. */
  predicate ForecourtClash(db: Db, c: Id, p: PlanJson) {
    p.forecourt.Some? && p.forecourt.value.id.Some? && c in db.forecourts
        && p.forecourt.value.id.value != db.forecourts[c].id
  }

  /** The row of the forecourt: the configuration's own, or a new one. */
  function ForecourtId(db: Db, c: Id): (z: Id) {
    if c in db.forecourts then db.forecourts[c].id else db.nextZone
  }

  /**
   What the queries of one save return: the configuration's floor rows and the elements on them, in
   the unspecified order of the database.
   */
  datatype Query = Query(order: seq<Id>, scan: seq<Id>)

  ghost predicate Answers(db: Db, c: Id, q: Query) {
    Enumerates(q.order, FloorsOf(db, c)) && Enumerates(q.scan, OnFloors(db, FloorsOf(db, c)))
  }

  /** The floors of the payload once the orphans are back. */
  function SavedFloors(db: Db, p: PlanJson, scan: seq<Id>): (fs: seq<JsonFloor>)
    requires forall e :: e in scan ==> e in db.elements
  {
    Reinjected(p.floors, Orphans(db, PlanIds(p), scan))
  }

  /** The payload, with floors `fs`, and the ids of the rows it becomes. */
  function NumberedPlan(db: Db, c: Id, p: PlanJson, fs: seq<JsonFloor>, order: seq<Id>): (out: PlanJson)
    requires forall f :: f in order ==> f in db.floors
  {
    var existing := Existing(db, c);
    var targets := Targets(fs, order, db.floors, db.nextFloor);
    var next := db.nextElement + NewInFloors(fs, existing);
    PlanJson(NumberedFloors(fs, targets, existing, db.nextElement),
             NumberedZone(p.forecourt, ForecourtId(db, c), existing, next),
             p.merch)
  }

  function SavedPlan(db: Db, c: Id, p: PlanJson, q: Query): (out: PlanJson)
    requires Answers(db, c, q)
  {
    NumberedPlan(db, c, p, SavedFloors(db, p, q.scan), q.order)
  }

  function TargetSet(fs: seq<JsonFloor>): (s: set<Id>) {
    set f | f in fs && f.id.Some? :: f.id.value
  }

  /** Elements pruned: absent from the payload and not mapped. */
  function Pruned(db: Db, c: Id, out: PlanJson): (s: set<Id>) {
    Existing(db, c) - PlanRows(c, out).Keys - Mapped(db)
  }

  /** Floor rows dropped: not in the payload, and holding no mapped element when they were loaded. */
  function Dropped(db: Db, c: Id, out: PlanJson): (s: set<Id>) {
    set f | f in FloorsOf(db, c) && f !in TargetSet(out.floors) && OnFloors(db, {f}) * Mapped(db) == {}
  }

  function RowsAfter(db: Db, c: Id, out: PlanJson): (m: map<Id, ElementRow>) {
    (db.elements + PlanRows(c, out)) - Pruned(db, c, out)
  }

  /** Deleting a floor row deletes the elements that are on it then. */
  function Cascaded(db: Db, c: Id, out: PlanJson): (s: set<Id>) {
    set e | e in RowsAfter(db, c, out) && RowsAfter(db, c, out)[e].place.OnFloor?
        && RowsAfter(db, c, out)[e].place.floor in Dropped(db, c, out)
  }

  function NextElement(db: Db, c: Id, p: PlanJson, fs: seq<JsonFloor>): (next: Id) {
    db.nextElement + NewInFloors(fs, Existing(db, c)) + NewInZone(p.forecourt, Existing(db, c))
  }

  function NextFloor(db: Db, fs: seq<JsonFloor>, order: seq<Id>): (next: Id)
    requires forall f :: f in order ==> f in db.floors
  {
    db.nextFloor + Created(Targets(fs, order, db.floors, db.nextFloor), db.nextFloor)
  }

  function SaveInto(db: Db, c: Id, p: PlanJson, q: Query): (s: Saved)
    requires c in db.configs && Answers(db, c, q)
  {
    var out := SavedPlan(db, c, p, q);
    var elements := RowsAfter(db, c, out) - Cascaded(db, c, out);
    var fs := SavedFloors(db, p, q.scan);
    Saved(db.(configs := db.configs[c := db.configs[c].(data := out)],
              floors := (db.floors + FloorRows(c, out.floors)) - Dropped(db, c, out),
              forecourts := if out.forecourt.None? then db.forecourts
                            else db.forecourts[c := ZoneRow(ForecourtId(db, c), out.forecourt.value.info)],
              elements := elements,
              menus := map k | k in db.menus && k.0 in elements :: db.menus[k],
              nextFloor := NextFloor(db, fs, q.order),
              nextZone := if out.forecourt.Some? && c !in db.forecourts then db.nextZone + 1 else db.nextZone,
              nextElement := NextElement(db, c, p, fs)),
          out)
  }
}
