/**
 The other operations on the floor plan (spaces.service.ts `quickCreateElement`,
 `assignElementsToFloorLevel`, `assignElementsToForecourt`, `deleteElementIfUnreferenced`;
 mappings.service.ts `createLocationShopMapping`, `deleteLocationShopMapping`): what each one makes
 of the rows, of the mappings and of the JSON.
 */
module FloorPlanOps {
  import opened Common
  import opened FloorPlan
  import opened FloorPlanSave
  import opened FloorPlanGuarantees

  // ----- Finding the configuration and the row to work on --------------------------------------

  function ConfigAt(db: Db, p: Place): (c: Option<Id>) {
    match p
    case OnFloor(f) => if f in db.floors then Some(db.floors[f].config) else None
    case OnForecourt(c) => if c in db.forecourts then Some(c) else None
    case OnMerch(c) => if c in db.merches then Some(c) else None
  }

  predicate InSpace(db: Db, e: Id, space: Id) {
    && e in db.elements
    && var c := ConfigAt(db, db.elements[e].place);
       c.Some? && c.value in db.configs && db.configs[c.value].space == space
  }

  predicate UserConfig(db: Db, c: Id, space: Id) {
    c in db.configs && db.configs[c].space == space && !db.configs[c].isSystem
  }

  /** What the query for the oldest user configuration of a space may answer. */
  predicate OldestAnswer(db: Db, space: Id, oldest: Option<Id>) {
    if oldest.Some? then UserConfig(db, oldest.value, space) else forall c :: c in db.configs ==>
        !UserConfig(db, c, space)
  }

  /** The explicit configuration when it is a user configuration of the space, else the oldest one. */
  function TargetConfig(db: Db, space: Id, explicit: Option<Id>, oldest: Option<Id>): (c: Option<Id>) {
    if explicit.Some? && UserConfig(db, explicit.value, space) then explicit else oldest
  }

  /** What the query for the lowest floor may answer. */
  predicate LowestAnswer(db: Db, c: Id, found: Option<Id>) {
    if found.Some? then found.value in FloorsOf(db, c) && forall f :: f in FloorsOf(db, c) ==>
        db.floors[found.value].level <= db.floors[f].level
    else FloorsOf(db, c) == {}
  }

  /** What the query for a floor of this level may answer. */
  predicate LevelAnswer(db: Db, c: Id, level: int, found: Option<Id>) {
    if found.Some? then found.value in FloorsOf(db, c) && db.floors[found.value].level == level
    else forall f :: f in FloorsOf(db, c) ==> db.floors[f].level != level
  }

  datatype Found = Found(db: Db, row: Id)

  function EnsureFloor(db: Db, c: Id, found: Option<Id>, level: int, info: Info): (r: Found) {
    if found.Some? then Found(db, found.value)
    else Found(db.(floors := db.floors[db.nextFloor := FloorRow(c, level, info)], nextFloor := db.nextFloor + 1),
               db.nextFloor)
  }

  function EnsureForecourt(db: Db, c: Id): (r: Db) {
    db.(forecourts := if c in db.forecourts then db.forecourts else db.forecourts[c := ZoneRow(db.nextZone, "Parvis")],
        nextZone := if c in db.forecourts then db.nextZone else db.nextZone + 1)
  }

  /** The JSON written by the optimistic writer: no one else writes meanwhile. */
  function WriteJson(db: Db, c: Id, data: PlanJson): (r: Db)
    requires c in db.configs
  {
    db.(configs := db.configs[c := db.configs[c].(data := data, version := db.configs[c].version + 1)])
  }

  // ----- The JSON side --------------------------------------------------------------------------

  /** The index of the JSON floor with this id, or the number of floors. */
  function FindFloor(fs: seq<JsonFloor>, f: Id): (i: nat)
    ensures i <= |fs|
    ensures i < |fs| ==> fs[i].id == Some(f)
    ensures forall j :: 0 <= j < i ==> fs[j].id != Some(f)
  {
    if fs == [] then 0 else if fs[0].id == Some(f) then 0 else 1 + FindFloor(fs[1..], f)
  }

  /** The JSON floors, with an entry for the row added when there is none. */
  function WithFloor(fs: seq<JsonFloor>, f: Id, row: FloorRow): (r: seq<JsonFloor>)
    ensures FindFloor(fs, f) < |r| && r[FindFloor(fs, f)].id == Some(f)
  {
    if FindFloor(fs, f) < |fs| then fs else fs + [JsonFloor(Some(f), row.level, row.info, [])]
  }

  function AddToFloor(fs: seq<JsonFloor>, f: Id, row: FloorRow, els: seq<JsonElement>): (r: seq<JsonFloor>) {
    var gs, i := WithFloor(fs, f, row), FindFloor(fs, f);
    gs[i := gs[i].(elements := gs[i].elements + els)]
  }

  /** `quickCreateElement`: the new element is added to the floor's JSON entry, once. */
  function JsonWithElement(json: PlanJson, f: Id, row: FloorRow, el: JsonElement): (r: PlanJson) {
    var gs, i := WithFloor(json.floors, f, row), FindFloor(json.floors, f);
    if el.id.Some? && el.id.value in IdsOf(gs[i].elements) then json.(floors := gs)
    else json.(floors := AddToFloor(json.floors, f, row, [el]))
  }

  function Without(els: seq<JsonElement>, moved: seq<Id>): (r: seq<JsonElement>) {
    if els == [] then []
    else
      var last := els[|els| - 1];
      Without(els[..|els| - 1], moved) + if last.id.Some? && last.id.value in moved then [] else [last]
  }

  function FloorsWithout(fs: seq<JsonFloor>, moved: seq<Id>): (r: seq<JsonFloor>)
    ensures |r| == |fs|
  {
    seq(|fs|, i requires 0 <= i < |fs| => fs[i].(elements := Without(fs[i].elements, moved)))
  }

  function Stubs(db: Db, moved: seq<Id>): (els: seq<JsonElement>) {
    if moved == [] then []
    else
      var last := moved[|moved| - 1];
      Stubs(db, moved[..|moved| - 1]) +
      if last in db.elements then [JsonElement(Some(last), Bare(db.elements[last].body))] else []
  }

  /** Entries left without elements are dropped, except the one for `keep`. */
  function NonEmptyFloors(fs: seq<JsonFloor>, keep: Option<Id>): (r: seq<JsonFloor>) {
    if fs == [] then []
    else
      var last := fs[|fs| - 1];
      NonEmptyFloors(fs[..|fs| - 1], keep) + if (keep.Some? && last.id == keep) || last.elements != [] then [last]
          else []
  }

  /** `assignElementsToFloorLevel`: the moved elements leave every JSON floor and join the target's. */
  function JsonMovedToFloor(db: Db, json: PlanJson, f: Id, row: FloorRow, moved: seq<Id>): (r: PlanJson) {
    json.(floors := NonEmptyFloors(AddToFloor(FloorsWithout(json.floors, moved), f, row, Stubs(db, moved)), Some(f)))
  }

  function AllElements(fs: seq<JsonFloor>): (els: seq<JsonElement>) {
    if fs == [] then [] else AllElements(fs[..|fs| - 1]) + fs[|fs| - 1].elements
  }

  function FirstWithId(els: seq<JsonElement>, x: Id): (r: Option<JsonElement>)
    ensures r.Some? ==> r.value.id == Some(x)
  {
    if els == [] then None else if els[0].id == Some(x) then Some(els[0]) else FirstWithId(els[1..], x)
  }

  /** The forecourt's JSON elements with the moved ones: the old JSON version if there is one, else the row. */
  function JoinForecourt(db: Db, els: seq<JsonElement>, all: seq<JsonElement>, moved: seq<Id>): (r: seq<JsonElement>) {
    if moved == [] then els
    else
      var x := moved[|moved| - 1];
      var before := JoinForecourt(db, els, all, moved[..|moved| - 1]);
      if x in IdsOf(before) then before
      else if FirstWithId(all, x).Some? then before + [FirstWithId(all, x).value]
      else if x in db.elements then before + [JsonElement(Some(x), Bare(db.elements[x].body))]
      else before
  }

  /** `assignElementsToForecourt`: the moved elements leave every JSON floor and join the forecourt's. */
  function JsonMovedToForecourt(db: Db, json: PlanJson, row: ZoneRow, moved: seq<Id>): (r: PlanJson) {
    var zone := if json.forecourt.Some? then json.forecourt.value else JsonZone(Some(row.id), row.info, []);
    json.(floors := NonEmptyFloors(FloorsWithout(json.floors, moved), None),
          forecourt := Some(zone.(elements := JoinForecourt(db, zone.elements, AllElements(json.floors), moved))))
  }

  function JsonWithoutElement(json: PlanJson, e: Id): (r: PlanJson) {
    json.(floors := FloorsWithout(json.floors, [e]),
          forecourt := if json.forecourt.Some?
              then Some(json.forecourt.value.(elements := Without(json.forecourt.value.elements, [e]))) else None,
          merch := if json.merch.Some?
              then Some(json.merch.value.(elements := Without(json.merch.value.elements, [e]))) else None)
  }

  // ----- The operations -------------------------------------------------------------------------

  datatype OpError = NotFound | Forbidden | NoUserConfig | ForecourtUniqueViolation

  function UpsertedConfig(db: Db, c: Id, space: Id, data: PlanJson): (r: Config) {
    if c in db.configs then db.configs[c].(data := data) else Config(space, false, data, 0)
  }

  function NextConfig(db: Db, c: Id): (next: Id) {
    if c in db.configs || c < db.nextConfig then db.nextConfig else c + 1
  }

  function WithConfig(db: Db, c: Id, space: Id, data: PlanJson): (r: Db) {
    db.(configs := db.configs[c := UpsertedConfig(db, c, space, data)], nextConfig := NextConfig(db, c))
  }

  /** Storing the configuration's own data changes no answer of the queries on its rows. */
  lemma {:induction false} WithConfigAnswers(db: Db, c: Id, space: Id, data: PlanJson, q: Query)
    requires Answers(db, c, q)
    ensures c in WithConfig(db, c, space, data).configs && Answers(WithConfig(db, c, space, data), c, q)
  {
    SameRowsAnswer(db, WithConfig(db, c, space, data), c, q);
  }

  lemma {:induction false} SameRowsAnswer(db: Db, after: Db, c: Id, q: Query)
    requires Answers(db, c, q) && after.floors == db.floors && after.elements == db.elements
    ensures Answers(after, c, q)
  {
  }

  /**
   `saveConfiguration` for configuration `c`: the id the client sent, or else a generated one. The check
   looks for it among the tenant's own configurations, the upsert among all.
   */
  function SavePlan(db: Db, c: Id, space: Id, data: PlanJson, q: Query): (r: Result<Saved, OpError>)
    requires Answers(db, c, q)
    ensures r.Ok? ==> r.value.db.mappings == db.mappings
  {
    if space !in db.spaces then Err(NotFound)
    else if c in db.configs && db.configs[c].space in db.spaces && db.configs[c].space != space then Err(Forbidden)
    else if ForecourtClash(db, c, data) then Err(ForecourtUniqueViolation)
    else
      WithConfigAnswers(db, c, space, data, q);
      Ok(SaveInto(WithConfig(db, c, space, data), c, data, q))
  }

  function WithElement(db: Db, f: Id, body: Body): (r: Db) {
    db.(elements := db.elements[db.nextElement := ElementRow(OnFloor(f), body)], nextElement := db.nextElement + 1)
  }

  function NewElement(db: Db, body: Body): (el: JsonElement) {
    JsonElement(Some(db.nextElement), body)
  }

  function QuickCreate(db: Db, space: Id, explicit: Option<Id>, oldest: Option<Id>, lowest: Option<Id>,
                       body: Body): (r: Result<Db, OpError>)
    requires OldestAnswer(db, space, oldest)
    requires var c := TargetConfig(db, space, explicit, oldest); c.Some? ==> LowestAnswer(db, c.value, lowest)
    ensures r.Ok? ==> r.value.mappings == db.mappings && r.value.menus == db.menus
  {
    var c := TargetConfig(db, space, explicit, oldest);
    if space !in db.spaces then Err(NotFound)
    else if c.None? then Err(NoUserConfig)
    else
      var found := EnsureFloor(db, c.value, lowest, 0, "RDC");
      Ok(WriteJson(WithElement(found.db, found.row, body), c.value,
                   JsonWithElement(db.configs[c.value].data, found.row, found.db.floors[found.row],
                                   NewElement(found.db, body))))
  }

  /** The requested elements that exist in the space, in request order. */
  function Movable(db: Db, space: Id, ids: seq<Id>): (r: seq<Id>) {
    if ids == [] then []
    else Movable(db, space, ids[..|ids| - 1]) + if InSpace(db, ids[|ids| - 1], space) then [ids[|ids| - 1]] else []
  }

  function Moved(db: Db, moved: seq<Id>, place: Place): (r: Db) {
    db.(elements := map e | e in db.elements :: if e in moved then db.elements[e].(place := place) else db.elements[e])
  }

  function AssignToFloor(db: Db, space: Id, explicit: Option<Id>, oldest: Option<Id>, ids: seq<Id>, level: int,
                         info: Info, atLevel: Option<Id>): (r: Result<Db, OpError>)
    requires OldestAnswer(db, space, oldest)
    requires var c := TargetConfig(db, space, explicit, oldest); c.Some? ==> LevelAnswer(db, c.value, level, atLevel)
    ensures r.Ok? ==> r.value.mappings == db.mappings && r.value.menus == db.menus
  {
    var c := TargetConfig(db, space, explicit, oldest);
    if space !in db.spaces then Err(NotFound)
    else if c.None? then Err(NoUserConfig)
    else
      var found := EnsureFloor(db, c.value, atLevel, level, info);
      var moved := Movable(db, space, ids);
      var placed := Moved(found.db, moved, OnFloor(found.row));
      if moved == [] then Ok(placed)
      else Ok(WriteJson(placed, c.value,
                        JsonMovedToFloor(placed, db.configs[c.value].data, found.row, found.db.floors[found.row],
                                         moved)))
  }

  function AssignToForecourt(db: Db, space: Id, explicit: Option<Id>, oldest: Option<Id>, ids: seq<Id>): (r: Result<Db,
      OpError>)
    requires OldestAnswer(db, space, oldest)
    ensures r.Ok? ==> r.value.mappings == db.mappings && r.value.menus == db.menus
  {
    var c := TargetConfig(db, space, explicit, oldest);
    if space !in db.spaces then Err(NotFound)
    else if c.None? then Err(NoUserConfig)
    else
      var ensured := EnsureForecourt(db, c.value);
      var moved := Movable(db, space, ids);
      var placed := Moved(ensured, moved, OnForecourt(c.value));
      if moved == [] then Ok(placed)
      else Ok(WriteJson(placed, c.value,
                        JsonMovedToForecourt(placed, db.configs[c.value].data, ensured.forecourts[c.value], moved)))
  }

  /** The element is in one of the tenant's own spaces. */
  predicate IsOwn(db: Db, e: Id) {
    && e in db.elements
    && var c := ConfigAt(db, db.elements[e].place);
       c.Some? && c.value in db.configs && db.configs[c.value].space in db.spaces
  }

  /** `createLocationShopMapping`: only onto an element on a floor or forecourt of the tenant. */
  function CreateMapping(db: Db, location: string, e: Id): (r: Result<Db, OpError>) {
    if IsOwn(db, e) && !db.elements[e].place.OnMerch? then Ok(db.(mappings := db.mappings[location := e]))
        else Err(NotFound)
  }

  /** The JSON without an element; it is written only when it changes. */
  function ConfigWithout(config: Config, e: Id): (r: Config) {
    var json := JsonWithoutElement(config.data, e);
    if json == config.data then config else config.(data := json, version := config.version + 1)
  }

  /** `deleteElementIfUnreferenced`. */
  function DeleteUnreferenced(db: Db, e: Id): (r: Db) {
    if e in Mapped(db) || !IsOwn(db, e) then db
    else
      var c := ConfigAt(db, db.elements[e].place).value;
      WithoutElement(db, e).(configs := db.configs[c := ConfigWithout(db.configs[c], e)])
  }

  /** `deleteLocationShopMapping`: the mapping goes, and its element with it when no other mapping is left on it. */
  function DeleteMapping(db: Db, location: string): (r: Db) {
    if location !in db.mappings then db
    else DeleteUnreferenced(db.(mappings := db.mappings - {location}), db.mappings[location])
  }

  // ----- Every run --------------------------------------------------------------------------------

  datatype Op =
    | SavePlanOp(config: Id, space: Id, data: PlanJson, q: Query)
    | QuickCreateOp(space: Id, explicit: Option<Id>, oldest: Option<Id>, answer: Option<Id>, body: Body)
    | AssignToFloorOp(space: Id, explicit: Option<Id>, oldest: Option<Id>, ids: seq<Id>, level: int, info: Info,
                      answer: Option<Id>)
    | AssignToForecourtOp(space: Id, explicit: Option<Id>, oldest: Option<Id>, ids: seq<Id>)
    | CreateMappingOp(location: string, element: Id)
    | DeleteMappingOp(location: string)

  /** The answers to the operation's queries are ones this database can give. */
  ghost predicate Possible(db: Db, op: Op) {
    match op
    case SavePlanOp(c, _, _, q) => Answers(db, c, q)
    case QuickCreateOp(space, explicit, oldest, answer, _) =>
      OldestAnswer(db, space, oldest) && var c := TargetConfig(db, space, explicit, oldest); c.Some? ==>
          LowestAnswer(db, c.value, answer)
    case AssignToFloorOp(space, explicit, oldest, _, level, _, answer) =>
      OldestAnswer(db, space, oldest) && var c := TargetConfig(db, space, explicit, oldest); c.Some? ==>
          LevelAnswer(db, c.value, level, answer)
    case AssignToForecourtOp(space, _, oldest, _) => OldestAnswer(db, space, oldest)
    case CreateMappingOp(_, _) => true
    case DeleteMappingOp(_) => true
  }

  function Value(db: Db, r: Result<Db, OpError>): (d: Db) {
    if r.Ok? then r.value else db
  }

  /** One operation; one that fails changes nothing. */
  function Perform(db: Db, op: Op): (d: Db)
    requires Possible(db, op)
  {
    match op
    case SavePlanOp(c, space, data, q) => (var r := SavePlan(db, c, space, data, q); if r.Ok? then r.value.db else db)
    case QuickCreateOp(space, explicit, oldest, answer, body) => Value(db,
        QuickCreate(db, space, explicit, oldest, answer, body))
    case AssignToFloorOp(space, explicit, oldest, ids, level, info, answer) =>
      Value(db, AssignToFloor(db, space, explicit, oldest, ids, level, info, answer))
    case AssignToForecourtOp(space, explicit, oldest, ids) => Value(db,
                                                                    AssignToForecourt(db, space, explicit, oldest, ids))
    case CreateMappingOp(location, e) => Value(db, CreateMapping(db, location, e))
    case DeleteMappingOp(location) => DeleteMapping(db, location)
  }

  ghost predicate Sound(db: Db) {
    Valid(db) && MappingsSound(db)
  }

  lemma {:induction false} EnsureFloorSound(db: Db, c: Id, found: Option<Id>, level: int, info: Info)
    requires Sound(db) && c in db.configs && (found.Some? ==> found.value in FloorsOf(db, c))
    ensures var r := EnsureFloor(db, c, found, level, info); Sound(r.db) && r.row in FloorsOf(r.db, c)
  {
  }

  lemma {:induction false} EnsureForecourtSound(db: Db, c: Id)
    requires Sound(db) && c in db.configs
    ensures Sound(EnsureForecourt(db, c)) && c in EnsureForecourt(db, c).forecourts
  {
  }

  lemma {:induction false} MovedSound(db: Db, moved: seq<Id>, place: Place)
    requires Sound(db) && PlaceExists(db, place)
    ensures Sound(Moved(db, moved, place))
  {
  }

  /** The rows of `after` are those of `db`. */
  ghost predicate SameRows(db: Db, after: Db) {
    && after.floors == db.floors && after.forecourts == db.forecourts && after.merches == db.merches
    && after.elements == db.elements && after.menus == db.menus
    && after.nextFloor == db.nextFloor && after.nextZone == db.nextZone && after.nextElement == db.nextElement
  }

  lemma {:induction false} OnlyConfigsValid(db: Db, after: Db)
    requires Valid(db) && db.configs.Keys <= after.configs.Keys && ConfigsValid(after.configs, after.nextConfig)
    requires SameRows(db, after)
    ensures Valid(after)
  {
  }

  lemma {:induction false} UpsertedReady(db: Db, c: Id, space: Id, data: PlanJson, q: Query)
    requires Valid(db) && Answers(db, c, q)
    ensures SaveReady(WithConfig(db, c, space, data), c, q)
  {
    UpsertedValid(db, c, space, data);
    WithConfigAnswers(db, c, space, data, q);
  }

  lemma {:induction false} UpsertedValid(db: Db, c: Id, space: Id, data: PlanJson)
    requires Valid(db)
    ensures Valid(WithConfig(db, c, space, data))
  {
    OnlyConfigsValid(db, WithConfig(db, c, space, data));
  }

  /** A change to configurations alone breaks nothing. */
  lemma {:induction false} OnlyConfigsSound(db: Db, after: Db)
    requires Sound(db) && db.configs.Keys <= after.configs.Keys && ConfigsValid(after.configs, after.nextConfig)
    requires SameRows(db, after) && after.mappings == db.mappings
    ensures Sound(after)
  {
    OnlyConfigsValid(db, after);
  }

  lemma {:induction false} WriteJsonSound(db: Db, c: Id, data: PlanJson)
    requires Sound(db) && c in db.configs
    ensures Sound(WriteJson(db, c, data))
  {
  }

  lemma {:induction false} WithConfigSound(db: Db, c: Id, space: Id, data: PlanJson)
    requires Sound(db)
    ensures Sound(WithConfig(db, c, space, data)) && c in WithConfig(db, c, space, data).configs
  {
    OnlyConfigsSound(db, WithConfig(db, c, space, data));
  }

  lemma {:induction false} SavePlanSound(db: Db, c: Id, space: Id, data: PlanJson, q: Query)
    requires Sound(db) && Answers(db, c, q)
    ensures var r := SavePlan(db, c, space, data, q); r.Ok? ==> Sound(r.value.db)
  {
    WithConfigSound(db, c, space, data);
    WithConfigAnswers(db, c, space, data, q);
    if !ForecourtClash(db, c, data) {
      SavedSound(WithConfig(db, c, space, data), c, data, q);
    }
  }

  lemma {:induction false} SavedSound(db: Db, c: Id, data: PlanJson, q: Query)
    requires Sound(db) && SaveReady(db, c, q) && !ForecourtClash(db, c, data)
    ensures Sound(SaveInto(db, c, data, q).db)
  {
    SaveKeepsValid(db, c, data, q);
    SaveKeepsMappings(db, c, data, q);
  }

  lemma {:induction false} QuickCreateSound(db: Db, space: Id, explicit: Option<Id>, oldest: Option<Id>,
                                            lowest: Option<Id>, body: Body)
    requires Sound(db) && OldestAnswer(db, space, oldest)
    requires var c := TargetConfig(db, space, explicit, oldest); c.Some? ==> LowestAnswer(db, c.value, lowest)
    ensures Sound(Value(db, QuickCreate(db, space, explicit, oldest, lowest, body)))
  {
    var c := TargetConfig(db, space, explicit, oldest);
    if c.Some? && space in db.spaces {
      EnsureFloorSound(db, c.value, lowest, 0, "RDC");
      var found := EnsureFloor(db, c.value, lowest, 0, "RDC");
      NewElementSound(found.db, found.row, body);
      WriteJsonSound(WithElement(found.db, found.row, body), c.value,
                     JsonWithElement(db.configs[c.value].data, found.row, found.db.floors[found.row],
                                     NewElement(found.db, body)));
    }
  }

  lemma {:induction false} NewElementSound(db: Db, f: Id, body: Body)
    requires Sound(db) && f in db.floors
    ensures Sound(WithElement(db, f, body))
  {
  }

  lemma {:induction false} AssignToFloorSound(db: Db, space: Id, explicit: Option<Id>, oldest: Option<Id>,
                                              ids: seq<Id>, level: int, info: Info, atLevel: Option<Id>)
    requires Sound(db) && OldestAnswer(db, space, oldest)
    requires var c := TargetConfig(db, space, explicit, oldest); c.Some? ==> LevelAnswer(db, c.value, level, atLevel)
    ensures Sound(Value(db, AssignToFloor(db, space, explicit, oldest, ids, level, info, atLevel)))
  {
    var c := TargetConfig(db, space, explicit, oldest);
    if c.Some? {
      EnsureFloorSound(db, c.value, atLevel, level, info);
      var found := EnsureFloor(db, c.value, atLevel, level, info);
      var moved := Movable(db, space, ids);
      var placed := Moved(found.db, moved, OnFloor(found.row));
      MovedSound(found.db, moved, OnFloor(found.row));
      WriteJsonSound(placed, c.value,
                     JsonMovedToFloor(placed, db.configs[c.value].data, found.row, found.db.floors[found.row], moved));
    }
  }

  lemma {:induction false} AssignToForecourtSound(db: Db, space: Id, explicit: Option<Id>, oldest: Option<Id>,
                                                  ids: seq<Id>)
    requires Sound(db) && OldestAnswer(db, space, oldest)
    ensures Sound(Value(db, AssignToForecourt(db, space, explicit, oldest, ids)))
  {
    var c := TargetConfig(db, space, explicit, oldest);
    if c.Some? {
      EnsureForecourtSound(db, c.value);
      var ensured, moved := EnsureForecourt(db, c.value), Movable(db, space, ids);
      var placed := Moved(ensured, moved, OnForecourt(c.value));
      MovedSound(ensured, moved, OnForecourt(c.value));
      WriteJsonSound(placed, c.value,
                     JsonMovedToForecourt(placed, db.configs[c.value].data, ensured.forecourts[c.value], moved));
    }
  }

  /** Without an unmapped element and its menu assignments. */
  function WithoutElement(db: Db, e: Id): (r: Db) {
    db.(elements := db.elements - {e}, menus := map k | k in db.menus && k.0 != e :: db.menus[k])
  }

  lemma {:induction false} WithoutElementSound(db: Db, e: Id)
    requires Sound(db) && e !in Mapped(db)
    ensures Sound(WithoutElement(db, e))
  {
  }

  lemma {:induction false} DeleteUnreferencedSound(db: Db, e: Id)
    requires Sound(db)
    ensures Sound(DeleteUnreferenced(db, e))
  {
    if e !in Mapped(db) && IsOwn(db, e) {
      WithoutElementSound(db, e);
      OnlyConfigsSound(WithoutElement(db, e), DeleteUnreferenced(db, e));
    }
  }

  lemma {:induction false} UnmappedSound(db: Db, location: string)
    requires Sound(db)
    ensures Sound(db.(mappings := db.mappings - {location}))
  {
  }

  lemma {:induction false} DeleteMappingSound(db: Db, location: string)
    requires Sound(db)
    ensures Sound(DeleteMapping(db, location))
  {
    if location in db.mappings {
      var unmapped := db.(mappings := db.mappings - {location});
      UnmappedSound(db, location);
      DeleteUnreferencedSound(unmapped, db.mappings[location]);
    }
  }

  lemma {:induction false} PerformSound(db: Db, op: Op)
    requires Sound(db) && Possible(db, op)
    ensures Sound(Perform(db, op))
  {
    match op
    case SavePlanOp(c, space, data, q) => SavePlanSound(db, c, space, data, q);
    case QuickCreateOp(space, explicit, oldest, answer, body) => QuickCreateSound(db, space, explicit, oldest, answer,
        body);
    case AssignToFloorOp(space, explicit, oldest, ids, level, info, answer) =>
      AssignToFloorSound(db, space, explicit, oldest, ids, level, info, answer);
    case AssignToForecourtOp(space, explicit, oldest, ids) => AssignToForecourtSound(db, space, explicit, oldest, ids);
    case CreateMappingOp(location, e) => assert MappingsSound(Perform(db, op));
    case DeleteMappingOp(location) => DeleteMappingSound(db, location);
  }

  ghost predicate Run(states: seq<Db>, ops: seq<Op>) {
    |states| == |ops| + 1 &&
    forall k :: 0 <= k < |ops| ==> Possible(states[k], ops[k]) && states[k + 1] == Perform(states[k], ops[k])
  }

  /** Over every run, every shop mapping points at an element that exists. */
  lemma {:induction false} RunKeepsMappings(states: seq<Db>, ops: seq<Op>)
    requires Run(states, ops) && Sound(states[0])
    ensures Sound(states[|ops|])
  {
    if ops != [] {
      var n := |ops| - 1;
      RunKeepsMappings(states[..n + 1], ops[..n]);
      PerformSound(states[n], ops[n]);
    }
  }

  lemma {:induction false} DeleteMappingKeepsOthers(db: Db, gone: string, location: string)
    requires location in db.mappings && gone != location
    ensures location in DeleteMapping(db, gone).mappings && DeleteMapping(db, gone).mappings[location] ==
            db.mappings[location]
  {
  }

  /** An operation other than one on the mapping itself leaves a location mapped to the same element. */
  lemma {:induction false} MappedShopStays(db: Db, op: Op, location: string)
    requires Possible(db, op) && location in db.mappings
    requires op.CreateMappingOp? || op.DeleteMappingOp? ==> op.location != location
    ensures var after := Perform(db, op);
            location in after.mappings && after.mappings[location] == db.mappings[location]
  {
    if op.DeleteMappingOp? {
      DeleteMappingKeepsOthers(db, op.location, location);
    }
  }

  /** Over every run, a mapped shop keeps its row and its id until its own mapping is changed. */
  lemma {:induction false} RunKeepsShop(states: seq<Db>, ops: seq<Op>, location: string)
    requires Run(states, ops) && Sound(states[0]) && location in states[0].mappings
    requires forall k :: 0 <= k < |ops| && (ops[k].CreateMappingOp? || ops[k].DeleteMappingOp?) ==>
               ops[k].location != location
    ensures var e, after := states[0].mappings[location], states[|ops|];
            location in after.mappings && after.mappings[location] == e && e in after.elements
  {
    if ops == [] {
    } else {
      var n := |ops| - 1;
      RunKeepsShop(states[..n + 1], ops[..n], location);
      RunKeepsMappings(states[..n + 1], ops[..n]);
      MappedShopStays(states[n], ops[n], location);
      PerformSound(states[n], ops[n]);
    }
  }
}
