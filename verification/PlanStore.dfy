/** `saveConfiguration` over the tables of the database: each loop of the code, against the functions of the model. */
module PlanStore {
  import opened Common
  import opened FloorPlan
  import opened FloorPlanSave
  import opened FloorPlanOps

  // ----- One step of each loop --------------------------------------------------------------------

  lemma {:induction false} NumberedSnoc(els: seq<JsonElement>, k: nat, existing: set<Id>, next: Id)
    requires k < |els|
    ensures Numbered(els[..k + 1], existing, next) == Numbered(els[..k], existing, next) + [
              if Known(els[k], existing) then els[k] else els[k].(id := Some(next + NewCount(els[..k], existing)))]
    ensures NewCount(els[..k + 1], existing) == NewCount(els[..k], existing) + if Known(els[k], existing) then 0 else 1
  {
    assert els[..k + 1][..k] == els[..k];
  }

  lemma {:induction false} ElementRowsSnoc(m: map<Id, ElementRow>, place: Place, els: seq<JsonElement>, e: JsonElement)
    requires e.id.Some?
    ensures m + ElementRows(place, els + [e]) == (m + ElementRows(place, els))[e.id.value := ElementRow(place, e.body)]
  {
    assert (els + [e])[..|els|] == els;
  }

  lemma {:induction false} NumberedFloorsSnoc(fs: seq<JsonFloor>, k: nat, targets: seq<Id>, id: Id, existing: set<Id>,
                                              next: Id)
    requires k < |fs| && |targets| == k
    ensures NumberedFloors(fs[..k + 1], targets + [id], existing, next) ==
            NumberedFloors(fs[..k], targets, existing, next) + [
              JsonFloor(Some(id), fs[k].level, fs[k].info,
                        Numbered(fs[k].elements, existing, next + NewInFloors(fs[..k], existing)))]
    ensures NewInFloors(fs[..k + 1], existing) == NewInFloors(fs[..k], existing) + NewCount(fs[k].elements, existing)
  {
    assert fs[..k + 1][..k] == fs[..k] && (targets + [id])[..k] == targets;
  }

  lemma {:induction false} FloorRowsSnoc(m: map<Id, FloorRow>, c: Id, fs: seq<JsonFloor>, f: JsonFloor)
    requires f.id.Some?
    ensures m + FloorRows(c, fs + [f]) == (m + FloorRows(c, fs))[f.id.value := FloorRow(c, f.level, f.info)]
  {
  }

  lemma {:induction false} FloorElementRowsSnoc(m: map<Id, ElementRow>, fs: seq<JsonFloor>, f: JsonFloor)
    requires f.id.Some?
    ensures m + FloorElementRows(fs + [f]) == (m + FloorElementRows(fs)) + ElementRows(OnFloor(f.id.value), f.elements)
  {
  }

  lemma {:induction false} TargetsSnoc(fs: seq<JsonFloor>, k: nat, order: seq<Id>, rows: map<Id, FloorRow>, next: Id)
    requires k < |fs| && forall f :: f in order ==> f in rows
    ensures var before := Targets(fs[..k], order, rows, next);
            var m := MatchRow(fs[k], order, rows, before);
            Targets(fs[..k + 1], order, rows, next) == before +
                [if m.Some? then m.value else next + Created(before, next)]
  {
    assert fs[..k + 1][..k] == fs[..k];
  }

  lemma {:induction false} CreatedSnoc(seen: seq<Id>, id: Id, next: Id)
    ensures Created(seen + [id], next) == Created(seen, next) + if id >= next then 1 else 0
  {
  }

  lemma {:induction false} OrphanFloorIs(fs: seq<JsonFloor>, i: nat)
    requires i < |fs| && (if fs[i].level == 0 then forall j :: 0 <= j < i ==>
                          fs[j].level != 0 else i == 0 && forall j :: 0 <= j < |fs| ==> fs[j].level != 0)
    ensures OrphanFloor(fs) == i
  {
  }

  /** A generated row is new; a matched one is not. */
  lemma {:induction false} MatchedOld(f: JsonFloor, order: seq<Id>, rows: map<Id, FloorRow>, seen: seq<Id>, next: Id)
    requires forall g :: g in order ==> g in rows && g < next
    ensures var m := MatchRow(f, order, rows, seen); m.Some? ==> m.value < next
  {
    FirstAtLevelFacts(order, rows, seen, f.level);
  }

  /** The tables the loop over the floors changes. */
  datatype PlanTables = PlanTables(floors: map<Id, FloorRow>, nextFloor: Id, elements: map<Id, ElementRow>,
                                   nextElement: Id)

  /** The floors `out`, their ids `seen` and the counters after reconciling the floors `fs`. */
  ghost predicate Named(fs: seq<JsonFloor>, order: seq<Id>, existing: set<Id>, was: PlanTables, out: seq<JsonFloor>,
                        seen: seq<Id>, now: PlanTables)
    requires forall f :: f in order ==> f in was.floors
  {
    && seen == Targets(fs, order, was.floors, was.nextFloor)
    && out == NumberedFloors(fs, seen, existing, was.nextElement)
    && now.nextFloor == was.nextFloor + Created(seen, was.nextFloor)
    && now.nextElement == was.nextElement + NewInFloors(fs, existing)
  }

  /** The rows after reconciling into the floors `out`. */
  ghost predicate Written(c: Id, out: seq<JsonFloor>, was: PlanTables, now: PlanTables) {
    && now.floors == was.floors + FloorRows(c, out)
    && now.elements == was.elements + FloorElementRows(out)
  }

  ghost predicate NamedOne(f: JsonFloor, order: seq<Id>, rows: map<Id, FloorRow>, existing: set<Id>, seen: seq<Id>,
                           was: PlanTables, out: JsonFloor, now: PlanTables)
    requires forall f :: f in order ==> f in rows
  {
    var m := MatchRow(f, order, rows, seen);
    && out == JsonFloor(Some(if m.Some? then m.value else was.nextFloor), f.level, f.info,
                        Numbered(f.elements, existing, was.nextElement))
    && now.nextFloor == was.nextFloor + (if m.Some? then 0 else 1)
    && now.nextElement == was.nextElement + NewCount(f.elements, existing)
  }

  ghost predicate WrittenOne(c: Id, out: JsonFloor, was: PlanTables, now: PlanTables) {
    && out.id.Some?
    && now.floors == was.floors[out.id.value := FloorRow(c, out.level, out.info)]
    && now.elements == was.elements + ElementRows(OnFloor(out.id.value), out.elements)
  }

  lemma {:induction false} NamedStep(fs: seq<JsonFloor>, k: nat, order: seq<Id>, existing: set<Id>, start: PlanTables,
                                     out: seq<JsonFloor>, seen: seq<Id>, was: PlanTables, f: JsonFloor, now: PlanTables)
    requires k < |fs| && forall g :: g in order ==> g in start.floors && g < start.nextFloor
    requires Named(fs[..k], order, existing, start, out, seen, was)
    requires NamedOne(fs[k], order, start.floors, existing, seen, was, f, now)
    ensures Named(fs[..k + 1], order, existing, start, out + [f], seen + [f.id.value], now)
  {
    MatchedOld(fs[k], order, start.floors, seen, start.nextFloor);
    TargetsSnoc(fs, k, order, start.floors, start.nextFloor);
    CreatedSnoc(seen, f.id.value, start.nextFloor);
    NumberedFloorsSnoc(fs, k, seen, f.id.value, existing, start.nextElement);
  }

  lemma {:induction false} WrittenStep(c: Id, out: seq<JsonFloor>, start: PlanTables, was: PlanTables, f: JsonFloor,
                                       now: PlanTables)
    requires Written(c, out, start, was) && WrittenOne(c, f, was, now)
    ensures Written(c, out + [f], start, now)
  {
    FloorRowsSnoc(start.floors, c, out, f);
    FloorElementRowsSnoc(start.elements, out, f);
  }

  lemma {:induction false} MergeAssociates(m: map<Id, ElementRow>, a: map<Id, ElementRow>, b: map<Id, ElementRow>)
    ensures m + (a + b) == (m + a) + b
  {
  }

  lemma {:induction false} WithConfigReady(db: Db, c: Id, space: Id, data: PlanJson, q: Query)
    requires Valid(db) && Answers(db, c, q)
    ensures SaveReady(WithConfig(db, c, space, data), c, q)
    ensures ForecourtClash(WithConfig(db, c, space, data), c, data) <==> ForecourtClash(db, c, data)
  {
    UpsertedReady(db, c, space, data, q);
  }

  // ----- The tables between the steps of a save -----------------------------------------------------

  function MenusOn(menus: map<(Id, Id), bool>, elements: map<Id, ElementRow>): (r: map<(Id, Id), bool>) {
    map k | k in menus && k.0 in elements :: menus[k]
  }

  /** Once the floors and the forecourt are reconciled. */
  function Reconciled(db: Db, c: Id, p: PlanJson, q: Query): (r: Db)
    requires Answers(db, c, q)
  {
    var out, fs := SavedPlan(db, c, p, q), SavedFloors(db, p, q.scan);
    db.(floors := db.floors + FloorRows(c, out.floors),
        forecourts := ForecourtsWith(db, c, p.forecourt),
        elements := db.elements + PlanRows(c, out),
        nextFloor := NextFloor(db, fs, q.order),
        nextZone := NextZone(db, c, p.forecourt),
        nextElement := NextElement(db, c, p, fs))
  }

  function ZoneRows(c: Id, zone: Option<JsonZone>): (m: map<Id, ElementRow>) {
    if zone.Some? then ElementRows(OnForecourt(c), zone.value.elements) else map[]
  }

  function TablesOf(db: Db): (t: PlanTables) {
    PlanTables(db.floors, db.nextFloor, db.elements, db.nextElement)
  }

  function ForecourtsWith(db: Db, c: Id, zone: Option<JsonZone>): (r: map<Id, ZoneRow>) {
    if zone.None? then db.forecourts else db.forecourts[c := ZoneRow(ForecourtId(db, c), zone.value.info)]
  }

  function NextZone(db: Db, c: Id, zone: Option<JsonZone>): (r: Id) {
    if zone.Some? && c !in db.forecourts then db.nextZone + 1 else db.nextZone
  }

  lemma {:induction false} SameZones(db: Db, now: Db, c: Id, zone: Option<JsonZone>)
    requires now.forecourts == db.forecourts && now.nextZone == db.nextZone
    ensures ForecourtId(now, c) == ForecourtId(db, c) && NextZone(now, c, zone) == NextZone(db, c, zone)
            && ForecourtsWith(now, c, zone) == ForecourtsWith(db, c, zone)
  {
  }

  /** The tables that reconciling does not touch. */
  predicate SameOthers(db: Db, now: Db) {
    && now.spaces == db.spaces && now.configs == db.configs && now.merches == db.merches && now.mappings == db.mappings
    && now.menus == db.menus && now.nextConfig == db.nextConfig
  }

  /** The plan `out` and the tables `now` once floors and forecourt are reconciled. */
  ghost predicate PlanWritten(db: Db, c: Id, p: PlanJson, q: Query, out: PlanJson, now: PlanTables)
    requires Answers(db, c, q)
  {
    && out == SavedPlan(db, c, p, q)
    && now.floors == db.floors + FloorRows(c, out.floors)
    && now.elements == db.elements + FloorElementRows(out.floors) + ZoneRows(c, out.forecourt)
    && now.nextFloor == NextFloor(db, SavedFloors(db, p, q.scan), q.order)
    && now.nextElement == NextElement(db, c, p, SavedFloors(db, p, q.scan))
  }

  lemma {:induction false} PlanIsWritten(db: Db, c: Id, p: PlanJson, q: Query, floors: seq<JsonFloor>, seen: seq<Id>,
                                         was: PlanTables, zone: Option<JsonZone>, now: PlanTables)
    requires Answers(db, c, q)
    requires Named(SavedFloors(db, p, q.scan), q.order, Existing(db, c), TablesOf(db), floors, seen, was)
             && Written(c, floors, TablesOf(db), was)
    requires zone == NumberedZone(p.forecourt, ForecourtId(db, c), Existing(db, c), was.nextElement)
    requires now == was.(elements := was.elements + ZoneRows(c, zone), nextElement := was.nextElement +
                         NewInZone(p.forecourt, Existing(db, c)))
    ensures PlanWritten(db, c, p, q, PlanJson(floors, zone, p.merch), now)
  {
  }

  lemma {:induction false} PlanIsReconciled(db: Db, c: Id, p: PlanJson, q: Query, now: Db)
    requires Answers(db, c, q) && SameOthers(db, now) && PlanWritten(db, c, p, q, SavedPlan(db, c, p, q), TablesOf(now))
    requires now.forecourts == ForecourtsWith(db, c, p.forecourt) && now.nextZone == NextZone(db, c, p.forecourt)
    ensures now == Reconciled(db, c, p, q)
  {
    var out := SavedPlan(db, c, p, q);
    MergeAssociates(db.elements, FloorElementRows(out.floors), ZoneRows(c, out.forecourt));
  }

  function WithoutElements(db: Db, gone: set<Id>): (r: Db) {
    db.(elements := db.elements - gone, menus := map k | k in db.menus && k.0 !in gone :: db.menus[k])
  }

  /** Deleting floor rows, with the elements on them. */
  function WithoutFloors(db: Db, gone: set<Id>): (r: Db) {
    WithoutElements(db, OnFloors(db, gone)).(floors := db.floors - gone)
  }

  lemma {:induction false} SaveInSteps(db: Db, c: Id, p: PlanJson, q: Query)
    requires SaveReady(db, c, q)
    ensures var out := SavedPlan(db, c, p, q);
            SaveInto(db, c, p, q).db ==
                WriteData(Pruning(Reconciled(db, c, p, q), Pruned(db, c, out), Dropped(db, c, out)), c, out)
  {
    var out, r := SavedPlan(db, c, p, q), Reconciled(db, c, p, q);
    PruningParts(db, r, Pruned(db, c, out), Dropped(db, c, out), Cascaded(db, c, out));
  }

  function Pruning(db: Db, pruned: set<Id>, dropped: set<Id>): (r: Db) {
    WithoutFloors(WithoutElements(db, pruned), dropped)
  }

  lemma {:induction false} PruningParts(db: Db, r: Db, pruned: set<Id>, dropped: set<Id>, cascaded: set<Id>)
    requires db.elements.Keys <= r.elements.Keys && r.menus == db.menus && forall k :: k in db.menus ==>
               k.0 in db.elements
    requires cascaded == ElementsOn(r.elements - pruned, dropped)
    ensures var now := Pruning(r, pruned, dropped);
            && now == r.(floors := r.floors - dropped, elements := r.elements - pruned - cascaded, menus := now.menus)
            && now.menus == map k | k in db.menus && k.0 in now.elements :: db.menus[k]
  {
  }

  lemma {:induction false} WithoutFloorsTwice(db: Db, a: set<Id>, b: set<Id>)
    ensures WithoutFloors(WithoutFloors(db, a), b) == WithoutFloors(db, a + b)
  {
  }

  /**
   What a save reads before it writes: its elements, the mapped ones, the floors that hold one, and the
   assignments.
   */
  datatype Loaded = Loaded(existing: set<Id>, protected: set<Id>, held: set<Id>, menus: map<(Id, Id), bool>)

  function LoadedFrom(db: Db, c: Id): (r: Loaded) {
    var existing := Existing(db, c);
    var protected := existing * Mapped(db);
    Loaded(existing, protected, set f | f in FloorsOf(db, c) && OnFloors(db, {f}) * protected != {},
           map k | k in db.menus && k.0 in existing :: db.menus[k])
  }

  function ToPrune(loaded: Loaded, out: PlanJson): (s: set<Id>) {
    loaded.existing - (set x | x in PlanIds(out)) - loaded.protected
  }

  function ToDrop(loaded: Loaded, order: seq<Id>, out: PlanJson): (s: set<Id>) {
    (set f | f in order) - TargetSet(out.floors) - loaded.held
  }

  /** What the code prunes is what the model says. */
  lemma {:induction false} LoadedDecides(db: Db, c: Id, p: PlanJson, q: Query)
    requires SaveReady(db, c, q)
    ensures var out := SavedPlan(db, c, p, q);
            && ToPrune(LoadedFrom(db, c), out) == Pruned(db, c, out)
            && ToDrop(LoadedFrom(db, c), q.order, out) == Dropped(db, c, out)
  {
    var out := SavedPlan(db, c, p, q);
    PlanRowsFacts(db, c, p, q);
    forall f | f in FloorsOf(db, c) ensures OnFloors(db, {f}) <= Existing(db, c) {
    }
  }

  lemma {:induction false} SavedByPruning(db: Db, c: Id, p: PlanJson, q: Query)
    requires SaveReady(db, c, q)
    ensures var out, loaded := SavedPlan(db, c, p, q), LoadedFrom(db, c);
            SaveInto(db, c, p, q).db ==
                WriteData(Pruning(Reconciled(db, c, p, q), ToPrune(loaded, out), ToDrop(loaded, q.order, out)), c, out)
  {
    LoadedDecides(db, c, p, q);
    SaveInSteps(db, c, p, q);
  }

  lemma {:induction false} CapturedMenus(db: Db, c: Id, p: PlanJson, q: Query)
    requires Answers(db, c, q)
    ensures forall k :: k in LoadedFrom(db, c).menus ==>
                k in Reconciled(db, c, p, q).menus && LoadedFrom(db, c).menus[k] == Reconciled(db, c, p, q).menus[k]
  {
  }

  /** Whatever was captured of a surviving element is still there. */
  lemma {:induction false} NothingToRestore(db: Db, pruned: set<Id>, dropped: set<Id>, captured: map<(Id, Id), bool>)
    requires forall k :: k in captured ==> k in db.menus && captured[k] == db.menus[k]
    ensures var now := Pruning(db, pruned, dropped); MenusOn(captured, now.elements) + now.menus == now.menus
  {
  }

  function WriteData(db: Db, c: Id, out: PlanJson): (r: Db)
    requires c in db.configs
  {
    db.(configs := db.configs[c := db.configs[c].(data := out)])
  }

  lemma {:induction false} MoreMenus(captured: map<(Id, Id), bool>, left: set<(Id, Id)>, k: (Id, Id),
                                     elements: map<Id, ElementRow>)
    requires left <= captured.Keys && k in left
    ensures MenusOn(captured - (left - {k}), elements)
            == if k.0 in elements then MenusOn(captured - left, elements)[k := captured[k]]
               else MenusOn(captured - left, elements)
  {
  }

  class Store {
    var spaces: set<Id>
    var configs: map<Id, Config>
    var floors: map<Id, FloorRow>
    var forecourts: map<Id, ZoneRow>
    var merches: map<Id, ZoneRow>
    var elements: map<Id, ElementRow>
    var mappings: map<string, Id>
    var menus: map<(Id, Id), bool>
    var nextConfig: Id
    var nextFloor: Id
    var nextZone: Id
    var nextElement: Id

    function Contents(): (db: Db)
      reads this
    {
      Db(spaces, configs, floors, forecourts, merches, elements, mappings, menus, nextConfig, nextFloor, nextZone,
         nextElement)
    }

    /** Puts every table back, as an aborted transaction does. */
    method Restore(db: Db)
      modifies this
      ensures Contents() == db
    {
      RestorePlans(db);
      spaces := db.spaces;
      elements := db.elements;
      mappings := db.mappings;
      menus := db.menus;
      nextConfig := db.nextConfig;
      nextFloor := db.nextFloor;
      nextZone := db.nextZone;
      nextElement := db.nextElement;
    }

    method RestorePlans(db: Db)
      modifies this`configs, this`floors, this`forecourts, this`merches
      ensures configs == db.configs && floors == db.floors && forecourts == db.forecourts && merches == db.merches
    {
      configs := db.configs;
      floors := db.floors;
      forecourts := db.forecourts;
      merches := db.merches;
    }

    // ----- 2a: orphans ----------------------------------------------------------------------------

    /** The mapped elements absent from the payload, in the order the query lists them. */
    method CollectOrphans(incoming: seq<Id>, scan: seq<Id>) returns (orphans: seq<JsonElement>)
      requires forall e :: e in scan ==> e in elements
      ensures orphans == Orphans(Contents(), incoming, scan)
    {
      orphans := [];
      for k := 0 to |scan|
        invariant orphans == Orphans(Contents(), incoming, scan[..k])
      {
        assert scan[..k + 1][..k] == scan[..k] && scan[k] in scan;
        if scan[k] in Mapped(Contents()) && scan[k] !in incoming {
          orphans := orphans + [JsonElement(Some(scan[k]), Bare(elements[scan[k]].body))];
        }
      }
      assert scan[..|scan|] == scan;
    }

    /** Puts the orphans on the ground floor of the payload, else on its first floor, else on a new one. */
    method Reinject(fs: seq<JsonFloor>, orphans: seq<JsonElement>) returns (r: seq<JsonFloor>)
      ensures r == Reinjected(fs, orphans)
    {
      if orphans == [] {
        return fs;
      }
      if fs == [] {
        return [JsonFloor(None, 0, "RDC", orphans)];
      }
      var i := 0;
      while i < |fs| && fs[i].level != 0
        invariant i <= |fs| && forall j :: 0 <= j < i ==> fs[j].level != 0
      {
        i := i + 1;
      }
      if i == |fs| {
        i := 0;
      }
      OrphanFloorIs(fs, i);
      r := fs[i := fs[i].(elements := fs[i].elements + orphans)];
    }

    /** Step 2a: the floors of the payload with the orphans. */
    method PutBackOrphans(p: PlanJson, scan: seq<Id>) returns (fs: seq<JsonFloor>)
      requires forall e :: e in scan ==> e in elements
      ensures fs == SavedFloors(Contents(), p, scan)
    {
      var orphans := CollectOrphans(PlanIds(p), scan);
      fs := Reinject(p.floors, orphans);
    }

    // ----- 3, 4: reconciling ------------------------------------------------------------------------

    /** `reconcileElement`: an update in place for an element of this configuration, else a new row. */
    method ReconcileElement(el: JsonElement, place: Place, existing: set<Id>) returns (out: JsonElement)
      modifies this`elements, this`nextElement
      ensures out == if Known(el, existing) then el else el.(id := Some(old(nextElement)))
      ensures elements == old(elements)[out.id.value := ElementRow(place, el.body)]
      ensures nextElement == old(nextElement) + if Known(el, existing) then 0 else 1
    {
      out := el;
      if el.id.Some? && el.id.value in existing {
        elements := elements[el.id.value := ElementRow(place, el.body)];
      } else {
        elements := elements[nextElement := ElementRow(place, el.body)];
        out := el.(id := Some(nextElement));
        nextElement := nextElement + 1;
      }
    }

    /** The inner loop over the elements of one floor or forecourt. */
    method ReconcileElements(els: seq<JsonElement>, place: Place, existing: set<Id>) returns (out: seq<JsonElement>)
      modifies this`elements, this`nextElement
      ensures out == Numbered(els, existing, old(nextElement))
      ensures elements == old(elements) + ElementRows(place, out)
      ensures nextElement == old(nextElement) + NewCount(els, existing)
    {
      out := [];
      for k := 0 to |els|
        invariant out == Numbered(els[..k], existing, old(nextElement))
        invariant elements == old(elements) + ElementRows(place, out)
        invariant nextElement == old(nextElement) + NewCount(els[..k], existing)
      {
        NumberedSnoc(els, k, existing, old(nextElement));
        var el := ReconcileElement(els[k], place, existing);
        ElementRowsSnoc(old(elements), place, out, el);
        out := out + [el];
      }
      assert els[..|els|] == els;
    }

    /** The row of a payload floor: an updated row of the configuration, or a new one. */
    method ReconcileFloor(c: Id, f: JsonFloor, order: seq<Id>, rows: map<Id, FloorRow>, seen: seq<Id>) returns (id: Id)
      requires forall g :: g in order ==> g in rows
      modifies this`floors, this`nextFloor
      ensures var m := MatchRow(f, order, rows, seen);
              && id == (if m.Some? then m.value else old(nextFloor))
              && nextFloor == old(nextFloor) + (if m.Some? then 0 else 1)
      ensures floors == old(floors)[id := FloorRow(c, f.level, f.info)]
    {
      var m := if f.id.Some? && f.id.value in order then f.id else None;
      if m.None? {
        m := FirstAtLevel(order, rows, seen, f.level);
      }
      if m.Some? {
        id := m.value;
      } else {
        id := nextFloor;
        nextFloor := nextFloor + 1;
      }
      floors := floors[id := FloorRow(c, f.level, f.info)];
    }

    ghost function Tables(): (t: PlanTables)
      reads this
    {
      TablesOf(Contents())
    }

    /** One floor of the payload: its row, then its elements. */
    method ReconcileFloorAndElements(c: Id, f: JsonFloor, order: seq<Id>, rows: map<Id, FloorRow>, seen: seq<Id>,
                                     existing: set<Id>)
      returns (out: JsonFloor)
      requires forall g :: g in order ==> g in rows
      modifies this`floors, this`nextFloor, this`elements, this`nextElement
      ensures NamedOne(f, order, rows, existing, seen, old(Tables()), out, Tables())
      ensures WrittenOne(c, out, old(Tables()), Tables())
    {
      var id := ReconcileFloor(c, f, order, rows, seen);
      var els := ReconcileElements(f.elements, OnFloor(id), existing);
      out := JsonFloor(Some(id), f.level, f.info, els);
    }

    /** The nested loops over floors and their elements. */
    method ReconcileFloors(c: Id, fs: seq<JsonFloor>, order: seq<Id>, existing: set<Id>)
        returns (out: seq<JsonFloor>, seen: seq<Id>)
      requires forall f :: f in order ==> f in floors && f < nextFloor
      modifies this`floors, this`nextFloor, this`elements, this`nextElement
      ensures Named(fs, order, existing, old(Tables()), out, seen, Tables())
      ensures Written(c, out, old(Tables()), Tables())
    {
      var rows := floors;
      ghost var start := Tables();
      out, seen := [], [];
      for k := 0 to |fs|
        invariant Named(fs[..k], order, existing, start, out, seen, Tables())
        invariant Written(c, out, start, Tables())
      {
        ghost var was := Tables();
        var f := ReconcileFloorAndElements(c, fs[k], order, rows, seen, existing);
        NamedStep(fs, k, order, existing, start, out, seen, was, f, Tables());
        WrittenStep(c, out, start, was, f, Tables());
        out, seen := out + [f], seen + [f.id.value];
      }
      assert fs[..|fs|] == fs;
    }

    /**
     Step 4, the forecourt row and its elements; `ok` is false when the row would be the second of its
     configuration.
     */
    method ReconcileForecourt(c: Id, zone: Option<JsonZone>, existing: set<Id>)
        returns (ok: bool, out: Option<JsonZone>)
      modifies this`forecourts, this`nextZone, this`elements, this`nextElement
      ensures ok <==> !(zone.Some? && zone.value.id.Some? && c in old(forecourts)
                        && zone.value.id.value != old(forecourts)[c].id)
      ensures ok ==> out == NumberedZone(zone, ForecourtId(old(Contents()), c), existing, old(nextElement))
      ensures ok ==> forecourts == ForecourtsWith(old(Contents()), c, zone)
                     && nextZone == NextZone(old(Contents()), c, zone)
      ensures ok ==> elements == old(elements) + ZoneRows(c, out)
                     && nextElement == old(nextElement) + NewInZone(zone, existing)
    {
      if zone.None? {
        return true, None;
      }
      var z, id := zone.value, nextZone;
      if c in forecourts && (z.id.None? || z.id.value == forecourts[c].id) {
        id := forecourts[c].id;
      } else if c in forecourts {
        return false, zone;
      } else {
        nextZone := nextZone + 1;
      }
      forecourts := forecourts[c := ZoneRow(id, z.info)];
      var els := ReconcileElements(z.elements, OnForecourt(c), existing);
      ok, out := true, Some(JsonZone(Some(id), z.info, els));
    }

    /** Steps 3 and 4: the floors of the payload, orphans included, then its forecourt. */
    method ReconcilePlan(c: Id, p: PlanJson, q: Query, fs: seq<JsonFloor>, existing: set<Id>)
        returns (ok: bool, out: PlanJson)
      requires Answers(Contents(), c, q) && forall f :: f in q.order ==> f < nextFloor
      requires fs == SavedFloors(Contents(), p, q.scan) && existing == Existing(Contents(), c)
      modifies this`floors, this`nextFloor, this`forecourts, this`nextZone, this`elements, this`nextElement
      ensures ok <==> !ForecourtClash(old(Contents()), c, p)
      ensures ok ==> PlanWritten(old(Contents()), c, p, q, out, Tables())
      ensures ok ==> forecourts == ForecourtsWith(old(Contents()), c, p.forecourt)
                     && nextZone == NextZone(old(Contents()), c, p.forecourt)
    {
      ghost var db := Contents();
      var floorsOut, seen := ReconcileFloors(c, fs, q.order, existing);
      ghost var was := Tables();
      SameZones(db, Contents(), c, p.forecourt);
      var zoneOut;
      ok, zoneOut := ReconcileForecourt(c, p.forecourt, existing);
      out := PlanJson(floorsOut, zoneOut, p.merch);
      if ok {
        PlanIsWritten(db, c, p, q, floorsOut, seen, was, zoneOut, Tables());
      }
    }

    // ----- 4b: pruning ------------------------------------------------------------------------------

    /** Deletes elements, and with them their menu assignments. */
    method DeleteElements(gone: set<Id>)
      modifies this`elements, this`menus
      ensures Contents() == WithoutElements(old(Contents()), gone)
    {
      elements := elements - gone;
      menus := map k | k in menus && k.0 !in gone :: menus[k];
    }

    /** Deletes a floor row, and with it the elements on it. */
    method DeleteFloor(f: Id)
      modifies this`floors, this`elements, this`menus
      ensures Contents() == WithoutFloors(old(Contents()), {f})
    {
      DeleteElements(OnFloors(Contents(), {f}));
      floors := floors - {f};
    }

    /** The loop over the loaded floor rows: `seen` are in the payload, `held` carried a mapped element when loaded. */
    method DropFloors(order: seq<Id>, seen: set<Id>, held: set<Id>)
      modifies this`floors, this`elements, this`menus
      ensures Contents() == WithoutFloors(old(Contents()), (set f | f in order) - seen - held)
    {
      ghost var start, dropped := Contents(), {};
      for k := 0 to |order|
        invariant dropped == (set f | f in order[..k]) - seen - held
        invariant Contents() == WithoutFloors(start, dropped)
      {
        assert order[..k + 1] == order[..k] + [order[k]];
        if order[k] !in seen && order[k] !in held {
          WithoutFloorsTwice(start, dropped, {order[k]});
          DeleteFloor(order[k]);
          dropped := dropped + {order[k]};
        }
      }
      assert order[..|order|] == order;
    }

    // ----- 5: menu assignments ------------------------------------------------------------------------

    /** Puts back captured assignments whose element exists and which are missing; when none is, nothing changes. */
    method RestoreMenus(captured: map<(Id, Id), bool>)
      modifies this`menus
      ensures menus == MenusOn(captured, elements) + old(menus)
    {
      var left := captured.Keys;
      while left != {}
        invariant left <= captured.Keys
        invariant menus == MenusOn(captured - left, elements) + old(menus)
        decreases left
      {
        var k :| k in left;
        MoreMenus(captured, left, k, elements);
        left := left - {k};
        if k.0 in elements && k !in menus {
          menus := menus[k := captured[k]];
        }
      }
    }

    // ----- The whole save -----------------------------------------------------------------------------

    /** Steps 4b to 6. */
    method PruneAndWrite(c: Id, out: PlanJson, order: seq<Id>, loaded: Loaded)
      requires c in configs
      requires forall k :: k in loaded.menus ==> k in menus && loaded.menus[k] == menus[k]
      modifies this`elements, this`menus, this`floors, this`configs
      ensures Contents() ==
              WriteData(Pruning(old(Contents()), ToPrune(loaded, out), ToDrop(loaded, order, out)), c, out)
    {
      DeleteElements(ToPrune(loaded, out));
      DropFloors(order, TargetSet(out.floors), loaded.held);
      NothingToRestore(old(Contents()), ToPrune(loaded, out), ToDrop(loaded, order, out), loaded.menus);
      RestoreMenus(loaded.menus);
      configs := configs[c := configs[c].(data := out)];
    }

    /** Steps 2a to 4. */
    method ReconcileRows(c: Id, p: PlanJson, q: Query, existing: set<Id>) returns (ok: bool, out: PlanJson)
      requires Answers(Contents(), c, q) && (forall f :: f in q.order ==> f < nextFloor)
               && existing == Existing(Contents(), c)
      modifies this`floors, this`nextFloor, this`forecourts, this`nextZone, this`elements, this`nextElement
      ensures ok <==> !ForecourtClash(old(Contents()), c, p)
      ensures ok ==> out == SavedPlan(old(Contents()), c, p, q) && Contents() == Reconciled(old(Contents()), c, p, q)
    {
      ghost var db := Contents();
      var fs := PutBackOrphans(p, q.scan);
      ok, out := ReconcilePlan(c, p, q, fs, existing);
      if ok {
        PlanIsReconciled(db, c, p, q, Contents());
      }
    }

    /** Steps 2a to 6; `ok` is false when the forecourt row is refused. */
    method SaveRows(c: Id, p: PlanJson, q: Query) returns (ok: bool, out: PlanJson)
      requires SaveReady(Contents(), c, q)
      modifies this
      ensures ok <==> !ForecourtClash(old(Contents()), c, p)
      ensures ok ==>
                  out == SaveInto(old(Contents()), c, p, q).plan && Contents() == SaveInto(old(Contents()), c, p, q).db
    {
      ghost var db := Contents();
      var loaded := LoadedFrom(Contents(), c);
      OrderFacts(db, c, q.order);
      ok, out := ReconcileRows(c, p, q, loaded.existing);
      if ok {
        CapturedMenus(db, c, p, q);
        PruneAndWrite(c, out, q.order, loaded);
        SavedByPruning(db, c, p, q);
      }
    }

    /** `saveConfiguration`: the checks, the row of the configuration, then the plan; an error undoes everything. */
    method SaveConfiguration(c: Id, space: Id, data: PlanJson, q: Query) returns (r: Result<PlanJson, OpError>)
      requires Valid(Contents()) && Answers(Contents(), c, q)
      modifies this
      ensures var s := SavePlan(old(Contents()), c, space, data, q);
              && r == (if s.Ok? then Ok(s.value.plan) else Err(s.error))
              && Contents() == (if s.Ok? then s.value.db else old(Contents()))
    {
      if space !in spaces {
        return Err(NotFound);
      }
      if c in configs && configs[c].space in spaces && configs[c].space != space {
        return Err(Forbidden);
      }
      var before := Contents();
      if c in configs {
        configs := configs[c := configs[c].(data := data)];
      } else {
        configs, nextConfig := configs[c := Config(space, false, data, 0)], if c < nextConfig then nextConfig
            else c + 1;
      }
      WithConfigReady(before, c, space, data, q);
      var ok, out := SaveRows(c, data, q);
      if !ok {
        Restore(before);
        return Err(ForecourtUniqueViolation);
      }
      r := Ok(out);
    }
  }
}
