/**
 Loading a configuration (spaces.service.ts, `getConfiguration`): the JSON floors and the floor
 rows are merged into one floor per level.
 */
module FloorPlanLoad {
  import opened Common
  import opened FloorPlan
  import opened FloorPlanSave

  // ----- The parts a level is merged from -----------------------------------------------------

  /** The elements of the JSON floors at a level, in order. */
  function JsonAt(fs: seq<JsonFloor>, level: int): (els: seq<JsonElement>) {
    if fs == [] then []
    else
      var n := |fs| - 1;
      JsonAt(fs[..n], level) + if fs[n].level == level then fs[n].elements else []
  }

  function RowElement(db: Db, e: Id): (el: JsonElement)
    requires e in db.elements
  {
    JsonElement(Some(e), Shown(db.elements[e].body))
  }

  /** The element rows on one floor row, in the order the query lists them. */
  function RowsOn(db: Db, scan: seq<Id>, f: Id): (els: seq<JsonElement>)
    requires forall e :: e in scan ==> e in db.elements
  {
    if scan == [] then []
    else
      var n := |scan| - 1;
      RowsOn(db, scan[..n], f) + if db.elements[scan[n]].place == OnFloor(f) then [RowElement(db, scan[n])] else []
  }

  function RowsAt(db: Db, order: seq<Id>, scan: seq<Id>, level: int): (els: seq<JsonElement>)
    requires forall f :: f in order ==> f in db.floors
    requires forall e :: e in scan ==> e in db.elements
  {
    if order == [] then []
    else
      var n := |order| - 1;
      RowsAt(db, order[..n], scan, level) + if db.floors[order[n]].level == level then RowsOn(db, scan, order[n])
          else []
  }

  /** Adds the elements whose id is not there yet; the first version of an id wins. */
  function KeepOnto(acc: seq<JsonElement>, els: seq<JsonElement>): (r: seq<JsonElement>) {
    if els == [] then acc
    else
      var n := |els| - 1;
      var before := KeepOnto(acc, els[..n]);
      if els[n].id.Some? && els[n].id.value !in IdsOf(before) then before + [els[n]] else before
  }

  function Idless(els: seq<JsonElement>): (r: seq<JsonElement>) {
    if els == [] then []
    else Idless(els[..|els| - 1]) + if els[|els| - 1].id.None? then [els[|els| - 1]] else []
  }

  /** The id of the first JSON floor at a level that has one. */
  function JsonIdAt(fs: seq<JsonFloor>, level: int): (id: Option<Id>) {
    if fs == [] then None
    else
      var before := JsonIdAt(fs[..|fs| - 1], level);
      if before.Some? then before else if fs[|fs| - 1].level == level then fs[|fs| - 1].id else None
  }

  /** The first of the floor rows at a level that hold the most elements. */
  function FullestAt(db: Db, order: seq<Id>, scan: seq<Id>, level: int): (id: Option<Id>)
    requires forall f :: f in order ==> f in db.floors
    requires forall e :: e in scan ==> e in db.elements
  {
    if order == [] then None
    else
      var n := |order| - 1;
      var before := FullestAt(db, order[..n], scan, level);
      if db.floors[order[n]].level == level &&
         (before.None? || |RowsOn(db, scan, before.value)| < |RowsOn(db, scan, order[n])|) then Some(order[n])
      else before
  }

  /** Name and geometry: of the first JSON floor with an id, else of the first JSON floor, else of the first row. */
  function JsonInfoAt(fs: seq<JsonFloor>, level: int): (info: Option<Info>) {
    if fs == [] then None
    else
      var f := fs[|fs| - 1];
      var before := fs[..|fs| - 1];
      if f.level == level && (JsonInfoAt(before, level).None? || (f.id.Some? && JsonIdAt(before, level).None?))
          then Some(f.info)
      else JsonInfoAt(before, level)
  }

  function RowInfoAt(db: Db, order: seq<Id>, level: int): (info: Option<Info>)
    requires forall f :: f in order ==> f in db.floors
  {
    if order == [] then None
    else
      var before := RowInfoAt(db, order[..|order| - 1], level);
      if before.Some? then before
      else if db.floors[order[|order| - 1]].level == level then Some(db.floors[order[|order| - 1]].info) else None
  }

  /** The one floor a level is merged into. */
  function LoadedFloor(db: Db, fs: seq<JsonFloor>, order: seq<Id>, scan: seq<Id>, level: int): (f: JsonFloor)
    requires forall f :: f in order ==> f in db.floors
    requires forall e :: e in scan ==> e in db.elements
  {
    var best := FullestAt(db, order, scan, level);
    var info := JsonInfoAt(fs, level);
    JsonFloor(
      if best.Some? && RowsOn(db, scan, best.value) != [] then best
      else if JsonIdAt(fs, level).Some? then JsonIdAt(fs, level) else best,
      level,
      if info.Some? then info.value else RowInfoAt(db, order, level).GetOr(""),
      KeepOnto([], JsonAt(fs, level) + RowsAt(db, order, scan, level)) + Idless(JsonAt(fs, level)))
  }

  predicate LevelUsed(db: Db, fs: seq<JsonFloor>, order: seq<Id>, level: int)
    requires forall f :: f in order ==> f in db.floors
  {
    (exists f :: f in fs && f.level == level) || (exists f :: f in order && db.floors[f].level == level)
  }

  ghost predicate LoadReady(db: Db, c: Id, order: seq<Id>, scan: seq<Id>) {
    Valid(db) && c in db.configs && Enumerates(order, FloorsOf(db, c))
        && Enumerates(scan, OnFloors(db, FloorsOf(db, c)))
  }

  /** `p` is what loading configuration `c` gives: the merged floor of each level in use, each level once. */
  ghost predicate IsLoad(db: Db, c: Id, order: seq<Id>, scan: seq<Id>, p: PlanJson)
    requires LoadReady(db, c, order, scan)
  {
    var json := db.configs[c].data;
    && (forall i, j :: 0 <= i < j < |p.floors| ==> p.floors[i].level != p.floors[j].level)
    && (forall i :: 0 <= i < |p.floors| ==>
          LevelUsed(db, json.floors, order, p.floors[i].level) &&
          p.floors[i] == LoadedFloor(db, json.floors, order, scan, p.floors[i].level))
    && (forall level :: LevelUsed(db, json.floors, order, level) ==>
        exists i :: 0 <= i < |p.floors| && p.floors[i].level == level)
    && p.forecourt == json.forecourt && p.merch == json.merch
  }

  // ----- What a merged level holds --------------------------------------------------------------

  lemma {:induction false} KeepOntoConcat(acc: seq<JsonElement>, a: seq<JsonElement>, b: seq<JsonElement>)
    ensures KeepOnto(acc, a + b) == KeepOnto(KeepOnto(acc, a), b)
  {
    if b == [] {
      assert a + b == a;
    } else {
      assert (a + b)[..|a + b| - 1] == a + b[..|b| - 1];
      KeepOntoConcat(acc, a, b[..|b| - 1]);
    }
  }

  lemma {:induction false} KeptId(acc: seq<JsonElement>, els: seq<JsonElement>, x: Id)
    ensures x in IdsOf(KeepOnto(acc, els)) <==> x in IdsOf(acc) || x in IdsOf(els)
  {
    if els != [] {
      var n := |els| - 1;
      var before := KeepOnto(acc, els[..n]);
      KeptId(acc, els[..n], x);
      if els[n].id.Some? && els[n].id.value !in IdsOf(before) {
        IdsConcat(before, [els[n]]);
        IdsOfOne(els[n]);
      }
    }
  }

  /** Merging keeps each id once, and exactly the ids it was given. */
  lemma {:induction false} KeptIds(acc: seq<JsonElement>, els: seq<JsonElement>)
    requires Distinct(IdsOf(acc))
    ensures Distinct(IdsOf(KeepOnto(acc, els)))
    ensures forall x :: x in IdsOf(KeepOnto(acc, els)) <==> x in IdsOf(acc) || x in IdsOf(els)
  {
    KeptDistinct(acc, els);
    forall x: Id ensures x in IdsOf(KeepOnto(acc, els)) <==> x in IdsOf(acc) || x in IdsOf(els) {
      KeptId(acc, els, x);
    }
  }

  lemma {:induction false} KeptDistinct(acc: seq<JsonElement>, els: seq<JsonElement>)
    requires Distinct(IdsOf(acc))
    ensures Distinct(IdsOf(KeepOnto(acc, els)))
  {
    if els != [] {
      var n := |els| - 1;
      KeptDistinct(acc, els[..n]);
      OneMoreDistinct(KeepOnto(acc, els[..n]), els[n]);
    }
  }

  lemma {:induction false} OneMoreDistinct(els: seq<JsonElement>, e: JsonElement)
    requires Distinct(IdsOf(els))
    ensures e.id.Some? && e.id.value !in IdsOf(els) ==> Distinct(IdsOf(els + [e]))
  {
    IdsConcat(els, [e]);
    IdsOfOne(e);
    if e.id.Some? {
      DistinctConcat(IdsOf(els), [e.id.value]);
    }
  }

  lemma {:induction false} IdsOfOne(e: JsonElement)
    ensures IdsOf([e]) == if e.id.Some? then [e.id.value] else []
  {
  }

  /** The version kept of an id is the first one. */
  lemma {:induction false} FirstVersionKept(acc: seq<JsonElement>, els: seq<JsonElement>, k: nat)
    requires k < |els| && els[k].id.Some? && els[k].id.value !in IdsOf(acc) && els[k].id.value !in IdsOf(els[..k])
    ensures els[k] in KeepOnto(acc, els)
  {
    var n := |els| - 1;
    if k < n {
      assert els[..n][..k] == els[..k];
      FirstVersionKept(acc, els[..n], k);
      KeptStays(acc, els, els[k]);
    } else {
      KeptId(acc, els[..n], els[k].id.value);
      NewIsKept(acc, els);
    }
  }

  lemma {:induction false} KeptStays(acc: seq<JsonElement>, els: seq<JsonElement>, e: JsonElement)
    requires els != [] && e in KeepOnto(acc, els[..|els| - 1])
    ensures e in KeepOnto(acc, els)
  {
  }

  lemma {:induction false} NewIsKept(acc: seq<JsonElement>, els: seq<JsonElement>)
    requires els != [] && els[|els| - 1].id.Some?
    requires els[|els| - 1].id.value !in IdsOf(KeepOnto(acc, els[..|els| - 1]))
    ensures els[|els| - 1] in KeepOnto(acc, els)
  {
  }

  lemma {:induction false} IdlessHasNoIds(els: seq<JsonElement>)
    ensures IdsOf(Idless(els)) == []
  {
    if els != [] {
      var n := |els| - 1;
      IdlessHasNoIds(els[..n]);
      if els[n].id.None? {
        IdsConcat(Idless(els[..n]), [els[n]]);
        IdsOfOne(els[n]);
      } else {
        assert Idless(els) == Idless(els[..n]);
      }
    }
  }

  lemma {:induction false} JsonAtIds(fs: seq<JsonFloor>, level: int, x: Id)
    ensures x in IdsOf(JsonAt(fs, level)) <==>
                exists i :: 0 <= i < |fs| && fs[i].level == level && x in IdsOf(fs[i].elements)
  {
    if fs != [] {
      var n := |fs| - 1;
      JsonAtIds(fs[..n], level, x);
      IdsConcat(JsonAt(fs[..n], level), if fs[n].level == level then fs[n].elements else []);
      if i :| 0 <= i < n && fs[i].level == level && x in IdsOf(fs[i].elements) {
        assert fs[..n][i].level == level && x in IdsOf(fs[..n][i].elements);
      }
    }
  }

  lemma {:induction false} RowsOnIds(db: Db, scan: seq<Id>, f: Id)
    requires forall e :: e in scan ==> e in db.elements
    ensures forall x :: x in IdsOf(RowsOn(db, scan, f)) <==> x in scan && db.elements[x].place == OnFloor(f)
    ensures RowsOn(db, scan, f) == [] <==> forall x :: x in scan ==> db.elements[x].place != OnFloor(f)
  {
    if scan != [] {
      var n := |scan| - 1;
      assert forall x :: x in scan <==> x in scan[..n] || x == scan[n];
      RowsOnIds(db, scan[..n], f);
      if db.elements[scan[n]].place == OnFloor(f) {
        IdsConcat(RowsOn(db, scan[..n], f), [RowElement(db, scan[n])]);
        IdsOfOne(RowElement(db, scan[n]));
      } else {
        assert RowsOn(db, scan, f) == RowsOn(db, scan[..n], f);
      }
    }
  }

  function ScannedOn(db: Db, scan: seq<Id>, f: Id): (s: set<Id>) {
    set e | e in scan && e in db.elements && db.elements[e].place == OnFloor(f)
  }

  lemma {:induction false} RowsOnCount(db: Db, scan: seq<Id>, f: Id)
    requires Distinct(scan) && forall e :: e in scan ==> e in db.elements
    ensures |RowsOn(db, scan, f)| == |ScannedOn(db, scan, f)|
  {
    if scan != [] {
      var n := |scan| - 1;
      assert scan == scan[..n] + [scan[n]];
      RowsOnCount(db, scan[..n], f);
      var before := ScannedOn(db, scan[..n], f);
      if db.elements[scan[n]].place == OnFloor(f) {
        assert ScannedOn(db, scan, f) == before + {scan[n]} && scan[n] !in before;
      } else {
        assert ScannedOn(db, scan, f) == before;
      }
    }
  }

  /** The query lists every element on a floor of the configuration. */
  lemma {:induction false} RowsOnAll(db: Db, c: Id, scan: seq<Id>, f: Id)
    requires Enumerates(scan, OnFloors(db, FloorsOf(db, c))) && f in FloorsOf(db, c)
    ensures |RowsOn(db, scan, f)| == |OnFloors(db, {f})|
  {
    RowsOnCount(db, scan, f);
    forall e ensures e in ScannedOn(db, scan, f) <==> e in OnFloors(db, {f}) {
      assert e in scan <==> e in OnFloors(db, FloorsOf(db, c));
    }
    assert ScannedOn(db, scan, f) == OnFloors(db, {f});
  }

  lemma {:induction false} RowsAtIds(db: Db, order: seq<Id>, scan: seq<Id>, level: int, x: Id)
    requires forall f :: f in order ==> f in db.floors
    requires forall e :: e in scan ==> e in db.elements
    ensures x in IdsOf(RowsAt(db, order, scan, level)) <==>
            x in scan && db.elements[x].place.OnFloor? && db.elements[x].place.floor in order
                && db.floors[db.elements[x].place.floor].level == level
  {
    if order != [] {
      var n := |order| - 1;
      assert order == order[..n] + [order[n]];
      RowsAtIds(db, order[..n], scan, level, x);
      RowsOnIds(db, scan, order[n]);
      IdsConcat(RowsAt(db, order[..n], scan, level), if db.floors[order[n]].level == level
                then RowsOn(db, scan, order[n]) else []);
    }
  }

  /** The row of `x` is on a floor of configuration `c` at this level. */
  ghost predicate OnLevel(db: Db, c: Id, x: Id, level: int) {
    && x in db.elements && db.elements[x].place.OnFloor? && db.elements[x].place.floor in FloorsOf(db, c)
    && db.floors[db.elements[x].place.floor].level == level
  }

  /**
   Each level of a loaded plan holds exactly the union of its JSON elements and its rows, each id
   once; a JSON version wins over the row.
   */
  lemma {:induction false} LoadedUnion(db: Db, c: Id, order: seq<Id>, scan: seq<Id>, p: PlanJson, i: nat)
    requires LoadReady(db, c, order, scan) && IsLoad(db, c, order, scan, p) && i < |p.floors|
    ensures Distinct(IdsOf(p.floors[i].elements))
    ensures forall x :: x in IdsOf(p.floors[i].elements) <==>
              x in IdsOf(JsonAt(db.configs[c].data.floors, p.floors[i].level)) || OnLevel(db, c, x, p.floors[i].level)
  {
    var level := p.floors[i].level;
    var json, rows := JsonAt(db.configs[c].data.floors, level), RowsAt(db, order, scan, level);
    KeptIds([], json + rows);
    IdsConcat(json, rows);
    IdlessHasNoIds(json);
    IdsConcat(KeepOnto([], json + rows), Idless(json));
    forall x ensures x in IdsOf(rows) <==> OnLevel(db, c, x, level) {
      RowsAtIds(db, order, scan, level, x);
    }
  }

  lemma {:induction false} JsonVersionWins(db: Db, c: Id, order: seq<Id>, scan: seq<Id>, p: PlanJson, i: nat, k: nat)
    requires LoadReady(db, c, order, scan) && IsLoad(db, c, order, scan, p) && i < |p.floors|
    requires var json := JsonAt(db.configs[c].data.floors, p.floors[i].level);
             k < |json| && json[k].id.Some? && json[k].id.value !in IdsOf(json[..k])
    ensures JsonAt(db.configs[c].data.floors, p.floors[i].level)[k] in p.floors[i].elements
  {
    var level := p.floors[i].level;
    var json, rows := JsonAt(db.configs[c].data.floors, level), RowsAt(db, order, scan, level);
    assert (json + rows)[..k] == json[..k] && (json + rows)[k] == json[k];
    FirstVersionKept([], json + rows, k);
  }

  /** JSON elements without an id are kept, as often as they occur. */
  lemma {:induction false} IdlessCounted(els: seq<JsonElement>, e: JsonElement)
    requires e.id.None?
    ensures multiset(Idless(els))[e] == multiset(els)[e]
  {
    if els != [] {
      assert els == els[..|els| - 1] + [els[|els| - 1]];
      IdlessCounted(els[..|els| - 1], e);
    }
  }

  lemma {:induction false} KeptHaveIds(acc: seq<JsonElement>, els: seq<JsonElement>, e: JsonElement)
    requires e.id.None? && e !in acc
    ensures e !in KeepOnto(acc, els)
  {
    if els != [] {
      KeptHaveIds(acc, els[..|els| - 1], e);
    }
  }

  lemma {:induction false} LoadedIdless(db: Db, c: Id, order: seq<Id>, scan: seq<Id>, p: PlanJson, i: nat,
                                        e: JsonElement)
    requires LoadReady(db, c, order, scan) && IsLoad(db, c, order, scan, p) && i < |p.floors| && e.id.None?
    ensures multiset(p.floors[i].elements)[e] == multiset(JsonAt(db.configs[c].data.floors, p.floors[i].level))[e]
  {
    var level := p.floors[i].level;
    var json, rows := JsonAt(db.configs[c].data.floors, level), RowsAt(db, order, scan, level);
    IdlessCounted(json, e);
    KeptHaveIds([], json + rows, e);
    var kept := KeepOnto([], json + rows);
    assert multiset(kept + Idless(json)) == multiset(kept) + multiset(Idless(json));
    assert e !in multiset(kept);
  }

  lemma {:induction false} FullestFacts(db: Db, order: seq<Id>, scan: seq<Id>, level: int)
    requires forall f :: f in order ==> f in db.floors
    requires forall e :: e in scan ==> e in db.elements
    ensures var best := FullestAt(db, order, scan, level);
            && (best.Some? ==> best.value in order && db.floors[best.value].level == level)
            && forall f :: f in order && db.floors[f].level == level ==>
                 best.Some? && |RowsOn(db, scan, f)| <= |RowsOn(db, scan, best.value)|
  {
    if order != [] {
      var n := |order| - 1;
      assert order == order[..n] + [order[n]];
      FullestFacts(db, order[..n], scan, level);
    }
  }

  lemma {:induction false} JsonIdFacts(fs: seq<JsonFloor>, level: int)
    ensures JsonIdAt(fs, level).Some? ==>
                exists i :: 0 <= i < |fs| && fs[i].level == level && fs[i].id == JsonIdAt(fs, level)
    ensures JsonIdAt(fs, level).None? ==> forall i :: 0 <= i < |fs| && fs[i].level == level ==> fs[i].id.None?
  {
    if fs != [] {
      var n := |fs| - 1;
      JsonIdFacts(fs[..n], level);
      if JsonIdAt(fs[..n], level).Some? {
        var i :| 0 <= i < n && fs[..n][i].level == level && fs[..n][i].id == JsonIdAt(fs, level);
        assert fs[i].id == JsonIdAt(fs, level);
      }
    }
  }

  /** The id of a loaded floor is that of a fullest row whenever some row of its level holds an element. */
  lemma {:induction false} LoadedIdFullest(db: Db, c: Id, order: seq<Id>, scan: seq<Id>, p: PlanJson, i: nat, f: Id)
    requires LoadReady(db, c, order, scan) && IsLoad(db, c, order, scan, p) && i < |p.floors|
    requires f in FloorsOf(db, c) && db.floors[f].level == p.floors[i].level && OnFloors(db, {f}) != {}
    ensures var id := p.floors[i].id;
            && id.Some? && id.value in FloorsOf(db, c) && db.floors[id.value].level == p.floors[i].level
            && OnFloors(db, {id.value}) != {}
            && |OnFloors(db, {f})| <= |OnFloors(db, {id.value})|
  {
    var level := p.floors[i].level;
    FullestFacts(db, order, scan, level);
    RowsOnAll(db, c, scan, f);
    RowsOnAll(db, c, scan, FullestAt(db, order, scan, level).value);
    var e :| e in OnFloors(db, {f});
    assert e in OnFloors(db, FloorsOf(db, c));
    RowsOnIds(db, scan, f);
    var best := FullestAt(db, order, scan, level).value;
    RowsOnIds(db, scan, best);
    var x :| x in scan && db.elements[x].place == OnFloor(best);
    assert x in OnFloors(db, {best});
  }
}
