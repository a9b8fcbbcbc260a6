/**
 What a loaded floor shows, read off the JSON floors and the rows of its level alone: which version of each
 element, whose name and geometry, and whose id; and what saving it again makes of the rows' attributes.
 */
module FloorPlanLoadDetails {
  import opened Common
  import opened FloorPlan
  import opened FloorPlanSave
  import opened FloorPlanGuarantees
  import opened FloorPlanLoad
  import opened FloorPlanCollapse
  import opened FloorPlanSaveAgreement
  import opened FloorPlanSaveDetails

  // ----- Which version of an element -----------------------------------------------------------------------

  ghost predicate ListedAtLevel(fs: seq<JsonFloor>, level: int, x: Id) {
    exists j :: 0 <= j < |fs| && fs[j].level == level && Lists(fs[j], x)
  }

  /** Element `k` of floor `j` is before element `m` of floor `l`. */
  predicate Earlier(j: nat, k: nat, l: nat, m: nat) {
    j < l || (j == l && k < m)
  }

  /** Element `k` of floor `j` is the first of the JSON floors at its level with its id. */
  ghost predicate FirstVersion(fs: seq<JsonFloor>, j: nat, k: nat) {
    && j < |fs| && k < |fs[j].elements| && fs[j].elements[k].id.Some?
    && forall l, m :: 0 <= l < |fs| && 0 <= m < |fs[l].elements| && Earlier(l, m, j, k) ==>
         fs[l].level != fs[j].level || fs[l].elements[m].id != fs[j].elements[k].id
  }

  /** Where the elements of floor `j` are among those of its level. */
  lemma {:induction false} JsonAtParts(fs: seq<JsonFloor>, j: nat)
    requires j < |fs|
    ensures var before, all := JsonAt(fs[..j], fs[j].level), JsonAt(fs, fs[j].level);
            && |before| + |fs[j].elements| <= |all| && all[..|before|] == before
            && all[|before|..|before| + |fs[j].elements|] == fs[j].elements
  {
    var n := |fs| - 1;
    if j < n {
      assert fs[..n][..j] == fs[..j] && fs[..n][j] == fs[j];
      JsonAtParts(fs[..n], j);
      var before, mid, all := JsonAt(fs[..j], fs[j].level), JsonAt(fs[..n], fs[j].level), JsonAt(fs, fs[j].level);
      assert all[..|mid|] == mid;
      assert all[..|before|] == mid[..|before|];
      assert all[|before|..|before| + |fs[j].elements|] == mid[|before|..|before| + |fs[j].elements|];
    }
  }

  /** The first JSON version of an element is the one shown. */
  lemma {:induction false} FirstVersionShown(db: Db, c: Id, order: seq<Id>, scan: seq<Id>, p: PlanJson, i: nat, j: nat,
                                             k: nat)
    requires LoadReady(db, c, order, scan) && IsLoad(db, c, order, scan, p) && i < |p.floors|
    requires FirstVersion(db.configs[c].data.floors, j, k)
             && db.configs[c].data.floors[j].level == p.floors[i].level
    ensures db.configs[c].data.floors[j].elements[k] in p.floors[i].elements
  {
    var fs := db.configs[c].data.floors;
    var all, before, x := JsonAt(fs, fs[j].level), JsonAt(fs[..j], fs[j].level), fs[j].elements[k].id.value;
    JsonAtParts(fs, j);
    assert all[|before| + k] == fs[j].elements[k];
    assert all[..|before| + k] == before + fs[j].elements[..k];
    IdsConcat(before, fs[j].elements[..k]);
    NotListedBefore(fs, j, k);
    JsonVersionWins(db, c, order, scan, p, i, |before| + k);
  }

  lemma {:induction false} NotListedBefore(fs: seq<JsonFloor>, j: nat, k: nat)
    requires FirstVersion(fs, j, k)
    ensures fs[j].elements[k].id.value !in IdsOf(JsonAt(fs[..j], fs[j].level))
    ensures fs[j].elements[k].id.value !in IdsOf(fs[j].elements[..k])
  {
    var x := fs[j].elements[k].id.value;
    JsonAtIds(fs[..j], fs[j].level, x);
    forall l | 0 <= l < j && fs[l].level == fs[j].level ensures x !in IdsOf(fs[l].elements) {
      IdsAt(fs[l].elements, x);
      assert forall m :: 0 <= m < |fs[l].elements| ==> Earlier(l, m, j, k);
    }
    IdsAt(fs[j].elements[..k], x);
    assert forall m :: 0 <= m < k ==> Earlier(j, m, j, k);
  }

  lemma {:induction false} KeptFrom(acc: seq<JsonElement>, els: seq<JsonElement>)
    ensures forall el :: el in KeepOnto(acc, els) ==> el in acc || el in els
  {
    if els != [] {
      KeptFrom(acc, els[..|els| - 1]);
    }
  }

  /** A row as it is shown: with everything but its tags. */
  ghost predicate RowShown(db: Db, el: JsonElement) {
    && el.id.Some? && el.id.value in db.elements
    && el.body == Body(db.elements[el.id.value].body.core, db.elements[el.id.value].body.extras, "")
  }

  lemma {:induction false} RowsOnShown(db: Db, scan: seq<Id>, f: Id)
    requires forall e :: e in scan ==> e in db.elements
    ensures forall el :: el in RowsOn(db, scan, f) ==> RowShown(db, el)
  {
    if scan != [] {
      RowsOnShown(db, scan[..|scan| - 1], f);
    }
  }

  lemma {:induction false} RowsAtShown(db: Db, order: seq<Id>, scan: seq<Id>, level: int)
    requires (forall f :: f in order ==> f in db.floors) && forall e :: e in scan ==> e in db.elements
    ensures forall el :: el in RowsAt(db, order, scan, level) ==> RowShown(db, el)
  {
    if order != [] {
      var n := |order| - 1;
      RowsAtShown(db, order[..n], scan, level);
      RowsOnShown(db, scan, order[n]);
    }
  }

  /** An element of the level that its JSON floors do not list is shown as its row has it, but for its tags. */
  lemma {:induction false} RowOnlyShown(db: Db, c: Id, order: seq<Id>, scan: seq<Id>, p: PlanJson, i: nat, x: Id)
    requires LoadReady(db, c, order, scan) && IsLoad(db, c, order, scan, p) && i < |p.floors|
    requires OnLevel(db, c, x, p.floors[i].level)
             && !ListedAtLevel(db.configs[c].data.floors, p.floors[i].level, x)
    ensures JsonElement(Some(x), Body(db.elements[x].body.core, db.elements[x].body.extras, "")) in p.floors[i].elements
  {
    var fs, level := db.configs[c].data.floors, p.floors[i].level;
    var json, rows := JsonAt(fs, level), RowsAt(db, order, scan, level);
    LoadedUnion(db, c, order, scan, p, i);
    IdsAt(p.floors[i].elements, x);
    var k :| 0 <= k < |p.floors[i].elements| && p.floors[i].elements[k].id == Some(x);
    var el := p.floors[i].elements[k];
    JsonAtIds(fs, level, x);
    IdsAt(json, x);
    NoIdlessHasId(json, el);
    KeptFrom([], json + rows);
    RowsAtShown(db, order, scan, level);
    assert el in rows;
  }

  lemma {:induction false} NoIdlessHasId(els: seq<JsonElement>, el: JsonElement)
    requires el.id.Some?
    ensures el !in Idless(els)
  {
    if els != [] {
      NoIdlessHasId(els[..|els| - 1], el);
    }
  }

  /** The ids on a loaded floor: those its level's JSON floors list, and those of the rows at the level, each once. */
  lemma {:induction false} LoadedIds(db: Db, c: Id, order: seq<Id>, scan: seq<Id>, p: PlanJson, i: nat, x: Id)
    requires LoadReady(db, c, order, scan) && IsLoad(db, c, order, scan, p) && i < |p.floors|
    ensures x in IdsOf(p.floors[i].elements) <==>
            ListedAtLevel(db.configs[c].data.floors, p.floors[i].level, x) || OnLevel(db, c, x, p.floors[i].level)
    ensures Distinct(IdsOf(p.floors[i].elements))
  {
    var fs, level := db.configs[c].data.floors, p.floors[i].level;
    LoadedUnion(db, c, order, scan, p, i);
    JsonAtIds(fs, level, x);
    if j :| 0 <= j < |fs| && fs[j].level == level && x in IdsOf(fs[j].elements) {
      assert Lists(fs[j], x);
    }
  }

  /** How often the floors at a level have an element. */
  function TimesAt(fs: seq<JsonFloor>, level: int, e: JsonElement): (n: nat) {
    if fs == [] then 0
    else TimesAt(fs[..|fs| - 1], level, e) +
         if fs[|fs| - 1].level == level then multiset(fs[|fs| - 1].elements)[e] else 0
  }

  lemma {:induction false} JsonAtTimes(fs: seq<JsonFloor>, level: int, e: JsonElement)
    ensures multiset(JsonAt(fs, level))[e] == TimesAt(fs, level, e)
  {
    if fs != [] {
      JsonAtTimes(fs[..|fs| - 1], level, e);
    }
  }

  /** Elements of the JSON without an id are all shown. */
  lemma {:induction false} IdlessShown(db: Db, c: Id, order: seq<Id>, scan: seq<Id>, p: PlanJson, i: nat,
                                       e: JsonElement)
    requires LoadReady(db, c, order, scan) && IsLoad(db, c, order, scan, p) && i < |p.floors| && e.id.None?
    ensures multiset(p.floors[i].elements)[e] == TimesAt(db.configs[c].data.floors, p.floors[i].level, e)
  {
    LoadedIdless(db, c, order, scan, p, i, e);
    JsonAtTimes(db.configs[c].data.floors, p.floors[i].level, e);
  }

  // ----- Whose name, geometry and id -------------------------------------------------------------------------

  /** The first JSON floor at a level. */
  predicate FirstJson(fs: seq<JsonFloor>, level: int, j: nat) {
    j < |fs| && fs[j].level == level && forall l :: 0 <= l < j ==> fs[l].level != level
  }

  /** The first JSON floor at a level with an id. */
  predicate FirstNamed(fs: seq<JsonFloor>, level: int, j: nat) {
    && j < |fs| && fs[j].level == level && fs[j].id.Some?
    && forall l :: 0 <= l < j && fs[l].level == level ==> fs[l].id.None?
  }

  predicate SomeNamed(fs: seq<JsonFloor>, level: int) {
    exists j :: 0 <= j < |fs| && fs[j].level == level && fs[j].id.Some?
  }

  predicate SomeJson(fs: seq<JsonFloor>, level: int) {
    exists j :: 0 <= j < |fs| && fs[j].level == level
  }

  /** The first row at a level, in the order of the query. */
  predicate FirstRow(db: Db, order: seq<Id>, level: int, k: nat)
    requires forall f :: f in order ==> f in db.floors
  {
    k < |order| && db.floors[order[k]].level == level && forall l :: 0 <= l < k ==> db.floors[order[l]].level != level
  }

  lemma {:induction false} JsonIdIs(fs: seq<JsonFloor>, level: int)
    ensures JsonIdAt(fs, level).Some? <==> SomeNamed(fs, level)
    ensures forall j: nat :: FirstNamed(fs, level, j) ==> JsonIdAt(fs, level) == fs[j].id
  {
    if fs != [] {
      var n := |fs| - 1;
      JsonIdIs(fs[..n], level);
      forall j: nat | FirstNamed(fs, level, j) ensures JsonIdAt(fs, level) == fs[j].id {
        if j < n {
          assert FirstNamed(fs[..n], level, j);
        }
      }
      if j :| 0 <= j < n && fs[j].level == level && fs[j].id.Some? {
        assert fs[..n][j] == fs[j];
      }
    }
  }

  lemma {:induction false} JsonInfoIs(fs: seq<JsonFloor>, level: int)
    ensures JsonInfoAt(fs, level).Some? <==> SomeJson(fs, level)
    ensures forall j: nat :: FirstNamed(fs, level, j) ==> JsonInfoAt(fs, level) == Some(fs[j].info)
    ensures !SomeNamed(fs, level) ==>
              forall j: nat :: FirstJson(fs, level, j) ==> JsonInfoAt(fs, level) == Some(fs[j].info)
  {
    if fs != [] {
      var n := |fs| - 1;
      JsonInfoIs(fs[..n], level);
      JsonIdIs(fs[..n], level);
      forall j: nat | FirstNamed(fs, level, j) ensures JsonInfoAt(fs, level) == Some(fs[j].info) {
        if j < n {
          assert FirstNamed(fs[..n], level, j) && fs[..n][j] == fs[j];
        }
      }
      if !SomeNamed(fs, level) {
        forall j: nat | FirstJson(fs, level, j) ensures JsonInfoAt(fs, level) == Some(fs[j].info) {
          if j < n {
            assert FirstJson(fs[..n], level, j) && fs[..n][j] == fs[j];
          }
        }
      }
      if j :| 0 <= j < n && fs[j].level == level {
        assert fs[..n][j] == fs[j];
      }
    }
  }

  lemma {:induction false} RowInfoIs(db: Db, order: seq<Id>, level: int)
    requires forall f :: f in order ==> f in db.floors
    ensures forall k: nat :: FirstRow(db, order, level, k) ==>
              RowInfoAt(db, order, level) == Some(db.floors[order[k]].info)
    ensures RowInfoAt(db, order, level).None? <==> forall k :: 0 <= k < |order| ==> db.floors[order[k]].level != level
  {
    if order != [] {
      var n := |order| - 1;
      RowInfoIs(db, order[..n], level);
      forall k: nat | FirstRow(db, order, level, k)
        ensures RowInfoAt(db, order, level) == Some(db.floors[order[k]].info)
      {
        if k < n {
          assert FirstRow(db, order[..n], level, k);
        }
      }
    }
  }

  /**
   A loaded floor has the name and geometry of the first JSON floor of its level with an id, else of the first one,
   else of the level's first row.
   */
  lemma {:induction false} LoadedInfo(db: Db, c: Id, order: seq<Id>, scan: seq<Id>, p: PlanJson, i: nat)
    requires LoadReady(db, c, order, scan) && IsLoad(db, c, order, scan, p) && i < |p.floors|
    ensures var fs, f := db.configs[c].data.floors, p.floors[i];
            && (forall j: nat :: FirstNamed(fs, f.level, j) ==> f.info == fs[j].info)
            && (!SomeNamed(fs, f.level) ==> forall j: nat :: FirstJson(fs, f.level, j) ==> f.info == fs[j].info)
            && (!SomeJson(fs, f.level) ==> forall k: nat :: FirstRow(db, order, f.level, k) ==>
                  f.info == db.floors[order[k]].info)
  {
    JsonInfoIs(db.configs[c].data.floors, p.floors[i].level);
    RowInfoIs(db, order, p.floors[i].level);
  }

  lemma {:induction false} EmptyRowsFirst(db: Db, order: seq<Id>, scan: seq<Id>, level: int)
    requires (forall f :: f in order ==> f in db.floors) && forall e :: e in scan ==> e in db.elements
    requires forall f :: f in order && db.floors[f].level == level ==> RowsOn(db, scan, f) == []
    ensures forall k: nat :: FirstRow(db, order, level, k) ==> FullestAt(db, order, scan, level) == Some(order[k])
    ensures FullestAt(db, order, scan, level).None? <==>
            forall k :: 0 <= k < |order| ==> db.floors[order[k]].level != level
  {
    if order != [] {
      var n := |order| - 1;
      assert order == order[..n] + [order[n]];
      EmptyRowsFirst(db, order[..n], scan, level);
      FullestFacts(db, order[..n], scan, level);
      forall k: nat | FirstRow(db, order, level, k) ensures FullestAt(db, order, scan, level) == Some(order[k]) {
        if k < n {
          assert FirstRow(db, order[..n], level, k);
        }
      }
    }
  }

  /**
   Where no row of the level holds an element, a loaded floor has the id of the first JSON floor with one, else
   that of the level's first row, if there is one.
   */
  lemma {:induction false} LoadedIdElse(db: Db, c: Id, order: seq<Id>, scan: seq<Id>, p: PlanJson, i: nat)
    requires LoadReady(db, c, order, scan) && IsLoad(db, c, order, scan, p) && i < |p.floors|
    requires forall f :: f in FloorsOf(db, c) && db.floors[f].level == p.floors[i].level ==> OnFloors(db, {f}) == {}
    ensures var fs, f := db.configs[c].data.floors, p.floors[i];
            && (forall j: nat :: FirstNamed(fs, f.level, j) ==> f.id == fs[j].id)
            && (!SomeNamed(fs, f.level) ==>
                  && (forall k: nat :: FirstRow(db, order, f.level, k) ==> f.id == Some(order[k]))
                  && ((forall g :: g in FloorsOf(db, c) ==> db.floors[g].level != f.level) ==> f.id.None?))
  {
    var fs, level := db.configs[c].data.floors, p.floors[i].level;
    JsonIdIs(fs, level);
    forall f | f in order && db.floors[f].level == level ensures RowsOn(db, scan, f) == [] {
      RowsOnAll(db, c, scan, f);
    }
    EmptyRowsFirst(db, order, scan, level);
    FullestFacts(db, order, scan, level);
  }
}
