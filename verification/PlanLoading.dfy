/** `getConfiguration`: the loops that gather floors and rows into one bucket per level, and emit one floor for each. */
module PlanLoading {
  import opened Common
  import opened FloorPlan
  import opened FloorPlanLoad
  import opened PlanStore

  datatype RowCount = RowCount(id: Id, count: nat)
  datatype Bucket = Bucket(info: Option<Info>, baseId: Option<Id>, elements: seq<JsonElement>,
                           idless: seq<JsonElement>, rows: seq<RowCount>)

  function RowCounts(db: Db, order: seq<Id>, scan: seq<Id>, level: int): (r: seq<RowCount>)
    requires forall f :: f in order ==> f in db.floors
    requires forall e :: e in scan ==> e in db.elements
  {
    if order == [] then []
    else
      var n := |order| - 1;
      RowCounts(db, order[..n], scan, level) +
      if db.floors[order[n]].level == level then [RowCount(order[n], |RowsOn(db, scan, order[n])|)] else []
  }

  /** What the bucket of a level holds once the floors `fs` and the rows `order` are in. */
  ghost function BucketAt(db: Db, fs: seq<JsonFloor>, order: seq<Id>, scan: seq<Id>, level: int): (b: Bucket)
    requires forall f :: f in order ==> f in db.floors
    requires forall e :: e in scan ==> e in db.elements
  {
    Bucket(if JsonInfoAt(fs, level).Some? then JsonInfoAt(fs, level) else RowInfoAt(db, order, level),
           JsonIdAt(fs, level),
           KeepOnto([], JsonAt(fs, level) + RowsAt(db, order, scan, level)),
           Idless(JsonAt(fs, level)),
           RowCounts(db, order, scan, level))
  }

  const NoBucket: Bucket := Bucket(None, None, [], [], [])

  /** The buckets by level, with the levels in the order they were opened. */
  ghost predicate Gathered(db: Db, fs: seq<JsonFloor>, order: seq<Id>, scan: seq<Id>, levels: seq<int>,
                           buckets: map<int, Bucket>)
    requires forall f :: f in order ==> f in db.floors
    requires forall e :: e in scan ==> e in db.elements
  {
    && Distinct(levels)
    && (forall level :: level in levels <==> level in buckets)
    && (forall level :: level in buckets <==> LevelUsed(db, fs, order, level))
    && (forall level :: level in buckets ==> buckets[level] == BucketAt(db, fs, order, scan, level))
  }

  function BucketFor(buckets: map<int, Bucket>, level: int): (b: Bucket) {
    if level in buckets then buckets[level] else NoBucket
  }

  // ----- One step of each loop ----------------------------------------------------------------------

  lemma {:induction false} UnusedIsEmpty(db: Db, fs: seq<JsonFloor>, order: seq<Id>, scan: seq<Id>, level: int)
    requires forall f :: f in order ==> f in db.floors
    requires forall e :: e in scan ==> e in db.elements
    requires !LevelUsed(db, fs, order, level)
    ensures BucketAt(db, fs, order, scan, level) == NoBucket
  {
    NoJsonAt(fs, level);
    NoRowsAt(db, order, scan, level);
  }

  lemma {:induction false} NoJsonAt(fs: seq<JsonFloor>, level: int)
    requires forall f :: f in fs ==> f.level != level
    ensures JsonInfoAt(fs, level) == None && JsonIdAt(fs, level) == None && JsonAt(fs, level) == []
  {
    if fs != [] {
      assert fs[|fs| - 1] in fs;
      NoJsonAt(fs[..|fs| - 1], level);
    }
  }

  lemma {:induction false} NoRowsAt(db: Db, order: seq<Id>, scan: seq<Id>, level: int)
    requires forall f :: f in order ==> f in db.floors
    requires forall e :: e in scan ==> e in db.elements
    requires forall f :: f in order ==> db.floors[f].level != level
    ensures RowInfoAt(db, order, level) == None && RowsAt(db, order, scan, level) == []
            && RowCounts(db, order, scan, level) == []
  {
    if order != [] {
      assert order[|order| - 1] in order;
      NoRowsAt(db, order[..|order| - 1], scan, level);
    }
  }

  lemma {:induction false} IdlessConcat(a: seq<JsonElement>, b: seq<JsonElement>)
    ensures Idless(a + b) == Idless(a) + Idless(b)
  {
    if b == [] {
      assert a + b == a;
    } else {
      assert (a + b)[..|a + b| - 1] == a + b[..|b| - 1];
      IdlessConcat(a, b[..|b| - 1]);
    }
  }

  /** A JSON floor joins the bucket of its level. */
  function WithJson(b: Bucket, f: JsonFloor): (r: Bucket) {
    Bucket(if b.info.None? || (f.id.Some? && b.baseId.None?) then Some(f.info) else b.info,
           if b.baseId.None? then f.id else b.baseId,
           KeepOnto(b.elements, f.elements),
           b.idless + Idless(f.elements),
           b.rows)
  }

  function WithRow(b: Bucket, id: Id, row: FloorRow, els: seq<JsonElement>): (r: Bucket) {
    Bucket(if b.info.None? then Some(row.info) else b.info, b.baseId, KeepOnto(b.elements, els), b.idless, b.rows +
           [RowCount(id, |els|)])
  }

  lemma {:induction false} JsonStep(db: Db, fs: seq<JsonFloor>, k: nat, scan: seq<Id>, level: int)
    requires k < |fs| && forall e :: e in scan ==> e in db.elements
    ensures var was := BucketAt(db, fs[..k], [], scan, level);
            BucketAt(db, fs[..k + 1], [], scan, level) == if fs[k].level == level then WithJson(was, fs[k]) else was
  {
    assert fs[..k + 1][..k] == fs[..k];
    var json := JsonAt(fs[..k], level);
    assert json + [] == json && JsonAt(fs[..k + 1], level) + [] == JsonAt(fs[..k + 1], level);
    KeepOntoConcat([], json, fs[k].elements);
    IdlessConcat(json, fs[k].elements);
  }

  lemma {:induction false} RowStep(db: Db, fs: seq<JsonFloor>, order: seq<Id>, k: nat, scan: seq<Id>, level: int)
    requires k < |order|
    requires forall f :: f in order ==> f in db.floors
    requires forall e :: e in scan ==> e in db.elements
    ensures var was, f := BucketAt(db, fs, order[..k], scan, level), order[k];
            BucketAt(db, fs, order[..k + 1], scan, level) ==
            if db.floors[f].level == level then WithRow(was, f, db.floors[f], RowsOn(db, scan, f)) else was
  {
    assert order[..k + 1][..k] == order[..k];
    var json, rows, f := JsonAt(fs, level), RowsAt(db, order[..k], scan, level), order[k];
    var more := if db.floors[f].level == level then RowsOn(db, scan, f) else [];
    assert json + RowsAt(db, order[..k + 1], scan, level) == (json + rows) + more;
    KeepOntoConcat([], json + rows, more);
  }

  /** Opening or extending the bucket of `level` by `f`; the other buckets have nothing new. */
  lemma {:induction false} GatheredStep(db: Db, fs: seq<JsonFloor>, order: seq<Id>, fs': seq<JsonFloor>,
                                        order': seq<Id>, scan: seq<Id>,
                     levels: seq<int>, buckets: map<int, Bucket>, level: int, b: Bucket)
    requires forall f :: f in order' ==> f in db.floors
    requires forall f :: f in order ==> f in db.floors
    requires forall e :: e in scan ==> e in db.elements
    requires Gathered(db, fs, order, scan, levels, buckets)
    requires forall l :: LevelUsed(db, fs', order', l) <==> LevelUsed(db, fs, order, l) || l == level
    requires forall l :: l != level ==> BucketAt(db, fs', order', scan, l) == BucketAt(db, fs, order, scan, l)
    requires b == BucketAt(db, fs', order', scan, level)
    ensures Gathered(db, fs', order', scan, if level in buckets then levels else levels + [level], buckets[level := b])
  {
  }

  lemma {:induction false} BucketForIs(db: Db, fs: seq<JsonFloor>, order: seq<Id>, scan: seq<Id>, levels: seq<int>,
                                       buckets: map<int, Bucket>, level: int)
    requires forall f :: f in order ==> f in db.floors
    requires forall e :: e in scan ==> e in db.elements
    requires Gathered(db, fs, order, scan, levels, buckets)
    ensures BucketFor(buckets, level) == BucketAt(db, fs, order, scan, level)
  {
    if level !in buckets {
      UnusedIsEmpty(db, fs, order, scan, level);
    }
  }

  lemma {:induction false} GatherJson(db: Db, fs: seq<JsonFloor>, k: nat, scan: seq<Id>, levels: seq<int>,
                                      buckets: map<int, Bucket>)
    requires k < |fs| && forall e :: e in scan ==> e in db.elements
    requires Gathered(db, fs[..k], [], scan, levels, buckets)
    ensures var level := fs[k].level;
            Gathered(db, fs[..k + 1], [], scan, if level in buckets then levels else levels + [level],
                     buckets[level := WithJson(BucketFor(buckets, level), fs[k])])
  {
    var level := fs[k].level;
    BucketForIs(db, fs[..k], [], scan, levels, buckets, level);
    forall l ensures BucketAt(db, fs[..k + 1], [], scan, l) == if l == level
        then WithJson(BucketFor(buckets, level), fs[k]) else BucketAt(db, fs[..k], [], scan, l) {
      JsonStep(db, fs, k, scan, l);
    }
    assert fs[..k + 1] == fs[..k] + [fs[k]];
    GatheredStep(db, fs[..k], [], fs[..k + 1], [], scan, levels, buckets, level,
                 WithJson(BucketFor(buckets, level), fs[k]));
  }

  lemma {:induction false} GatherRow(db: Db, fs: seq<JsonFloor>, order: seq<Id>, k: nat, scan: seq<Id>,
                                     levels: seq<int>, buckets: map<int, Bucket>)
    requires k < |order|
    requires forall f :: f in order ==> f in db.floors
    requires forall e :: e in scan ==> e in db.elements
    requires Gathered(db, fs, order[..k], scan, levels, buckets)
    ensures var f, level := order[k], db.floors[order[k]].level;
            Gathered(db, fs, order[..k + 1], scan, if level in buckets then levels else levels + [level],
                     buckets[level := WithRow(BucketFor(buckets, level), f, db.floors[f], RowsOn(db, scan, f))])
  {
    var f, level := order[k], db.floors[order[k]].level;
    BucketForIs(db, fs, order[..k], scan, levels, buckets, level);
    var b := WithRow(BucketFor(buckets, level), f, db.floors[f], RowsOn(db, scan, f));
    forall l ensures BucketAt(db, fs, order[..k + 1], scan, l) == if l == level then b
        else BucketAt(db, fs, order[..k], scan, l) {
      RowStep(db, fs, order, k, scan, l);
    }
    assert order[..k + 1] == order[..k] + [order[k]];
    GatheredStep(db, fs, order[..k], fs, order[..k + 1], scan, levels, buckets, level, b);
  }

  // ----- The floor a bucket is emitted as -------------------------------------------------------------

  /** The first of the fullest rows. */
  function Fullest(rows: seq<RowCount>): (r: Option<RowCount>) {
    if rows == [] then None
    else
      var last := rows[|rows| - 1];
      var before := Fullest(rows[..|rows| - 1]);
      if before.None? || before.value.count < last.count then Some(last) else before
  }

  lemma {:induction false} FullestOfCounts(db: Db, order: seq<Id>, scan: seq<Id>, level: int)
    requires forall f :: f in order ==> f in db.floors
    requires forall e :: e in scan ==> e in db.elements
    ensures var best, r := FullestAt(db, order, scan, level), Fullest(RowCounts(db, order, scan, level));
            && (best.Some? <==> r.Some?)
            && (best.Some? ==> best.value in order && r.value == RowCount(best.value, |RowsOn(db, scan, best.value)|))
  {
    if order != [] {
      var n := |order| - 1;
      FullestOfCounts(db, order[..n], scan, level);
      assert order == order[..n] + [order[n]];
      if db.floors[order[n]].level == level {
        FullestSnoc(RowCounts(db, order[..n], scan, level), RowCount(order[n], |RowsOn(db, scan, order[n])|));
      } else {
        assert RowCounts(db, order, scan, level) == RowCounts(db, order[..n], scan, level);
      }
    }
  }

  lemma {:induction false} FullestSnoc(rows: seq<RowCount>, last: RowCount)
    ensures var before := Fullest(rows);
            Fullest(rows + [last]) == if before.None? || before.value.count < last.count then Some(last) else before
  {
    assert (rows + [last])[..|rows|] == rows;
  }

  function Emitted(b: Bucket, level: int): (f: JsonFloor) {
    var best := Fullest(b.rows);
    JsonFloor(if best.Some? && best.value.count > 0 then Some(best.value.id)
              else if b.baseId.Some? then b.baseId
              else if best.Some? then Some(best.value.id) else None,
              level, b.info.GetOr(""), b.elements + b.idless)
  }

  lemma {:induction false} EmittedIsLoaded(db: Db, fs: seq<JsonFloor>, order: seq<Id>, scan: seq<Id>, level: int)
    requires forall f :: f in order ==> f in db.floors
    requires forall e :: e in scan ==> e in db.elements
    ensures Emitted(BucketAt(db, fs, order, scan, level), level) == LoadedFloor(db, fs, order, scan, level)
  {
    FullestOfCounts(db, order, scan, level);
  }

  // ----- The loops ------------------------------------------------------------------------------------

  method MergeElements(acc: seq<JsonElement>, els: seq<JsonElement>)
      returns (r: seq<JsonElement>, idless: seq<JsonElement>)
    ensures r == KeepOnto(acc, els) && idless == Idless(els)
  {
    r, idless := acc, [];
    for k := 0 to |els|
      invariant r == KeepOnto(acc, els[..k]) && idless == Idless(els[..k])
    {
      assert els[..k + 1][..k] == els[..k];
      if els[k].id.None? {
        idless := idless + [els[k]];
      } else if els[k].id.value !in IdsOf(r) {
        r := r + [els[k]];
      }
    }
    assert els[..|els|] == els;
  }

  method FindFullest(rows: seq<RowCount>) returns (best: Option<RowCount>)
    ensures best == Fullest(rows)
  {
    best := None;
    for k := 0 to |rows|
      invariant best == Fullest(rows[..k])
    {
      assert rows[..k + 1][..k] == rows[..k];
      if best.None? || best.value.count < rows[k].count {
        best := Some(rows[k]);
      }
    }
    assert rows[..|rows|] == rows;
  }

  method AddFloor(levels: seq<int>, buckets: map<int, Bucket>, f: JsonFloor)
      returns (levels': seq<int>, buckets': map<int, Bucket>)
    ensures levels' == if f.level in buckets then levels else levels + [f.level]
    ensures buckets' == buckets[f.level := WithJson(BucketFor(buckets, f.level), f)]
  {
    var b := BucketFor(buckets, f.level);
    levels' := if f.level in buckets then levels else levels + [f.level];
    var info, baseId := b.info, b.baseId;
    if info.None? {
      info := Some(f.info);
    }
    if baseId.None? && f.id.Some? {
      info, baseId := Some(f.info), f.id;
    }
    var elements, idless := MergeElements(b.elements, f.elements);
    buckets' := buckets[f.level := Bucket(info, baseId, elements, b.idless + idless, b.rows)];
  }

  method AddRow(levels: seq<int>, buckets: map<int, Bucket>, id: Id, row: FloorRow, els: seq<JsonElement>)
    returns (levels': seq<int>, buckets': map<int, Bucket>)
    ensures levels' == if row.level in buckets then levels else levels + [row.level]
    ensures buckets' == buckets[row.level := WithRow(BucketFor(buckets, row.level), id, row, els)]
  {
    var b := BucketFor(buckets, row.level);
    levels' := if row.level in buckets then levels else levels + [row.level];
    var info := b.info;
    if info.None? {
      info := Some(row.info);
    }
    var elements, _ := MergeElements(b.elements, els);
    buckets' := buckets[row.level := Bucket(info, b.baseId, elements, b.idless, b.rows + [RowCount(id, |els|)])];
  }

  method Gather(store: Store, fs: seq<JsonFloor>, order: seq<Id>, scan: seq<Id>)
      returns (levels: seq<int>, buckets: map<int, Bucket>)
    requires forall f :: f in order ==> f in store.floors
    requires forall e :: e in scan ==> e in store.elements
    ensures Gathered(store.Contents(), fs, order, scan, levels, buckets)
  {
    ghost var db := store.Contents();
    levels, buckets := [], map[];
    for k := 0 to |fs|
      invariant Gathered(db, fs[..k], [], scan, levels, buckets)
    {
      GatherJson(db, fs, k, scan, levels, buckets);
      levels, buckets := AddFloor(levels, buckets, fs[k]);
    }
    assert fs[..|fs|] == fs;
    for k := 0 to |order|
      invariant Gathered(db, fs, order[..k], scan, levels, buckets)
    {
      assert order[k] in order;
      GatherRow(db, fs, order, k, scan, levels, buckets);
      levels, buckets := AddRow(levels, buckets, order[k], store.floors[order[k]],
                                RowsOn(store.Contents(), scan, order[k]));
    }
    assert order[..|order|] == order;
  }

  method Emit(b: Bucket, level: int) returns (f: JsonFloor)
    ensures f == Emitted(b, level)
  {
    var best := FindFullest(b.rows);
    var id := None;
    if best.Some? && best.value.count > 0 {
      id := Some(best.value.id);
    } else if b.baseId.Some? {
      id := b.baseId;
    } else if best.Some? {
      id := Some(best.value.id);
    }
    f := JsonFloor(id, level, b.info.GetOr(""), b.elements + b.idless);
  }

  method EmitAll(levels: seq<int>, buckets: map<int, Bucket>) returns (floors: seq<JsonFloor>)
    requires forall i :: 0 <= i < |levels| ==> levels[i] in buckets
    ensures |floors| == |levels| && forall i :: 0 <= i < |levels| ==>
              floors[i] == Emitted(buckets[levels[i]], levels[i])
  {
    floors := [];
    for k := 0 to |levels|
      invariant |floors| == k && forall i :: 0 <= i < k ==> floors[i] == Emitted(buckets[levels[i]], levels[i])
    {
      var f := Emit(buckets[levels[k]], levels[k]);
      floors := floors + [f];
    }
  }

  /** `getConfiguration`, for a configuration that exists: the loaded plan is one merged floor per level in use. */
  method GetConfiguration(store: Store, c: Id, order: seq<Id>, scan: seq<Id>) returns (p: PlanJson)
    requires LoadReady(store.Contents(), c, order, scan)
    ensures IsLoad(store.Contents(), c, order, scan, p)
  {
    ghost var db := store.Contents();
    var data := store.configs[c].data;
    var levels, buckets := Gather(store, data.floors, order, scan);
    assert forall i :: 0 <= i < |levels| ==> levels[i] in levels;
    var floors := EmitAll(levels, buckets);
    p := data.(floors := floors);
    LevelsLoaded(db, c, order, scan, levels, buckets, p);
  }

  lemma {:induction false} LevelsLoaded(db: Db, c: Id, order: seq<Id>, scan: seq<Id>, levels: seq<int>,
                                        buckets: map<int, Bucket>, p: PlanJson)
    requires LoadReady(db, c, order, scan) && Gathered(db, db.configs[c].data.floors, order, scan, levels, buckets)
    requires p == db.configs[c].data.(floors := p.floors) && |p.floors| == |levels|
    requires forall i :: 0 <= i < |levels| ==> levels[i] in buckets
    requires forall i :: 0 <= i < |levels| ==> p.floors[i] == Emitted(buckets[levels[i]], levels[i])
    ensures IsLoad(db, c, order, scan, p)
  {
    forall i | 0 <= i < |levels|
      ensures p.floors[i].level == levels[i] && levels[i] in levels
      ensures p.floors[i] == LoadedFloor(db, db.configs[c].data.floors, order, scan, levels[i])
    {
      assert levels[i] in levels;
      EmittedIsLoaded(db, db.configs[c].data.floors, order, scan, levels[i]);
    }
    forall level | LevelUsed(db, db.configs[c].data.floors, order, level)
        ensures exists i :: 0 <= i < |p.floors| && p.floors[i].level == level {
      assert level in levels;
      var i :| 0 <= i < |levels| && levels[i] == level;
    }
  }
}
