/**
 What a bulk mapping request leaves in the table, read off the request alone: the row of the last entry for each
 product or location.
 */
module MappingDetails {
  import opened Common
  import opened MappingEntries
  import opened MappingBatches

  /** Whose row is under the key, or would be once the tenant puts one there. */
  function Holder(table: Table, key: Key, t: Tenant): (u: Tenant) {
    if key in table then table[key].tenant else t
  }

  /** The entry's row is under its key; a row that was there has kept its tenant. */
  predicate Stored(before: Table, after: Table, e: Entry) {
    e.key in after && after[e.key] == e.row.(tenant := Holder(before, e.key, e.row.tenant))
  }

  predicate SameAt(a: Table, b: Table, key: Key) {
    (key in a <==> key in b) && (key in a ==> a[key] == b[key])
  }

  /** Its row is there, unless it is reported or refused. */
  predicate StoredUnless(table: Table, d: Done, r: Refusals, e: Entry) {
    e.key !in d.errors || !RefusedSingly(table, r, e) ==> Stored(table, d.table, e)
  }

  predicate LastOfKey(es: seq<Entry>, i: nat) {
    i < |es| && forall j: nat :: i < j < |es| ==> es[j].key != es[i].key
  }

  predicate Keyless(es: seq<Entry>, key: Key) {
    forall e :: e in es ==> e.key != key
  }

  // ----- Single upserts and chunks --------------------------------------------------------------------------------

  lemma {:induction false} SinglyHolder(table: Table, es: seq<Entry>, r: Refusals, t: Tenant, key: Key)
    requires AllOf(es, t)
    ensures Holder(Singly(table, es, r).table, key, t) == Holder(table, key, t)
  {
    if es != [] {
      assert es[|es| - 1] in es;
      SinglyHolder(table, es[..|es| - 1], r, t, key);
    }
  }

  lemma {:induction false} WriteRowsHolder(table: Table, es: seq<Entry>, t: Tenant, key: Key)
    requires AllOf(es, t)
    ensures Holder(WriteRows(table, es), key, t) == Holder(table, key, t)
  {
    if es != [] {
      assert es[|es| - 1] in es;
      WriteRowsHolder(table, es[..|es| - 1], t, key);
    }
  }

  lemma {:induction false} SinglyApart(table: Table, es: seq<Entry>, r: Refusals, key: Key)
    requires Keyless(es, key)
    ensures SameAt(table, Singly(table, es, r).table, key) && key !in Singly(table, es, r).errors
  {
    if es != [] {
      assert es[|es| - 1] in es;
      SinglyApart(table, es[..|es| - 1], r, key);
    }
  }

  lemma {:induction false} WriteRowsApart(table: Table, es: seq<Entry>, key: Key)
    requires Keyless(es, key)
    ensures SameAt(table, WriteRows(table, es), key)
  {
    if es != [] {
      assert es[|es| - 1] in es;
      WriteRowsApart(table, es[..|es| - 1], key);
    }
  }

  lemma {:induction false} SinglyAt(table: Table, es: seq<Entry>, r: Refusals, t: Tenant, i: nat)
    requires AllOf(es, t) && LastOfKey(es, i)
    ensures StoredUnless(table, Singly(table, es, r), r, es[i])
  {
    var n := |es| - 1;
    assert es[i] in es;
    if i == n {
      SinglyHolder(table, es[..n], r, t, es[n].key);
    } else {
      SinglyAt(table, es[..n], r, t, i);
    }
  }

  lemma {:induction false} WriteRowsAt(table: Table, es: seq<Entry>, t: Tenant, i: nat)
    requires AllOf(es, t) && LastOfKey(es, i)
    ensures Stored(table, WriteRows(table, es), es[i])
  {
    var n := |es| - 1;
    assert es[i] in es;
    if i == n {
      WriteRowsHolder(table, es[..n], t, es[n].key);
    } else {
      WriteRowsAt(table, es[..n], t, i);
    }
  }

  lemma {:induction false} ChunkAt(table: Table, chunk: seq<Entry>, r: Refusals, t: Tenant, fault: bool, i: nat)
    requires AllOf(chunk, t) && LastOfKey(chunk, i)
    ensures StoredUnless(table, ChunkDone(table, chunk, r, fault), r, chunk[i])
  {
    SinglyAt(table, chunk, r, t, i);
    WriteRowsAt(table, chunk, t, i);
  }

  lemma {:induction false} ChunkApart(table: Table, chunk: seq<Entry>, r: Refusals, fault: bool, key: Key)
    requires Keyless(chunk, key)
    ensures var d := ChunkDone(table, chunk, r, fault); SameAt(table, d.table, key) && key !in d.errors
  {
    SinglyApart(table, chunk, r, key);
    WriteRowsApart(table, chunk, key);
  }

  lemma {:induction false} ChunkHolder(table: Table, es: seq<Entry>, r: Refusals, t: Tenant, fault: bool, k: nat,
                                       key: Key)
    requires AllOf(es, t)
    ensures AllOf(Chunk(es, k), t)
    ensures Holder(ChunkDone(table, Chunk(es, k), r, fault).table, key, t) == Holder(table, key, t)
  {
    ChunkIn(es, k);
    SinglyHolder(table, Chunk(es, k), r, t, key);
    WriteRowsHolder(table, Chunk(es, k), t, key);
  }

  lemma {:induction false} ChunksHolder(table: Table, es: seq<Entry>, r: Refusals, t: Tenant, faults: seq<bool>, n: nat,
                                        key: Key)
    requires AllOf(es, t)
    ensures Holder(InChunks(table, es, r, faults, n).table, key, t) == Holder(table, key, t)
  {
    if n > 0 {
      ChunksHolder(table, es, r, t, faults, n - 1, key);
      ChunkHolder(InChunks(table, es, r, faults, n - 1).table, es, r, t, FaultAt(faults, n - 1), n - 1, key);
    }
  }

  lemma {:induction false} StillStored(table: Table, before: Done, after: Done, r: Refusals, e: Entry)
    requires StoredUnless(table, before, r, e) && SameAt(before.table, after.table, e.key)
    ensures StoredUnless(table, Join(before, after), r, e)
  {
  }

  lemma {:induction false} NowStored(table: Table, before: Done, after: Done, r: Refusals, e: Entry)
    requires StoredUnless(before.table, after, r, e)
    requires Holder(before.table, e.key, e.row.tenant) == Holder(table, e.key, e.row.tenant)
    ensures StoredUnless(table, Join(before, after), r, e)
  {
  }

  lemma {:induction false} LastInChunk(es: seq<Entry>, n: nat, i: nat)
    requires LastOfKey(es, i) && StartOf(es, n) <= i < StartOf(es, n + 1)
    ensures var chunk, k := Chunk(es, n), i - StartOf(es, n); LastOfKey(chunk, k) && chunk[k] == es[i]
  {
    var chunk, start := Chunk(es, n), StartOf(es, n);
    forall j: nat | i - start < j < |chunk| ensures chunk[j].key != es[i].key {
      assert chunk[j] == es[j + start];
    }
  }

  lemma {:induction false} NotInLaterChunk(es: seq<Entry>, n: nat, i: nat)
    requires LastOfKey(es, i) && i < StartOf(es, n)
    ensures Keyless(Chunk(es, n), es[i].key)
  {
    var chunk, start := Chunk(es, n), StartOf(es, n);
    forall e | e in chunk ensures e.key != es[i].key {
      var j: nat :| j < |chunk| && chunk[j] == e;
      assert chunk[j] == es[j + start];
    }
  }

  lemma {:induction false} ChunksAt(table: Table, es: seq<Entry>, r: Refusals, t: Tenant, faults: seq<bool>, n: nat,
                                    i: nat)
    requires AllOf(es, t) && LastOfKey(es, i) && i < StartOf(es, n)
    ensures StoredUnless(table, InChunks(table, es, r, faults, n), r, es[i])
  {
    var k, chunk := n - 1, Chunk(es, n - 1);
    var before := InChunks(table, es, r, faults, k);
    var after := ChunkDone(before.table, chunk, r, FaultAt(faults, k));
    if i < StartOf(es, k) {
      ChunksAt(table, es, r, t, faults, k, i);
      NotInLaterChunk(es, k, i);
      ChunkApart(before.table, chunk, r, FaultAt(faults, k), es[i].key);
      StillStored(table, before, after, r, es[i]);
    } else {
      assert es[i] in es;
      ChunkIn(es, k);
      LastInChunk(es, k, i);
      ChunkAt(before.table, chunk, r, t, FaultAt(faults, k), i - StartOf(es, k));
      ChunksHolder(table, es, r, t, faults, k, es[i].key);
      NowStored(table, before, after, r, es[i]);
    }
  }

  lemma {:induction false} ChunksApart(table: Table, es: seq<Entry>, r: Refusals, faults: seq<bool>, n: nat, key: Key)
    requires Keyless(es, key)
    ensures var d := InChunks(table, es, r, faults, n); SameAt(table, d.table, key) && key !in d.errors
  {
    if n > 0 {
      ChunksApart(table, es, r, faults, n - 1, key);
      ChunkApart(InChunks(table, es, r, faults, n - 1).table, Chunk(es, n - 1), r, FaultAt(faults, n - 1), key);
    }
  }

  lemma {:induction false} BulkAt(table: Table, es: seq<Entry>, r: Refusals, t: Tenant, faults: seq<bool>, i: nat)
    requires AllOf(es, t) && LastOfKey(es, i)
    ensures StoredUnless(table, Bulk(table, es, r, faults), r, es[i])
  {
    AllChunks(es);
    ChunksAt(table, es, r, t, faults, Chunks(es), i);
  }

  // ----- Over the request -----------------------------------------------------------------------------------------

  /** The last mapping of its product or location. */
  predicate LastMapping(ms: seq<Mapping>, i: nat) {
    i < |ms| && forall j: nat :: i < j < |ms| ==> ms[j].id != ms[i].id
  }

  /** A product's row: the menu item asked for, and whether it was found by itself and how surely, unless at 0. */
  predicate ProductRow(row: Row, owner: Tenant, m: Mapping) {
    && row.tenant == owner && row.target == m.target && row.autoMapped == m.autoMapped
    && (row.confidence.Some? <==> m.confidence.Some? && m.confidence.value != 0.0)
    && (row.confidence.Some? ==> row.confidence.value == m.confidence.value)
  }

  /** A location's row: the element asked for, and nothing about how it was found. */
  predicate LocationRow(row: Row, t: Tenant, m: Mapping) {
    row.tenant == t && row.target == m.target && !row.autoMapped && row.confidence.None?
  }

  lemma {:induction false} LastEntryAt(es: seq<Entry>, i: nat)
    requires LastOfKey(es, i)
    ensures LastEntry(es, es[i].key) == Some(es[i])
  {
    var n := |es| - 1;
    if i < n {
      LastEntryAt(es[..n], i);
    }
  }

  /**
   A product not reported as an error has the row of its last mapping in the request; under another tenant's key it
   stays that tenant's. Rows of products not in the request stay as they are, and so do all locations.
   */
  lemma {:induction false} ProductsMapped(table: Table, t: Tenant, ms: seq<Mapping>, bad: set<Entry>, faults: seq<bool>)
    ensures var d := Bulk(table, ProductsKept(t, ms), Refusals(bad, {}), faults);
            && (forall i: nat :: LastMapping(ms, i) && Product(ms[i].id) !in d.errors ==>
                  Product(ms[i].id) in d.table
                  && ProductRow(d.table[Product(ms[i].id)], Holder(table, Product(ms[i].id), t), ms[i]))
            && (forall key: Key :: key.Location? || (forall m :: m in ms ==> m.id != key.id) ==>
                  SameAt(table, d.table, key) && key !in d.errors)
  {
    var es, kept, r := ProductEntries(t, ms), ProductsKept(t, ms), Refusals(bad, {});
    KeptOf(t, ms);
    LastPerKeyFacts(es);
    forall i: nat | LastMapping(ms, i) && Product(ms[i].id) !in Bulk(table, kept, r, faults).errors
      ensures var d := Bulk(table, kept, r, faults);
              Product(ms[i].id) in d.table
              && ProductRow(d.table[Product(ms[i].id)], Holder(table, Product(ms[i].id), t), ms[i])
    {
      LastEntryAt(es, i);
      var k: nat :| k < |kept| && kept[k] == es[i];
      BulkAt(table, kept, r, t, faults, k);
    }
    forall key: Key | key.Location? || forall m :: m in ms ==> m.id != key.id
      ensures var d := Bulk(table, kept, r, faults); SameAt(table, d.table, key) && key !in d.errors
    {
      NoneKept(t, ms, key);
      ChunksApart(table, kept, r, faults, Chunks(kept), key);
    }
  }

  lemma {:induction false} NoneKept(t: Tenant, ms: seq<Mapping>, key: Key)
    requires key.Location? || forall m :: m in ms ==> m.id != key.id
    ensures Keyless(ProductsKept(t, ms), key)
  {
    var es := ProductEntries(t, ms);
    LastPerKeyFacts(es);
    forall e | e in LastPerKey(es) ensures e.key != key {
      LastEntryIs(es, e.key);
      var i: nat :| i < |es| && es[i] == e;
      assert ms[i] in ms;
    }
  }

  /**
   A location not reported as an error, or whose last mapping neither the database nor the single form refuses, has
   the row of its last mapping. Those not in the request stay as they are, as do the other tenants' and all products.
   */
  lemma {:induction false} LocationsMapped(table: Table, t: Tenant, ms: seq<Mapping>, r: Refusals, faults: seq<bool>)
    requires Keyed(table)
    ensures var d := Bulk(table, LocationEntries(t, ms), r, faults);
            && (forall i: nat :: LastMapping(ms, i) && (Location(t, ms[i].id) !in d.errors || Taken(r, t, ms[i])) ==>
                  Location(t, ms[i].id) in d.table && LocationRow(d.table[Location(t, ms[i].id)], t, ms[i]))
            && (forall key: Key :: !Asked(t, ms, key) ==> SameAt(table, d.table, key) && key !in d.errors)
  {
    var es := LocationEntries(t, ms);
    LocationsNeverForeign(table, t, ms);
    var d := Bulk(table, es, r, faults);
    forall i: nat | LastMapping(ms, i) && (Location(t, ms[i].id) !in d.errors || Taken(r, t, ms[i]))
      ensures Location(t, ms[i].id) in d.table && LocationRow(d.table[Location(t, ms[i].id)], t, ms[i])
    {
      BulkAt(table, es, r, t, faults, i);
      assert es[i] in es;
    }
    forall key: Key | !Asked(t, ms, key) ensures SameAt(table, d.table, key) && key !in d.errors {
      forall e | e in es ensures e.key != key {
        var i: nat :| i < |es| && es[i] == e;
        assert ms[i] in ms;
      }
      ChunksApart(table, es, r, faults, Chunks(es), key);
    }
  }

  /** No entry that puts this row under this key is refused. */
  ghost predicate Taken(r: Refusals, t: Tenant, m: Mapping) {
    forall e: Entry :: e in r.always + r.singly ==> e.key != Location(t, m.id) || !LocationRow(e.row, t, m)
  }

  predicate Asked(t: Tenant, ms: seq<Mapping>, key: Key) {
    exists m :: m in ms && key == Location(t, m.id)
  }
}
