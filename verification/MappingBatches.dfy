/**
 Bulk mapping upserts (mappings.service.ts, `bulkMerchantElementMappings`, `bulkLocationShopMappings` and
 `bulkProductMappings`): chunks of 500, each in one transaction, and a fallback to single upserts for
 a chunk that fails.

 A chunk and a single upsert do not refuse the same entries. The single product upsert is scoped to the
 tenant, so it misses a row of another tenant and then violates the unique key; the chunk is a raw
 statement, which is not scoped, and rewrites that row. The single location upsert checks the element,
 and the chunk does not.
 */
module MappingBatches {
  import opened Common
  import opened MappingEntries

  const ChunkSize := 500

  // ----- Single upserts and whole chunks -------------------------------------------------------------

  /** Entries the database refuses in either form, and entries only the single form's own check refuses. */
  datatype Refusals = Refusals(always: set<Entry>, singly: set<Entry>)

  predicate Foreign(table: Table, e: Entry) {
    e.key in table && table[e.key].tenant != e.row.tenant
  }

  predicate RefusedSingly(table: Table, r: Refusals, e: Entry) {
    e in r.always || e in r.singly || Foreign(table, e)
  }

  /** Scoped single upserts, one after the other. */
  function Singly(table: Table, es: seq<Entry>, r: Refusals): (d: Done) {
    if es == [] then Done(table, [], [])
    else
      var before, last := Singly(table, es[..|es| - 1], r), es[|es| - 1];
      if RefusedSingly(before.table, r, last) then before.(errors := before.errors + [last.key])
      else Done(before.table[last.key := last.row], before.successes + [last], before.errors)
  }

  /** The unscoped statement: a row that is there keeps its tenant. */
  function WriteRow(table: Table, e: Entry): (t: Table) {
    table[e.key := if e.key in table then e.row.(tenant := table[e.key].tenant) else e.row]
  }

  function WriteRows(table: Table, es: seq<Entry>): (t: Table) {
    if es == [] then table else WriteRow(WriteRows(table, es[..|es| - 1]), es[|es| - 1])
  }

  predicate Acceptable(chunk: seq<Entry>, r: Refusals) {
    forall e :: e in chunk ==> e !in r.always
  }

  /** The statement for the whole chunk, or else the fallback. */
  function ChunkDone(table: Table, chunk: seq<Entry>, r: Refusals, fault: bool): (d: Done) {
    if !fault && Acceptable(chunk, r) then Done(WriteRows(table, chunk), chunk, []) else Singly(table, chunk, r)
  }

  function StartOf(es: seq<Entry>, n: nat): (i: nat)
    ensures i <= |es|
  {
    if n * ChunkSize < |es| then n * ChunkSize else |es|
  }

  function Chunk(es: seq<Entry>, n: nat): (chunk: seq<Entry>) {
    es[StartOf(es, n)..StartOf(es, n + 1)]
  }

  /** How many chunks there are. */
  function Chunks(es: seq<Entry>): (n: nat) {
    (|es| + ChunkSize - 1) / ChunkSize
  }

  predicate FaultAt(faults: seq<bool>, n: nat) {
    n < |faults| && faults[n]
  }

  /** The first `n` chunks; chunk k fails for a reason of its own when `faults[k]`. */
  function InChunks(table: Table, es: seq<Entry>, r: Refusals, faults: seq<bool>, n: nat): (d: Done) {
    if n == 0 then Done(table, [], [])
    else
      var before := InChunks(table, es, r, faults, n - 1);
      Join(before, ChunkDone(before.table, Chunk(es, n - 1), r, FaultAt(faults, n - 1)))
  }

  function Join(a: Done, b: Done): (d: Done) {
    Done(b.table, a.successes + b.successes, a.errors + b.errors)
  }

  function Bulk(table: Table, es: seq<Entry>, r: Refusals, faults: seq<bool>): (d: Done) {
    InChunks(table, es, r, faults, Chunks(es))
  }

  // ----- What a single upsert refuses does not change meanwhile ------------------------------------------

  predicate AllOf(es: seq<Entry>, t: Tenant) {
    forall e :: e in es ==> e.row.tenant == t
  }

  /** The keys that rows of other tenants hold. */
  function HeldByOthers(table: Table, t: Tenant): (s: set<Key>) {
    set k | k in table && table[k].tenant != t
  }

  function Refused(table: Table, es: seq<Entry>, r: Refusals): (s: set<Entry>) {
    set e | e in es && RefusedSingly(table, r, e)
  }

  lemma {:induction false} SinglyHeld(table: Table, es: seq<Entry>, r: Refusals, t: Tenant)
    requires AllOf(es, t)
    ensures HeldByOthers(Singly(table, es, r).table, t) == HeldByOthers(table, t)
  {
    if es != [] {
      var n := |es| - 1;
      assert es[n] in es;
      SinglyHeld(table, es[..n], r, t);
      var before := Singly(table, es[..n], r).table;
      assert es[n].key in HeldByOthers(before, t) <==> es[n].key in before && before[es[n].key].tenant != t;
    }
  }

  lemma {:induction false} WriteRowsHeld(table: Table, es: seq<Entry>, t: Tenant)
    requires AllOf(es, t)
    ensures HeldByOthers(WriteRows(table, es), t) == HeldByOthers(table, t)
  {
    if es != [] {
      var n := |es| - 1;
      assert es[n] in es;
      WriteRowsHeld(table, es[..n], t);
      var before := WriteRows(table, es[..n]);
      assert es[n].key in HeldByOthers(before, t) <==> es[n].key in before && before[es[n].key].tenant != t;
    }
  }

  /** Single upserts refuse exactly the entries refused by the table as it was at the start. */
  lemma {:induction false} SinglyIsOneByOne(table: Table, es: seq<Entry>, r: Refusals, t: Tenant, refused: set<Entry>)
    requires AllOf(es, t)
    requires forall e :: e in es ==>
               (e in refused <==> e in r.always || e in r.singly || e.key in HeldByOthers(table, t))
    ensures Singly(table, es, r) == OneByOne(table, es, refused)
  {
    if es != [] {
      var n := |es| - 1;
      assert es[n] in es;
      SinglyIsOneByOne(table, es[..n], r, t, refused);
      SinglyHeld(table, es[..n], r, t);
      assert es[n].key in HeldByOthers(Singly(table, es[..n], r).table, t) <==> es[n].key in HeldByOthers(table, t);
    }
  }

  lemma {:induction false} RefusedIs(table: Table, es: seq<Entry>, r: Refusals, t: Tenant)
    requires AllOf(es, t)
    ensures forall e :: e in es ==>
              (e in Refused(table, es, r) <==> e in r.always || e in r.singly || e.key in HeldByOthers(table, t))
    ensures Singly(table, es, r) == OneByOne(table, es, Refused(table, es, r))
  {
    SinglyIsOneByOne(table, es, r, t, Refused(table, es, r));
  }

  // ----- When faults make no difference -------------------------------------------------------------------

  /** An entry that a chunk takes and a single upsert refuses. */
  predicate Slips(table: Table, r: Refusals, e: Entry) {
    e !in r.always && (e in r.singly || Foreign(table, e))
  }

  /** Chunk `k` would be accepted, with an entry that a single upsert refuses. */
  ghost predicate SlipsIn(table: Table, es: seq<Entry>, r: Refusals, k: nat) {
    Acceptable(Chunk(es, k), r) && exists e :: e in Chunk(es, k) && Slips(table, r, e)
  }

  lemma {:induction false} ChunkIn(es: seq<Entry>, k: nat)
    ensures forall e :: e in Chunk(es, k) ==> e in es
    ensures es[..StartOf(es, k + 1)] == es[..StartOf(es, k)] + Chunk(es, k)
  {
  }

  /** A chunk none of whose entries is refused singly: together or singly, it is the same. */
  lemma {:induction false} ChunkWithoutRefusals(table: Table, chunk: seq<Entry>, refused: set<Entry>, t: Tenant)
    requires AllOf(chunk, t)
    requires forall e :: e in chunk ==> e !in refused && e.key !in HeldByOthers(table, t)
    ensures OneByOne(table, chunk, refused) == Done(WriteRows(table, chunk), chunk, [])
  {
    if chunk != [] {
      var n := |chunk| - 1;
      assert chunk == chunk[..n] + [chunk[n]];
      ChunkWithoutRefusals(table, chunk[..n], refused, t);
      WriteRowsHeld(table, chunk[..n], t);
      var before := WriteRows(table, chunk[..n]);
      assert chunk[n] in chunk && chunk[n].key !in HeldByOthers(before, t);
    }
  }

  lemma {:induction false} ChunkHeld(table: Table, chunk: seq<Entry>, r: Refusals, t: Tenant, fault: bool)
    requires AllOf(chunk, t)
    ensures HeldByOthers(ChunkDone(table, chunk, r, fault).table, t) == HeldByOthers(table, t)
  {
    SinglyHeld(table, chunk, r, t);
    WriteRowsHeld(table, chunk, t);
  }

  lemma {:induction false} InChunksHeld(table: Table, es: seq<Entry>, r: Refusals, t: Tenant, faults: seq<bool>, n: nat)
    requires AllOf(es, t)
    ensures HeldByOthers(InChunks(table, es, r, faults, n).table, t) == HeldByOthers(table, t)
  {
    if n > 0 {
      var k := n - 1;
      InChunksHeld(table, es, r, t, faults, k);
      ChunkIn(es, k);
      ChunkHeld(InChunks(table, es, r, faults, k).table, Chunk(es, k), r, t, FaultAt(faults, k));
    }
  }

  /** `refused` is what a single upsert of the entries refuses on this table. */
  ghost predicate RefusedOn(table: Table, es: seq<Entry>, r: Refusals, t: Tenant, refused: set<Entry>) {
    forall e :: e in es ==> (e in refused <==> e in r.always || e in r.singly || e.key in HeldByOthers(table, t))
  }

  lemma {:induction false} StillRefused(table: Table, es: seq<Entry>, r: Refusals, t: Tenant, faults: seq<bool>, n: nat)
    requires AllOf(es, t)
    ensures AllOf(Chunk(es, n), t)
    ensures RefusedOn(InChunks(table, es, r, faults, n).table, Chunk(es, n), r, t, Refused(table, es, r))
  {
    InChunksHeld(table, es, r, t, faults, n);
    ChunkIn(es, n);
    RefusedIs(table, es, r, t);
  }

  lemma {:induction false} ChunkSame(table: Table, chunk: seq<Entry>, r: Refusals, t: Tenant, refused: set<Entry>,
                                     fault: bool)
    requires AllOf(chunk, t) && RefusedOn(table, chunk, r, t, refused)
    requires Acceptable(chunk, r) ==> forall e :: e in chunk ==> e !in refused
    ensures ChunkDone(table, chunk, r, fault) == OneByOne(table, chunk, refused)
  {
    SinglyIsOneByOne(table, chunk, r, t, refused);
    if Acceptable(chunk, r) {
      ChunkWithoutRefusals(table, chunk, refused, t);
    }
  }

  lemma {:induction false} InSomeChunk(es: seq<Entry>, i: nat)
    requires i < |es|
    ensures i / ChunkSize < Chunks(es) && es[i] in Chunk(es, i / ChunkSize)
  {
    var k := i / ChunkSize;
    assert Chunk(es, k)[i - StartOf(es, k)] == es[i];
  }

  lemma {:induction false} NothingSlips(table: Table, es: seq<Entry>, r: Refusals, t: Tenant, k: nat)
    requires AllOf(es, t) && !SlipsIn(table, es, r, k)
    ensures Acceptable(Chunk(es, k), r) ==> forall e :: e in Chunk(es, k) ==> e !in Refused(table, es, r)
  {
    ChunkIn(es, k);
    forall e | e in Chunk(es, k) && Acceptable(Chunk(es, k), r) ensures e !in Refused(table, es, r) {
      assert !Slips(table, r, e);
    }
  }

  /** The first `n` chunks, whatever fails, come to their entries one by one. */
  ghost predicate SameUpTo(table: Table, es: seq<Entry>, r: Refusals, faults: seq<bool>, n: nat) {
    InChunks(table, es, r, faults, n) == OneByOne(table, es[..StartOf(es, n)], Refused(table, es, r))
  }

  lemma {:induction false} FaultsDontMatter(table: Table, es: seq<Entry>, r: Refusals, t: Tenant, faults: seq<bool>,
                                            n: nat)
    requires AllOf(es, t) && forall k :: 0 <= k < n ==> !SlipsIn(table, es, r, k)
    ensures SameUpTo(table, es, r, faults, n)
  {
    if n == 0 {
      NoChunks(table, es, r, faults);
    } else {
      var k := n - 1;
      FaultsDontMatter(table, es, r, t, faults, k);
      NextChunkSame(table, es, r, t, faults, k);
    }
  }

  lemma {:induction false} NoChunks(table: Table, es: seq<Entry>, r: Refusals, faults: seq<bool>)
    ensures SameUpTo(table, es, r, faults, 0)
  {
    assert es[..StartOf(es, 0)] == [];
  }

  lemma {:induction false} NextChunkSame(table: Table, es: seq<Entry>, r: Refusals, t: Tenant, faults: seq<bool>,
                                         k: nat)
    requires AllOf(es, t) && !SlipsIn(table, es, r, k) && SameUpTo(table, es, r, faults, k)
    ensures SameUpTo(table, es, r, faults, k + 1)
  {
    StillRefused(table, es, r, t, faults, k);
    NothingSlips(table, es, r, t, k);
    ChunkSame(InChunks(table, es, r, faults, k).table, Chunk(es, k), r, t, Refused(table, es, r), FaultAt(faults, k));
    OneByOneUpTo(table, es, k, Refused(table, es, r));
  }

  lemma {:induction false} OneByOneUpTo(table: Table, es: seq<Entry>, k: nat, refused: set<Entry>)
    ensures var before := OneByOne(table, es[..StartOf(es, k)], refused);
            OneByOne(table, es[..StartOf(es, k + 1)], refused) ==
                Join(before, OneByOne(before.table, Chunk(es, k), refused))
  {
    ChunkIn(es, k);
    OneByOneConcat(table, es[..StartOf(es, k)], Chunk(es, k), refused);
  }

  // ----- Without faults, an entry that slips in is no error -------------------------------------------------

  lemma {:induction false} ErrorsOf(table: Table, now: Table, es: seq<Entry>, refused: set<Entry>)
    ensures OneByOne(table, es, refused).errors == OneByOne(now, es, refused).errors
  {
    if es != [] {
      ErrorsOf(table, now, es[..|es| - 1], refused);
    }
  }

  lemma {:induction false} SomeError(table: Table, es: seq<Entry>, refused: set<Entry>, e: Entry)
    requires e in es && e in refused
    ensures OneByOne(table, es, refused).errors != []
  {
    var n := |es| - 1;
    if e != es[n] {
      assert es == es[..n] + [es[n]];
      SomeError(table, es[..n], refused, e);
    }
  }

  /** A chunk reports no more errors than its entries do singly, and fewer when one slips in. */
  lemma {:induction false} ChunkErrors(table: Table, chunk: seq<Entry>, r: Refusals, t: Tenant, refused: set<Entry>,
                                       now: Table)
    requires AllOf(chunk, t) && RefusedOn(table, chunk, r, t, refused)
    ensures |ChunkDone(table, chunk, r, false).errors| <= |OneByOne(now, chunk, refused).errors|
    ensures Acceptable(chunk, r) && (exists e :: e in chunk && e in refused) ==>
              |ChunkDone(table, chunk, r, false).errors| < |OneByOne(now, chunk, refused).errors|
  {
    SinglyIsOneByOne(table, chunk, r, t, refused);
    ErrorsOf(table, now, chunk, refused);
    if e :| e in chunk && e in refused {
      SomeError(now, chunk, refused, e);
    }
  }

  predicate NoMoreErrors(errors: nat, one: nat, slipped: bool) {
    if slipped then errors < one else errors <= one
  }

  ghost predicate SlippedBefore(table: Table, es: seq<Entry>, r: Refusals, n: nat) {
    exists k :: 0 <= k < n && SlipsIn(table, es, r, k)
  }

  /** Without faults the first `n` chunks report no more errors than their entries singly, and fewer after a slip. */
  ghost predicate FewerUpTo(table: Table, es: seq<Entry>, r: Refusals, n: nat) {
    NoMoreErrors(|InChunks(table, es, r, [], n).errors|,
                 |OneByOne(table, es[..StartOf(es, n)], Refused(table, es, r)).errors|,
                 SlippedBefore(table, es, r, n))
  }

  lemma {:induction false} FewerErrors(table: Table, es: seq<Entry>, r: Refusals, t: Tenant, n: nat)
    requires AllOf(es, t)
    ensures FewerUpTo(table, es, r, n)
  {
    if n == 0 {
      NoErrors(table, es, r);
    } else {
      var k := n - 1;
      FewerErrors(table, es, r, t, k);
      NextChunkErrors(table, es, r, t, k);
    }
  }

  lemma {:induction false} NoErrors(table: Table, es: seq<Entry>, r: Refusals)
    ensures FewerUpTo(table, es, r, 0)
  {
  }

  lemma {:induction false} NextChunkErrors(table: Table, es: seq<Entry>, r: Refusals, t: Tenant, k: nat)
    requires AllOf(es, t) && FewerUpTo(table, es, r, k)
    ensures FewerUpTo(table, es, r, k + 1)
  {
    var refused := Refused(table, es, r);
    StillRefused(table, es, r, t, [], k);
    OneByOneUpTo(table, es, k, refused);
    ChunkErrors(InChunks(table, es, r, [], k).table, Chunk(es, k), r, t, refused,
                OneByOne(table, es[..StartOf(es, k)], refused).table);
    if SlipsIn(table, es, r, k) {
      var e :| e in Chunk(es, k) && Slips(table, r, e);
      ChunkIn(es, k);
      assert e in refused;
    }
  }

  lemma {:induction false} AllChunks(es: seq<Entry>)
    ensures StartOf(es, Chunks(es)) == |es|
    ensures es[..StartOf(es, Chunks(es))] == es
  {
  }

  /**
   Every list of faults gives the result of single upserts exactly when no chunk that the database would
   take holds an entry that a single upsert refuses: one whose key a row of another tenant holds, or
   one that fails the single form's own check.
   */
  lemma {:induction false} FaultsDontMatterIff(table: Table, es: seq<Entry>, r: Refusals, t: Tenant)
    requires AllOf(es, t)
    ensures (forall faults :: Bulk(table, es, r, faults) == Singly(table, es, r)) <==>
            forall k :: 0 <= k < Chunks(es) ==> !SlipsIn(table, es, r, k)
  {
    AllChunks(es);
    RefusedIs(table, es, r, t);
    if forall k :: 0 <= k < Chunks(es) ==> !SlipsIn(table, es, r, k) {
      forall faults ensures Bulk(table, es, r, faults) == Singly(table, es, r) {
        FaultsDontMatter(table, es, r, t, faults, Chunks(es));
      }
    } else {
      FewerErrors(table, es, r, t, Chunks(es));
      assert SlippedBefore(table, es, r, Chunks(es));
      assert Bulk(table, es, r, []).errors != Singly(table, es, r).errors;
    }
  }

  /** When the database refuses none of the entries, chunks play no part in the condition. */
  lemma {:induction false} FaultsDontMatterIffNoneSlips(table: Table, es: seq<Entry>, r: Refusals, t: Tenant)
    requires AllOf(es, t) && Acceptable(es, r)
    ensures (forall faults :: Bulk(table, es, r, faults) == Singly(table, es, r)) <==>
            forall e :: e in es ==> e !in r.singly && !Foreign(table, e)
  {
    FaultsDontMatterIff(table, es, r, t);
    if e :| e in es && Slips(table, r, e) {
      var i :| 0 <= i < |es| && es[i] == e;
      InSomeChunk(es, i);
      ChunkIn(es, i / ChunkSize);
      assert SlipsIn(table, es, r, i / ChunkSize);
    } else {
      forall k | 0 <= k < Chunks(es) ensures !SlipsIn(table, es, r, k) {
        ChunkIn(es, k);
      }
    }
  }

  /** Whatever the chunks: no entry that slips, no difference. */
  lemma {:induction false} NoneSlips(table: Table, es: seq<Entry>, r: Refusals, t: Tenant, faults: seq<bool>)
    requires AllOf(es, t) && forall e :: e in es ==> !Slips(table, r, e)
    ensures Bulk(table, es, r, faults) == Singly(table, es, r)
  {
    forall k | 0 <= k < Chunks(es) ensures !SlipsIn(table, es, r, k) {
      ChunkIn(es, k);
    }
    FaultsDontMatterIff(table, es, r, t);
  }

  /** A product of another tenant: the chunk rewrites its row and reports a success, the fallback an error. */
  lemma {:induction false} ForeignProductRewritten(id: string, t: Tenant, u: Tenant, mine: nat, theirs: nat)
    requires t != u
    ensures var table := map[Product(id) := Row(u, theirs, false, None)];
            var e := Entry(Product(id), Row(t, mine, false, None));
            && Bulk(table, [e], Refusals({}, {}), []) == Done(map[Product(id) := Row(u, mine, false, None)], [e], [])
            && Bulk(table, [e], Refusals({}, {}), [true]) == Done(table, [], [Product(id)])
  {
    var table := map[Product(id) := Row(u, theirs, false, None)];
    var e := Entry(Product(id), Row(t, mine, false, None));
    var r := Refusals({}, {});
    assert Chunks([e]) == 1 && Chunk([e], 0) == [e] && [e][..0] == [];
    assert InChunks(table, [e], r, [], 0) == InChunks(table, [e], r, [true], 0) == Done(table, [], []);
    assert WriteRows(table, [e]) == map[Product(id) := Row(u, mine, false, None)];
    assert Singly(table, [e], r) == Done(table, [], [Product(id)]);
  }

  /**
   The condition is one on chunks: an entry the database refuses makes its whole chunk fall back, and
   then a product of another tenant in the same chunk makes no difference.
   */
  lemma {:induction false} RefusedEntryMakesItFallBack(table: Table, e: Entry, b: Entry, t: Tenant, faults: seq<bool>)
    requires e.row.tenant == b.row.tenant == t && e != b && Foreign(table, e)
    ensures Slips(table, Refusals({b}, {}), e)
    ensures Bulk(table, [e, b], Refusals({b}, {}), faults) == Singly(table, [e, b], Refusals({b}, {}))
  {
    var es, r := [e, b], Refusals({b}, {});
    assert Chunks(es) == 1 && Chunk(es, 0) == es;
    assert b in Chunk(es, 0) && b in r.always;
    FaultsDontMatterIff(table, es, r, t);
  }

  // ----- The entries of a request -----------------------------------------------------------------------------

  datatype Mapping = Mapping(id: string, target: nat, autoMapped: bool, confidence: Option<real>)

  /** A confidence of 0 is kept as none. */
  function ProductEntry(t: Tenant, m: Mapping): (e: Entry) {
    Entry(Product(m.id), Row(t, m.target, m.autoMapped, if m.confidence == Some(0.0) then None else m.confidence))
  }

  function LocationEntry(t: Tenant, m: Mapping): (e: Entry) {
    Entry(Location(t, m.id), Row(t, m.target, false, None))
  }

  function ProductEntries(t: Tenant, ms: seq<Mapping>): (es: seq<Entry>) {
    seq(|ms|, i requires 0 <= i < |ms| => ProductEntry(t, ms[i]))
  }

  function LocationEntries(t: Tenant, ms: seq<Mapping>): (es: seq<Entry>) {
    seq(|ms|, i requires 0 <= i < |ms| => LocationEntry(t, ms[i]))
  }

  /** The tenant is part of a location's key. */
  ghost predicate Keyed(table: Table) {
    forall k :: k in table && k.Location? ==> table[k].tenant == k.tenant
  }

  /** The single location upsert finds its element on a floor or a forecourt of the tenant. */
  function Unplaced(es: seq<Entry>, placed: set<nat>): (s: set<Entry>) {
    set e | e in es && e.row.target !in placed
  }

  /** The product entries that are upserted: for each product, its last. */
  function ProductsKept(t: Tenant, ms: seq<Mapping>): (es: seq<Entry>) {
    LastPerKey(ProductEntries(t, ms))
  }

  lemma {:induction false} KeptOf(t: Tenant, ms: seq<Mapping>)
    ensures AllOf(ProductsKept(t, ms), t)
  {
    var es := ProductEntries(t, ms);
    LastPerKeyFacts(es);
    forall e | e in LastPerKey(es) ensures e.row.tenant == t {
      LastEntryIs(es, e.key);
    }
  }

  lemma {:induction false} LocationsNeverForeign(table: Table, t: Tenant, ms: seq<Mapping>)
    requires Keyed(table)
    ensures AllOf(LocationEntries(t, ms), t) && forall e :: e in LocationEntries(t, ms) ==> !Foreign(table, e)
  {
  }

  /**
   The location form: every list of faults gives the result of the validated single form exactly when no
   chunk the database would take maps a location to an element that is not on a floor or forecourt.
   */
  lemma {:induction false} LocationFaultsDontMatterIff(table: Table, t: Tenant, ms: seq<Mapping>, placed: set<nat>,
                                                       bad: set<Entry>)
    requires Keyed(table)
    ensures var es := LocationEntries(t, ms);
            var r := Refusals(bad, Unplaced(es, placed));
            (forall faults :: Bulk(table, es, r, faults) == Singly(table, es, r)) <==>
            forall k :: 0 <= k < Chunks(es) && Acceptable(Chunk(es, k), r) ==> forall e :: e in Chunk(es, k) ==>
                e.row.target in placed
  {
    var es := LocationEntries(t, ms);
    var r := Refusals(bad, Unplaced(es, placed));
    LocationsNeverForeign(table, t, ms);
    FaultsDontMatterIff(table, es, r, t);
    forall k | 0 <= k < Chunks(es)
      ensures SlipsIn(table, es, r, k) <==> Acceptable(Chunk(es, k), r) && !forall e :: e in Chunk(es, k) ==>
                e.row.target in placed
    {
      ChunkIn(es, k);
      if Acceptable(Chunk(es, k), r) {
        if e :| e in Chunk(es, k) && e.row.target !in placed {
          assert Slips(table, r, e);
        }
      }
    }
  }

  /** The product form: exactly when no chunk the database would take holds a product of another tenant. */
  lemma {:induction false} ProductFaultsDontMatterIff(table: Table, t: Tenant, ms: seq<Mapping>, bad: set<Entry>)
    ensures var es, r := ProductsKept(t, ms), Refusals(bad, {});
            (forall faults :: Bulk(table, es, r, faults) == Singly(table, es, r)) <==>
            forall k :: 0 <= k < Chunks(es) && Acceptable(Chunk(es, k), r) ==> forall e :: e in Chunk(es, k) ==>
                !Foreign(table, e)
  {
    var es, r := ProductsKept(t, ms), Refusals(bad, {});
    KeptOf(t, ms);
    FaultsDontMatterIff(table, es, r, t);
    forall k | 0 <= k < Chunks(es)
      ensures SlipsIn(table, es, r, k) <==> Acceptable(Chunk(es, k), r) && !forall e :: e in Chunk(es, k) ==>
                !Foreign(table, e)
    {
      if Acceptable(Chunk(es, k), r) {
        if e :| e in Chunk(es, k) && Foreign(table, e) {
          assert Slips(table, r, e);
        }
      }
    }
  }

  /**
   Upserting one entry for each product leaves the table all of them would, exactly when the last one
   decides for every key.
   */
  lemma {:induction false} LastProductAgreesIff(table: Table, t: Tenant, ms: seq<Mapping>, bad: set<Entry>)
    ensures var es, r := ProductEntries(t, ms), Refusals(bad, {});
            Singly(table, ProductsKept(t, ms), r).table == Singly(table, es, r).table <==>
            forall key :: LastDecides(table, es, Refused(table, es, r), key)
  {
    var es, r := ProductEntries(t, ms), Refusals(bad, {});
    KeptOf(t, ms);
    RefusedIs(table, es, r, t);
    forall e | e in ProductsKept(t, ms) ensures e in es {
      LastPerKeyFacts(es);
      LastEntryIs(es, e.key);
    }
    SinglyIsOneByOne(table, ProductsKept(t, ms), r, t, Refused(table, es, r));
    LastPerKeyAgreesIff(table, es, Refused(table, es, r));
  }

  // ----- Over the table -------------------------------------------------------------------------------

  /** One more turn of the chunk loop. */
  lemma {:induction false} NextChunk(table: Table, es: seq<Entry>, r: Refusals, faults: seq<bool>, n: nat)
    requires StartOf(es, n) < |es|
    ensures n < Chunks(es) && StartOf(es, n) < StartOf(es, n + 1)
    ensures var before := InChunks(table, es, r, faults, n);
            InChunks(table, es, r, faults, n + 1)
            == Join(before, ChunkDone(before.table, Chunk(es, n), r, FaultAt(faults, n)))
  {
  }

  lemma {:induction false} ChunksEnd(es: seq<Entry>, n: nat)
    requires StartOf(es, n) == |es| && n <= Chunks(es)
    ensures n == Chunks(es)
  {
  }

  class MappingTable {
    var rows: Table

    /** A single upsert, scoped to the tenant of the entry. */
    method Upsert(e: Entry, r: Refusals) returns (ok: bool)
      modifies this
      ensures ok <==> !RefusedSingly(old(rows), r, e)
      ensures rows == if ok then old(rows)[e.key := e.row] else old(rows)
    {
      if e in r.always || e in r.singly {
        return false;
      }
      if e.key in rows && rows[e.key].tenant == e.row.tenant {
        rows := rows[e.key := e.row];
        return true;
      }
      // Not found for this tenant: created, unless the key is taken.
      ok := e.key !in rows;
      if ok {
        rows := rows[e.key := e.row];
      }
    }

    /** One chunk in one transaction: all of it, or nothing. */
    method UpsertTogether(chunk: seq<Entry>, r: Refusals, fault: bool) returns (ok: bool)
      modifies this
      ensures ok <==> !fault && Acceptable(chunk, r)
      ensures rows == if ok then WriteRows(old(rows), chunk) else old(rows)
    {
      var before := rows;
      for k := 0 to |chunk|
        invariant forall i :: 0 <= i < k ==> chunk[i] !in r.always
        invariant rows == WriteRows(before, chunk[..k])
      {
        assert chunk[..k + 1][..k] == chunk[..k];
        if chunk[k] in r.always {
          rows := before;
          return false;
        }
        rows := rows[chunk[k].key := if chunk[k].key in rows then chunk[k].row.(tenant := rows[chunk[k].key].tenant)
                     else chunk[k].row];
      }
      assert chunk[..|chunk|] == chunk;
      ok := !fault;
      if fault {
        rows := before;
      }
    }

    /** The fallback: each entry on its own, so that a refused one loses no other. */
    method UpsertEach(chunk: seq<Entry>, r: Refusals) returns (successes: seq<Entry>, errors: seq<Key>)
      modifies this
      ensures Done(rows, successes, errors) == Singly(old(rows), chunk, r)
    {
      successes, errors := [], [];
      for k := 0 to |chunk|
        invariant Done(rows, successes, errors) == Singly(old(rows), chunk[..k], r)
      {
        assert chunk[..k + 1][..k] == chunk[..k];
        var ok := Upsert(chunk[k], r);
        if ok {
          successes := successes + [chunk[k]];
        } else {
          errors := errors + [chunk[k].key];
        }
      }
      assert chunk[..|chunk|] == chunk;
    }

    method UpsertChunk(chunk: seq<Entry>, r: Refusals, fault: bool) returns (successes: seq<Entry>, errors: seq<Key>)
      modifies this
      ensures Done(rows, successes, errors) == ChunkDone(old(rows), chunk, r, fault)
    {
      var ok := UpsertTogether(chunk, r, fault);
      if ok {
        return chunk, [];
      }
      successes, errors := UpsertEach(chunk, r);
    }

    /** The chunk loop the three forms share. */
    method UpsertInChunks(es: seq<Entry>, r: Refusals, faults: seq<bool>)
        returns (successes: seq<Entry>, errors: seq<Key>)
      modifies this
      ensures Done(rows, successes, errors) == Bulk(old(rows), es, r, faults)
    {
      successes, errors := [], [];
      var i, n := 0, 0;
      while i < |es|
        invariant i == StartOf(es, n) && n <= Chunks(es)
        invariant Done(rows, successes, errors) == InChunks(old(rows), es, r, faults, n)
        decreases |es| - i
      {
        var end := StartOf(es, n + 1);
        NextChunk(old(rows), es, r, faults, n);
        var done, failed := UpsertChunk(Chunk(es, n), r, FaultAt(faults, n));
        successes, errors := successes + done, errors + failed;
        i, n := end, n + 1;
      }
      ChunksEnd(es, n);
    }

    /**
     `bulkMerchantElementMappings`: wherever chunks fail, the table, the successes and the errors of
     single upserts.
     */
    method BulkMerchantElementMappings(t: Tenant, ms: seq<Mapping>, bad: set<Entry>, faults: seq<bool>)
      returns (successes: seq<Entry>, errors: seq<Key>)
      requires Keyed(rows)
      modifies this
      ensures Done(rows, successes, errors) == Singly(old(rows), LocationEntries(t, ms), Refusals(bad, {}))
      ensures |successes| + |errors| == |ms|
    {
      var es := LocationEntries(t, ms);
      LocationsNeverForeign(rows, t, ms);
      NoneSlips(rows, es, Refusals(bad, {}), t, faults);
      BulkReports(rows, es, Refusals(bad, {}), t, faults);
      successes, errors := UpsertInChunks(es, Refusals(bad, {}), faults);
    }

    /** `bulkLocationShopMappings`: a chunk unvalidated, the fallback through the validated single form. */
    method BulkLocationShopMappings(t: Tenant, ms: seq<Mapping>, placed: set<nat>, bad: set<Entry>, faults: seq<bool>)
      returns (successes: seq<Entry>, errors: seq<Key>)
      requires Keyed(rows)
      modifies this
      ensures Done(rows, successes, errors) ==
              Bulk(old(rows), LocationEntries(t, ms), Refusals(bad, Unplaced(LocationEntries(t, ms), placed)), faults)
      ensures |successes| + |errors| == |ms|
    {
      var es := LocationEntries(t, ms);
      LocationsNeverForeign(rows, t, ms);
      BulkReports(rows, es, Refusals(bad, Unplaced(es, placed)), t, faults);
      successes, errors := UpsertInChunks(es, Refusals(bad, Unplaced(es, placed)), faults);
    }

    /** The map by key, read back in the order its keys were first set. */
    method Deduplicate(es: seq<Entry>) returns (r: seq<Entry>)
      ensures r == LastPerKey(es)
    {
      r := [];
      for k := 0 to |es|
        invariant r == LastPerKey(es[..k])
      {
        assert es[..k + 1][..k] == es[..k];
        var i := 0;
        while i < |r| && r[i].key != es[k].key
          invariant i <= |r| && forall j :: 0 <= j < i ==> r[j].key != es[k].key
        {
          i := i + 1;
        }
        assert i == PositionOf(r, es[k].key);
        r := if i < |r| then r[i := es[k]] else r + [es[k]];
      }
      assert es[..|es|] == es;
    }

    /** `bulkProductMappings`: one entry for each product, its last; the chunk raw, the fallback scoped. */
    method BulkProductMappings(t: Tenant, ms: seq<Mapping>, bad: set<Entry>, faults: seq<bool>)
      returns (successes: seq<Entry>, errors: seq<Key>)
      modifies this
      ensures Done(rows, successes, errors) == Bulk(old(rows), ProductsKept(t, ms), Refusals(bad, {}), faults)
      ensures |successes| + |errors| == |ProductsKept(t, ms)|
    {
      var unique := Deduplicate(ProductEntries(t, ms));
      KeptOf(t, ms);
      BulkReports(rows, unique, Refusals(bad, {}), t, faults);
      successes, errors := UpsertInChunks(unique, Refusals(bad, {}), faults);
    }
  }

  /** Every entry is reported once, as a success or as an error. */
  lemma {:induction false} BulkReports(table: Table, es: seq<Entry>, r: Refusals, t: Tenant, faults: seq<bool>)
    requires AllOf(es, t)
    ensures var d := Bulk(table, es, r, faults); |d.successes| + |d.errors| == |es|
  {
    AllChunks(es);
    ChunksReport(table, es, r, t, faults, Chunks(es));
  }

  /** The first `n` chunks report what is in them. */
  ghost predicate AllReported(table: Table, es: seq<Entry>, r: Refusals, faults: seq<bool>, n: nat) {
    var d := InChunks(table, es, r, faults, n);
    |d.successes| + |d.errors| == StartOf(es, n)
  }

  lemma {:induction false} ChunksReport(table: Table, es: seq<Entry>, r: Refusals, t: Tenant, faults: seq<bool>, n: nat)
    requires AllOf(es, t)
    ensures AllReported(table, es, r, faults, n)
  {
    if n == 0 {
      NoneReported(table, es, r, faults);
    } else {
      var k := n - 1;
      ChunksReport(table, es, r, t, faults, k);
      NextChunkReports(table, es, r, t, faults, k);
    }
  }

  lemma {:induction false} NoneReported(table: Table, es: seq<Entry>, r: Refusals, faults: seq<bool>)
    ensures AllReported(table, es, r, faults, 0)
  {
  }

  lemma {:induction false} NextChunkReports(table: Table, es: seq<Entry>, r: Refusals, t: Tenant, faults: seq<bool>,
                                            k: nat)
    requires AllOf(es, t) && AllReported(table, es, r, faults, k)
    ensures AllReported(table, es, r, faults, k + 1)
  {
    StillRefused(table, es, r, t, faults, k);
    ChunkReports(InChunks(table, es, r, faults, k).table, Chunk(es, k), r, t, Refused(table, es, r),
                 FaultAt(faults, k));
  }

  lemma {:induction false} ChunkReports(table: Table, chunk: seq<Entry>, r: Refusals, t: Tenant, refused: set<Entry>,
                                        fault: bool)
    requires AllOf(chunk, t) && RefusedOn(table, chunk, r, t, refused)
    ensures var d := ChunkDone(table, chunk, r, fault); |d.successes| + |d.errors| == |chunk|
  {
    SinglyIsOneByOne(table, chunk, r, t, refused);
    EveryEntryReported(table, chunk, refused);
  }
}
