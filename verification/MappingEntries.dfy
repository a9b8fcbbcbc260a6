/**
 The entries of a bulk mapping request (mappings.service.ts), upserted one after the other; and the
 last entry of each key, which is all the product form keeps.
 */
module MappingEntries {
  import opened Common

  type Tenant = string

  // A product is mapped once over all tenants; a location once for each tenant.
  datatype Key = Product(id: string) | Location(tenant: Tenant, id: string)
  datatype Row = Row(tenant: Tenant, target: nat, autoMapped: bool, confidence: Option<real>)
  datatype Entry = Entry(key: Key, row: Row)
  type Table = map<Key, Row>

  datatype Done = Done(table: Table, successes: seq<Entry>, errors: seq<Key>)

  /** One upsert after the other, without the entries in `bad`. */
  function OneByOne(table: Table, es: seq<Entry>, bad: set<Entry>): (d: Done) {
    if es == [] then Done(table, [], [])
    else
      var before, last := OneByOne(table, es[..|es| - 1], bad), es[|es| - 1];
      if last in bad then before.(errors := before.errors + [last.key])
      else Done(before.table[last.key := last.row], before.successes + [last], before.errors)
  }

  lemma {:induction false} OneByOneConcat(table: Table, a: seq<Entry>, b: seq<Entry>, bad: set<Entry>)
    ensures var first := OneByOne(table, a, bad);
            var second := OneByOne(first.table, b, bad);
            OneByOne(table, a + b, bad) ==
                Done(second.table, first.successes + second.successes, first.errors + second.errors)
  {
    if b == [] {
      assert a + b == a;
    } else {
      assert (a + b)[..|a + b| - 1] == a + b[..|b| - 1];
      OneByOneConcat(table, a, b[..|b| - 1], bad);
    }
  }

  /** Without a refused entry every one succeeds. */
  lemma {:induction false} AllSucceed(table: Table, es: seq<Entry>, bad: set<Entry>)
    requires forall e :: e in es ==> e !in bad
    ensures OneByOne(table, es, bad).successes == es && OneByOne(table, es, bad).errors == []
  {
    if es != [] {
      var n := |es| - 1;
      assert es == es[..n] + [es[n]];
      AllSucceed(table, es[..n], bad);
    }
  }

  /** Every entry is a success or an error, in order; errors are exactly the refused ones. */
  lemma {:induction false} EveryEntryReported(table: Table, es: seq<Entry>, bad: set<Entry>)
    ensures var d := OneByOne(table, es, bad);
            && |d.successes| + |d.errors| == |es|
            && (forall e :: e in d.successes <==> e in es && e !in bad)
  {
    if es != [] {
      var n := |es| - 1;
      assert es == es[..n] + [es[n]];
      EveryEntryReported(table, es[..n], bad);
    }
  }

  // ----- The last entry of each key -----------------------------------------------------------------

  function PositionOf(es: seq<Entry>, key: Key): (i: nat)
    ensures i <= |es|
    ensures i < |es| ==> es[i].key == key
    ensures forall j :: 0 <= j < i ==> es[j].key != key
  {
    if es == [] then 0 else if es[0].key == key then 0 else 1 + PositionOf(es[1..], key)
  }

  /** One entry for each key: where the key first comes, with the value that comes last. */
  function LastPerKey(es: seq<Entry>): (r: seq<Entry>) {
    if es == [] then []
    else
      var before, last := LastPerKey(es[..|es| - 1]), es[|es| - 1];
      var i := PositionOf(before, last.key);
      if i < |before| then before[i := last] else before + [last]
  }

  ghost predicate DistinctKeys(es: seq<Entry>) {
    forall i, j :: 0 <= i < j < |es| ==> es[i].key != es[j].key
  }

  function LastEntry(es: seq<Entry>, key: Key): (e: Option<Entry>) {
    if es == [] then None else if es[|es| - 1].key == key then Some(es[|es| - 1]) else LastEntry(es[..|es| - 1], key)
  }

  function LastAccepted(es: seq<Entry>, key: Key, bad: set<Entry>): (e: Option<Entry>) {
    if es == [] then None
    else
      var last := es[|es| - 1];
      if last.key == key && last !in bad then Some(last) else LastAccepted(es[..|es| - 1], key, bad)
  }

  lemma {:induction false} LastPerKeyFacts(es: seq<Entry>)
    ensures DistinctKeys(LastPerKey(es))
    ensures forall e :: e in LastPerKey(es) <==> LastEntry(es, e.key) == Some(e)
  {
    if es != [] {
      var n := |es| - 1;
      var before, last := LastPerKey(es[..n]), es[n];
      LastPerKeyFacts(es[..n]);
      var i := PositionOf(before, last.key);
      forall e ensures e in LastPerKey(es) <==> LastEntry(es, e.key) == Some(e) {
        if e in before && e.key == last.key && i < |before| {
          var j :| 0 <= j < |before| && before[j] == e;
          assert j == i;
        }
        if i < |before| {
          ReplacedAt(before, i, last, e);
        }
      }
    }
  }

  lemma {:induction false} ReplacedAt(es: seq<Entry>, i: nat, e: Entry, x: Entry)
    requires i < |es| && DistinctKeys(es) && es[i].key == e.key
    ensures x in es[i := e] <==> x == e || (x in es && x.key != e.key)
  {
    var r := es[i := e];
    assert r[i] == e;
    if x in es && x.key != e.key {
      var j :| 0 <= j < |es| && es[j] == x;
      assert r[j] == x;
    }
  }

  /** Keys keep the order in which they first come. */
  lemma {:induction false} FirstComeOrder(es: seq<Entry>, n: nat)
    requires n <= |es|
    ensures |LastPerKey(es[..n])| <= |LastPerKey(es)|
    ensures forall i :: 0 <= i < |LastPerKey(es[..n])| ==> LastPerKey(es)[i].key == LastPerKey(es[..n])[i].key
  {
    if n < |es| {
      FirstComeOrder(es[..|es| - 1], n);
      assert es[..|es| - 1][..n] == es[..n];
    } else {
      assert es[..n] == es;
    }
  }

  /** What one-by-one upserts leave under a key: the last accepted entry, else what was there. */
  lemma {:induction false} TableAt(table: Table, es: seq<Entry>, bad: set<Entry>, key: Key)
    ensures var now, last := OneByOne(table, es, bad).table, LastAccepted(es, key, bad);
            if last.Some? then key in now && now[key] == last.value.row
            else (key in now <==> key in table) && (key in now ==> now[key] == table[key])
  {
    if es != [] {
      TableAt(table, es[..|es| - 1], bad, key);
    }
  }

  lemma {:induction false} AcceptedOfDistinct(es: seq<Entry>, key: Key, bad: set<Entry>)
    requires DistinctKeys(es)
    ensures LastAccepted(es, key, bad) == if LastEntry(es, key).Some? && LastEntry(es, key).value !in bad
            then LastEntry(es, key) else None
  {
    if es != [] {
      var n := |es| - 1;
      AcceptedOfDistinct(es[..n], key, bad);
      if es[n].key == key {
        NoneBefore(es[..n], key);
      }
    }
  }

  lemma {:induction false} NoneBefore(es: seq<Entry>, key: Key)
    requires forall i :: 0 <= i < |es| ==> es[i].key != key
    ensures LastEntry(es, key) == None
  {
    if es != [] {
      NoneBefore(es[..|es| - 1], key);
    }
  }

  lemma {:induction false} LastEntryIs(es: seq<Entry>, key: Key)
    ensures LastEntry(es, key).Some? ==> LastEntry(es, key).value in es && LastEntry(es, key).value.key == key
    ensures LastEntry(es, key).None? <==> forall e :: e in es ==> e.key != key
  {
    if es != [] {
      var n := |es| - 1;
      LastEntryIs(es[..n], key);
      assert es == es[..n] + [es[n]];
    }
  }

  /** Keeping one entry for each key keeps its last entry. */
  lemma {:induction false} LastSurvives(es: seq<Entry>, key: Key)
    ensures LastEntry(LastPerKey(es), key) == LastEntry(es, key)
  {
    var kept := LastPerKey(es);
    LastPerKeyFacts(es);
    LastEntryIs(kept, key);
    LastEntryIs(es, key);
  }

  /** The table once only the last entry of each key is upserted. */
  lemma {:induction false} LastPerKeyAt(table: Table, es: seq<Entry>, bad: set<Entry>, key: Key)
    ensures var now, last := OneByOne(table, LastPerKey(es), bad).table, LastEntry(es, key);
            if last.Some? && last.value !in bad then key in now && now[key] == last.value.row
            else (key in now <==> key in table) && (key in now ==> now[key] == table[key])
  {
    LastPerKeyFacts(es);
    TableAt(table, LastPerKey(es), bad, key);
    AcceptedOfDistinct(LastPerKey(es), key, bad);
    LastSurvives(es, key);
  }

  /** A refused last entry hides no accepted one, unless that one's row is stored already. */
  ghost predicate LastDecides(table: Table, es: seq<Entry>, bad: set<Entry>, key: Key) {
    var last, accepted := LastEntry(es, key), LastAccepted(es, key, bad);
    last.Some? && last.value in bad && accepted.Some? ==> key in table && table[key] == accepted.value.row
  }

  /**
   Keeping only the last entry of each key leaves the table that all entries would, exactly when the
   last one decides for every key.
   */
  lemma {:induction false} LastPerKeyAgreesIff(table: Table, es: seq<Entry>, bad: set<Entry>)
    ensures OneByOne(table, LastPerKey(es), bad).table == OneByOne(table, es, bad).table <==>
              forall key :: LastDecides(table, es, bad, key)
  {
    forall key
      ensures var a, b := OneByOne(table, LastPerKey(es), bad).table, OneByOne(table, es, bad).table;
              LastDecides(table, es, bad, key) <==> ((key in a <==> key in b) && (key in a ==> a[key] == b[key]))
    {
      TableAt(table, es, bad, key);
      LastPerKeyAt(table, es, bad, key);
      AcceptedLast(es, key, bad);
    }
  }

  lemma {:induction false} AcceptedLast(es: seq<Entry>, key: Key, bad: set<Entry>)
    ensures LastEntry(es, key).Some? && LastEntry(es, key).value !in bad ==>
              LastAccepted(es, key, bad) == LastEntry(es, key)
    ensures LastEntry(es, key).None? ==> LastAccepted(es, key, bad).None?
    ensures LastAccepted(es, key, bad).Some? ==> LastAccepted(es, key, bad).value !in bad
  {
    if es != [] {
      AcceptedLast(es[..|es| - 1], key, bad);
    }
  }
}
