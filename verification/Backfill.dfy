/**
 The price backfill (menu-items.service.ts, `backfillWeezeventPrices`): which (item, space) pairs it
 prices, in which order it writes, and what holds if it stops between two transactions.
 */
module Backfill {
  import opened Common
  import opened Prices
  import opened PriceStore

  datatype Options = Options(only: Option<Id>, overwrite: bool)

  /** Latest non-null sale by (space, product): within the event asked for, and overall. */
  datatype SalesTable = SalesTable(onEvent: Option<map<(Id, Id), ColumnPrice>>, overall: map<(Id, Id), ColumnPrice>)

  datatype Target = Target(item: Id, space: Id, product: Id)
  datatype Class = AlreadyPriced | NoSales | Applied

  /** The event's sale first, else the space's. */
  function SalePrice(sales: SalesTable, space: Id, product: Id): (p: Option<ColumnPrice>) {
    if sales.onEvent.Some? && (space, product) in sales.onEvent.value then Some(sales.onEvent.value[(space, product)])
    else if (space, product) in sales.overall then Some(sales.overall[(space, product)]) else None
  }

  predicate Sold(sales: SalesTable, t: Target) {
    var p := SalePrice(sales, t.space, t.product);
    p.Some? && p.value.ttc > 0.0
  }

  function PricesOf(shop: Shop, item: Id): (m: map<Id, Price>) {
    if item in shop.items then Normalize(shop.items[item].spacePrices) else map[]
  }

  /** The pair has no price yet, or prices are to be overwritten. */
  predicate Needs(shop: Shop, overwrite: bool, t: Target) {
    var prices := PricesOf(shop, t.item);
    overwrite || t.space !in prices || prices[t.space].ttc <= 0.0
  }

  function ClassOf(shop: Shop, overwrite: bool, sales: SalesTable, t: Target): (c: Class) {
    if !Needs(shop, overwrite, t) then AlreadyPriced else if Sold(sales, t) then Applied else NoSales
  }

  // ----- The pairs targeted -----------------------------------------------------------------------

  function SpacesOf(spaceIds: seq<Id>, only: Option<Id>): (r: seq<Id>) {
    if spaceIds == [] then []
    else
      var last := spaceIds[|spaceIds| - 1];
      SpacesOf(spaceIds[..|spaceIds| - 1], only) + if only.None? || last == only.value then [last] else []
  }

  function TargetsOn(item: Id, product: Id, spaces: seq<Id>): (ts: seq<Target>) {
    if spaces == [] then []
    else TargetsOn(item, product, spaces[..|spaces| - 1]) + [Target(item, spaces[|spaces| - 1], product)]
  }

  /** The item's only mapped product. */
  function OnlyProduct(cat: Catalogue, item: Id): (p: Option<Id>) {
    MappedProduct(cat, item, None)
  }

  function SpaceIds(shop: Shop, item: Id): (s: seq<Id>) {
    if item in shop.items then shop.items[item].spaceIds else []
  }

  function TargetsOf(shop: Shop, cat: Catalogue, item: Id, only: Option<Id>): (ts: seq<Target>) {
    var product := OnlyProduct(cat, item);
    if product.None? then [] else TargetsOn(item, product.value, SpacesOf(SpaceIds(shop, item), only))
  }

  /** Every targeted pair, as the items and their spaces come. */
  function Targets(shop: Shop, cat: Catalogue, scan: seq<Id>, only: Option<Id>): (ts: seq<Target>) {
    if scan == [] then []
    else Targets(shop, cat, scan[..|scan| - 1], only) + TargetsOf(shop, cat, scan[|scan| - 1], only)
  }

  function Kept(shop: Shop, overwrite: bool, ts: seq<Target>): (r: seq<Target>) {
    if ts == [] then []
    else
      var last := ts[|ts| - 1];
      Kept(shop, overwrite, ts[..|ts| - 1]) + if Needs(shop, overwrite, last) then [last] else []
  }

  function SoldOnly(sales: SalesTable, ts: seq<Target>): (r: seq<Target>) {
    if ts == [] then []
    else
      var last := ts[|ts| - 1];
      SoldOnly(sales, ts[..|ts| - 1]) + if Sold(sales, last) then [last] else []
  }

  // ----- Grouped by space ---------------------------------------------------------------------------

  function OfSpace(ts: seq<Target>, s: Id): (r: seq<Target>) {
    if ts == [] then []
    else
      var last := ts[|ts| - 1];
      OfSpace(ts[..|ts| - 1], s) + if last.space == s then [last] else []
  }

  /** The spaces in the order they first come. */
  function SpacesIn(ts: seq<Target>): (r: seq<Id>) {
    if ts == [] then []
    else
      var before, last := SpacesIn(ts[..|ts| - 1]), ts[|ts| - 1];
      if last.space in before then before else before + [last.space]
  }

  function Concat(ts: seq<Target>, spaces: seq<Id>): (r: seq<Target>) {
    if spaces == [] then [] else Concat(ts, spaces[..|spaces| - 1]) + OfSpace(ts, spaces[|spaces| - 1])
  }

  function Grouped(ts: seq<Target>): (r: seq<Target>) {
    Concat(ts, SpacesIn(ts))
  }

  // ----- The writes ------------------------------------------------------------------------------------

  function SaleRow(sales: SalesTable, t: Target): (w: WriteOp)
    requires Sold(sales, t)
  {
    AddHistory(t.item, Some(t.space), SalePrice(sales, t.space, t.product).value, Sales, t.product)
  }

  function SaleHistory(sales: SalesTable, t: Target): (row: HistoryRow)
    requires Sold(sales, t)
  {
    HistoryRow(t.item, Some(t.space), SalePrice(sales, t.space, t.product).value, Sales, t.product)
  }

  function Rows(sales: SalesTable, applied: seq<Target>): (ws: seq<WriteOp>)
    requires forall t :: t in applied ==> Sold(sales, t)
    ensures |ws| == |applied| && AllAccepted(ws)
  {
    if applied == [] then [] else Rows(sales, applied[..|applied| - 1]) + [SaleRow(sales, applied[|applied| - 1])]
  }

  /** The prices of one item once the pairs applied are in. */
  function Filled(prices: map<Id, Price>, sales: SalesTable, applied: seq<Target>, item: Id): (r: map<Id, Price>)
    requires forall t :: t in applied ==> Sold(sales, t)
  {
    if applied == [] then prices
    else
      var before, last := Filled(prices, sales, applied[..|applied| - 1], item), applied[|applied| - 1];
      assert last in applied && Sold(sales, last);
      if last.item == item then before[last.space := SalePrice(sales, last.space, last.product).value] else before
  }

  function Touched(applied: seq<Target>): (r: seq<Id>) {
    if applied == [] then []
    else
      var before, last := Touched(applied[..|applied| - 1]), applied[|applied| - 1];
      if last.item in before then before else before + [last.item]
  }

  function Updates(shop: Shop, sales: SalesTable, applied: seq<Target>, touched: seq<Id>): (ws: seq<WriteOp>)
    requires forall t :: t in applied ==> Sold(sales, t)
    ensures |ws| == |touched| && AllAccepted(ws)
  {
    if touched == [] then []
    else
      var last := touched[|touched| - 1];
      Updates(shop, sales, applied, touched[..|touched| - 1]) +
          [SetSpacePrices(last, Filled(PricesOf(shop, last), sales, applied, last))]
  }

  /** The pairs priced, in the order they are written. */
  function AppliedPairs(shop: Shop, cat: Catalogue, sales: SalesTable, scan: seq<Id>, o: Options): (r: seq<Target>) {
    SoldOnly(sales, Grouped(Kept(shop, o.overwrite, Targets(shop, cat, scan, o.only))))
  }

  lemma {:induction false} SoldOnlyIn(sales: SalesTable, ts: seq<Target>, t: Target)
    ensures t in SoldOnly(sales, ts) <==> t in ts && Sold(sales, t)
  {
    if ts != [] {
      SoldOnlyIn(sales, ts[..|ts| - 1], t);
      assert ts == ts[..|ts| - 1] + [ts[|ts| - 1]];
    }
  }

  lemma {:induction false} AllSold(sales: SalesTable, ts: seq<Target>)
    ensures forall t :: t in SoldOnly(sales, ts) ==> Sold(sales, t)
  {
    forall t | t in SoldOnly(sales, ts) ensures Sold(sales, t) {
      SoldOnlyIn(sales, ts, t);
    }
  }

  /** All the writes: first every history row, then one update for each item. */
  function Writes(shop: Shop, sales: SalesTable, applied: seq<Target>): (ws: seq<WriteOp>)
    requires forall t :: t in applied ==> Sold(sales, t)
    ensures AllAccepted(ws)
  {
    Rows(sales, applied) + Updates(shop, sales, applied, Touched(applied))
  }

  // ----- Each pair lands in one class ------------------------------------------------------------------

  function CountClass(shop: Shop, overwrite: bool, sales: SalesTable, ts: seq<Target>, c: Class): (n: nat) {
    if ts == [] then 0
    else CountClass(shop, overwrite, sales, ts[..|ts| - 1], c) + if ClassOf(shop, overwrite, sales, ts[|ts| - 1]) == c
        then 1 else 0
  }

  lemma {:induction false} ClassesPartition(shop: Shop, overwrite: bool, sales: SalesTable, ts: seq<Target>)
    ensures CountClass(shop, overwrite, sales, ts, AlreadyPriced) + CountClass(shop, overwrite, sales, ts, NoSales)
            + CountClass(shop, overwrite, sales, ts, Applied) == |ts|
    ensures |Kept(shop, overwrite, ts)| == |ts| - CountClass(shop, overwrite, sales, ts, AlreadyPriced)
    ensures |SoldOnly(sales, Kept(shop, overwrite, ts))| == CountClass(shop, overwrite, sales, ts, Applied)
  {
    if ts != [] {
      var n := |ts| - 1;
      ClassesPartition(shop, overwrite, sales, ts[..n]);
      var kept := Kept(shop, overwrite, ts[..n]);
      if Needs(shop, overwrite, ts[n]) {
        assert (kept + [ts[n]])[..|kept|] == kept;
      } else {
        assert kept + [] == kept;
      }
    }
  }

  lemma {:induction false} OfSpaceCount(ts: seq<Target>, s: Id, t: Target)
    ensures multiset(OfSpace(ts, s))[t] == if t.space == s then multiset(ts)[t] else 0
  {
    if ts != [] {
      OfSpaceCount(ts[..|ts| - 1], s, t);
      assert ts == ts[..|ts| - 1] + [ts[|ts| - 1]];
    }
  }

  lemma {:induction false} ConcatCount(ts: seq<Target>, spaces: seq<Id>, t: Target)
    requires Distinct(spaces)
    ensures multiset(Concat(ts, spaces))[t] == if t.space in spaces then multiset(ts)[t] else 0
  {
    if spaces != [] {
      var n := |spaces| - 1;
      ConcatCount(ts, spaces[..n], t);
      OfSpaceCount(ts, spaces[n], t);
      assert spaces == spaces[..n] + [spaces[n]];
    }
  }

  lemma {:induction false} SpacesInFacts(ts: seq<Target>)
    ensures Distinct(SpacesIn(ts)) && forall t :: t in ts ==> t.space in SpacesIn(ts)
  {
    if ts != [] {
      SpacesInFacts(ts[..|ts| - 1]);
      assert ts == ts[..|ts| - 1] + [ts[|ts| - 1]];
    }
  }

  /** Grouping by space reorders the pairs; none is lost or doubled. */
  lemma {:induction false} GroupedIsPermutation(ts: seq<Target>)
    ensures multiset(Grouped(ts)) == multiset(ts)
  {
    SpacesInFacts(ts);
    forall t: Target ensures multiset(Grouped(ts))[t] == multiset(ts)[t] {
      ConcatCount(ts, SpacesIn(ts), t);
      assert multiset(ts)[t] > 0 ==> t in ts;
    }
  }

  lemma {:induction false} SoldCount(sales: SalesTable, ts: seq<Target>, t: Target)
    ensures multiset(SoldOnly(sales, ts))[t] == if Sold(sales, t) then multiset(ts)[t] else 0
  {
    if ts != [] {
      SoldCount(sales, ts[..|ts| - 1], t);
      assert ts == ts[..|ts| - 1] + [ts[|ts| - 1]];
    }
  }

  lemma {:induction false} SameSold(sales: SalesTable, a: seq<Target>, b: seq<Target>)
    requires multiset(a) == multiset(b)
    ensures |SoldOnly(sales, a)| == |SoldOnly(sales, b)|
  {
    forall t: Target ensures multiset(SoldOnly(sales, a))[t] == multiset(SoldOnly(sales, b))[t] {
      SoldCount(sales, a, t);
      SoldCount(sales, b, t);
    }
    assert multiset(SoldOnly(sales, a)) == multiset(SoldOnly(sales, b));
    assert |multiset(SoldOnly(sales, a))| == |SoldOnly(sales, a)|
           && |multiset(SoldOnly(sales, b))| == |SoldOnly(sales, b)|;
  }

  /** The pairs written are as many as the targeted pairs that lacked a price and have a sale. */
  lemma {:induction false} AppliedCount(shop: Shop, cat: Catalogue, sales: SalesTable, scan: seq<Id>, o: Options)
    ensures |AppliedPairs(shop, cat, sales, scan, o)| ==
            CountClass(shop, o.overwrite, sales, Targets(shop, cat, scan, o.only), Applied)
  {
    var ts := Targets(shop, cat, scan, o.only);
    var kept := Kept(shop, o.overwrite, ts);
    ClassesPartition(shop, o.overwrite, sales, ts);
    GroupedIsPermutation(kept);
    SameSold(sales, Grouped(kept), kept);
  }

  // ----- What the writes amount to -----------------------------------------------------------------------

  lemma {:induction false} CommittedConcat(shop: Shop, a: seq<WriteOp>, b: seq<WriteOp>)
    requires AllAccepted(a) && AllAccepted(b)
    ensures AllAccepted(a + b) && Committed(shop, a + b) == Committed(Committed(shop, a), b)
  {
    if b == [] {
      assert a + b == a;
    } else {
      assert (a + b)[..|a + b| - 1] == a + b[..|b| - 1];
      CommittedConcat(shop, a, b[..|b| - 1]);
    }
  }

  /** The first `k` rows are in the history, and no item has changed. */
  lemma {:induction false} RowsCommitted(shop: Shop, sales: SalesTable, applied: seq<Target>, k: nat)
    requires k <= |applied| && forall t :: t in applied ==> Sold(sales, t)
    ensures var now := Committed(shop, Rows(sales, applied)[..k]);
            && now.items == shop.items && |now.history| == |shop.history| + k
            && forall i :: 0 <= i < k ==> now.history[|shop.history| + i] == SaleHistory(sales, applied[i])
  {
    if k > 0 {
      var rows := Rows(sales, applied);
      RowsCommitted(shop, sales, applied, k - 1);
      RowAt(sales, applied, k - 1);
      assert rows[..k][..k - 1] == rows[..k - 1];
    }
  }

  lemma {:induction false} RowAt(sales: SalesTable, applied: seq<Target>, k: nat)
    requires k < |applied| && forall t :: t in applied ==> Sold(sales, t)
    ensures Rows(sales, applied)[k] == SaleRow(sales, applied[k])
  {
    var n := |applied| - 1;
    if k < n {
      RowAt(sales, applied[..n], k);
    }
  }

  function Updated(shop: Shop, sales: SalesTable, applied: seq<Target>, i: Id, touched: bool): (r: Item)
    requires (forall t :: t in applied ==> Sold(sales, t)) && i in shop.items
  {
    if touched then shop.items[i].(spacePrices := Store(Filled(PricesOf(shop, i), sales, applied, i)))
        else shop.items[i]
  }

  /** The updates of `touched` change the stored prices of those items only, and no history. */
  lemma {:induction false} UpdatesCommitted(shop: Shop, base: Shop, sales: SalesTable, applied: seq<Target>,
                                            touched: seq<Id>)
    requires (forall t :: t in applied ==> Sold(sales, t)) && base.items == shop.items
    ensures var now := Committed(base, Updates(shop, sales, applied, touched));
            && now.history == base.history && now.items.Keys == shop.items.Keys
            && (forall i :: i in shop.items ==> now.items[i] == Updated(shop, sales, applied, i, i in touched))
  {
    if touched != [] {
      var n := |touched| - 1;
      UpdatesCommitted(shop, base, sales, applied, touched[..n]);
      assert touched == touched[..n] + [touched[n]];
      var ws, before := Updates(shop, sales, applied, touched), Updates(shop, sales, applied, touched[..n]);
      assert ws[..n] == before;
    }
  }

  lemma {:induction false} UpdatesPrefix(shop: Shop, sales: SalesTable, applied: seq<Target>, touched: seq<Id>, m: nat)
    requires (forall t :: t in applied ==> Sold(sales, t)) && m <= |touched|
    ensures Updates(shop, sales, applied, touched)[..m] == Updates(shop, sales, applied, touched[..m])
  {
    var n := |touched| - 1;
    if m <= n {
      UpdatesPrefix(shop, sales, applied, touched[..n], m);
      assert touched[..n][..m] == touched[..m];
      assert Updates(shop, sales, applied, touched)[..m] == Updates(shop, sales, applied, touched[..n])[..m];
    } else {
      assert touched[..m] == touched;
    }
  }

  /** One product for each item. */
  ghost predicate OneProduct(cat: Catalogue, applied: seq<Target>) {
    forall t :: t in applied ==> OnlyProduct(cat, t.item) == Some(t.product)
  }

  lemma {:induction false} FilledAt(cat: Catalogue, prices: map<Id, Price>, sales: SalesTable, applied: seq<Target>,
                                    item: Id, product: Id, s: Id)
    requires (forall t :: t in applied ==> Sold(sales, t)) && OneProduct(cat, applied)
             && OnlyProduct(cat, item) == Some(product)
    ensures var r := Filled(prices, sales, applied, item);
            if Target(item, s, product) in applied then s in r && Some(r[s]) == SalePrice(sales, s, product)
            else (s in r <==> s in prices) && (s in r ==> r[s] == prices[s])
  {
    if applied != [] {
      var n := |applied| - 1;
      FilledAt(cat, prices, sales, applied[..n], item, product, s);
      assert applied == applied[..n] + [applied[n]];
    }
  }

  lemma {:induction false} FilledNone(prices: map<Id, Price>, sales: SalesTable, applied: seq<Target>, item: Id)
    requires (forall t :: t in applied ==> Sold(sales, t)) && forall t :: t in applied ==> t.item != item
    ensures Filled(prices, sales, applied, item) == prices
  {
    if applied != [] {
      var n := |applied| - 1;
      FilledNone(prices, sales, applied[..n], item);
    }
  }

  lemma {:induction false} TouchedAre(applied: seq<Target>, item: Id)
    ensures item in Touched(applied) <==> exists t :: t in applied && t.item == item
  {
    if applied != [] {
      var n := |applied| - 1;
      TouchedAre(applied[..n], item);
      assert applied == applied[..n] + [applied[n]];
    }
  }

  /** The prices of an item once everything is committed. */
  lemma {:induction false} PricesAfter(shop: Shop, sales: SalesTable, applied: seq<Target>, item: Id)
    requires (forall t :: t in applied ==> Sold(sales, t)) && item in shop.items
    ensures var now := Committed(shop, Writes(shop, sales, applied));
            && now.items.Keys == shop.items.Keys && now.items[item].spaceIds == shop.items[item].spaceIds
            && PricesOf(now, item) == Filled(PricesOf(shop, item), sales, applied, item)
  {
    var rows := Rows(sales, applied);
    CommittedConcat(shop, rows, Updates(shop, sales, applied, Touched(applied)));
    RowsCommitted(shop, sales, applied, |applied|);
    assert rows[..|applied|] == rows;
    UpdatesCommitted(shop, Committed(shop, rows), sales, applied, Touched(applied));
    TouchedAre(applied, item);
    if item in Touched(applied) {
      StoreReadsBack(Filled(PricesOf(shop, item), sales, applied, item));
    } else {
      FilledNone(PricesOf(shop, item), sales, applied, item);
    }
  }

  // ----- Stopping between two transactions ------------------------------------------------------------------

  /** Every row the backfill writes is in the history. */
  ghost predicate AllRowsIn(shop: Shop, now: Shop, sales: SalesTable, applied: seq<Target>)
    requires forall t :: t in applied ==> Sold(sales, t)
  {
    && |shop.history| + |applied| <= |now.history|
    && forall i :: 0 <= i < |applied| ==> now.history[|shop.history| + i] == SaleHistory(sales, applied[i])
  }

  /** The items whose update is committed have all their prices, the others their old ones. */
  ghost predicate AtStop(shop: Shop, sales: SalesTable, applied: seq<Target>, touched: seq<Id>, now: Shop)
    requires forall t :: t in applied ==> Sold(sales, t)
  {
    now.items.Keys == shop.items.Keys && forall i :: i in shop.items ==>
        now.items[i] == Updated(shop, sales, applied, i, i in touched)
  }

  lemma {:induction false} StopInRows(shop: Shop, sales: SalesTable, applied: seq<Target>, n: nat)
    requires (forall t :: t in applied ==> Sold(sales, t)) && n <= |applied|
    ensures var now := Committed(shop, Writes(shop, sales, applied)[..n]);
            now.items == shop.items
  {
    var rows, updates := Rows(sales, applied), Updates(shop, sales, applied, Touched(applied));
    RowsCommitted(shop, sales, applied, n);
    assert (rows + updates)[..n] == rows[..n];
  }

  /** After the rows the writes go on with the updates of the items touched first. */
  lemma {:induction false} StopAfterRows(shop: Shop, sales: SalesTable, applied: seq<Target>, n: nat)
    requires forall t :: t in applied ==> Sold(sales, t)
    requires |applied| < n <= |Writes(shop, sales, applied)|
    ensures n - |applied| <= |Touched(applied)|
    ensures Committed(shop, Writes(shop, sales, applied)[..n])
            == Committed(Committed(shop, Rows(sales, applied)),
                         Updates(shop, sales, applied, Touched(applied)[..n - |applied|]))
  {
    var rows, updates := Rows(sales, applied), Updates(shop, sales, applied, Touched(applied));
    var m := n - |rows|;
    assert (rows + updates)[..n] == rows + updates[..m];
    CommittedConcat(shop, rows, updates[..m]);
    UpdatesPrefix(shop, sales, applied, Touched(applied), m);
  }

  lemma {:induction false} StopInUpdates(shop: Shop, sales: SalesTable, applied: seq<Target>, n: nat)
    requires forall t :: t in applied ==> Sold(sales, t)
    requires |applied| < n <= |Writes(shop, sales, applied)|
    ensures var now := Committed(shop, Writes(shop, sales, applied)[..n]);
            AtStop(shop, sales, applied, Touched(applied)[..n - |applied|], now) && AllRowsIn(shop, now, sales, applied)
  {
    var rows := Rows(sales, applied);
    StopAfterRows(shop, sales, applied, n);
    assert rows[..|rows|] == rows;
    RowsCommitted(shop, sales, applied, |rows|);
    UpdatesCommitted(shop, Committed(shop, rows), sales, applied, Touched(applied)[..n - |applied|]);
  }

  /**
   Wherever the writes stop, either no item has changed, or all history rows are there: a committed
   price never lacks its rows.
   */
  lemma {:induction false} HistoryComesFirst(shop: Shop, sales: SalesTable, applied: seq<Target>, n: nat)
    requires forall t :: t in applied ==> Sold(sales, t)
    requires n <= |Writes(shop, sales, applied)|
    ensures var now := Committed(shop, Writes(shop, sales, applied)[..n]);
            && (n <= |applied| ==> now.items == shop.items)
            && (n > |applied| ==> AtStop(shop, sales, applied, Touched(applied)[..n - |applied|], now))
            && (now.items != shop.items ==> AllRowsIn(shop, now, sales, applied))
  {
    if n <= |applied| {
      StopInRows(shop, sales, applied, n);
    } else {
      StopInUpdates(shop, sales, applied, n);
    }
  }

  /** A price that has changed at a stop is that of a row already in the history. */
  lemma {:induction false} ChangedPriceHasItsRow(shop: Shop, cat: Catalogue, sales: SalesTable, applied: seq<Target>,
                                                 n: nat, item: Id, s: Id)
    requires (forall t :: t in applied ==> Sold(sales, t)) && OneProduct(cat, applied)
    requires n <= |Writes(shop, sales, applied)| && item in shop.items
    requires var now := Committed(shop, Writes(shop, sales, applied)[..n]);
             s in PricesOf(now, item)
                 && (s in PricesOf(shop, item) ==> PricesOf(shop, item)[s] != PricesOf(now, item)[s])
    ensures var now := Committed(shop, Writes(shop, sales, applied)[..n]);
            exists k :: |shop.history| <= k < |now.history| && now.history[k].item == item
                && now.history[k].space == Some(s)
                        && now.history[k].price == PricesOf(now, item)[s]
  {
    var now := Committed(shop, Writes(shop, sales, applied)[..n]);
    HistoryComesFirst(shop, sales, applied, n);
    assert now.items != shop.items;
    ItemAtStop(shop, sales, applied, n, item);
    TouchedAre(applied, item);
    var t :| t in applied && t.item == item;
    FilledAt(cat, PricesOf(shop, item), sales, applied, item, t.product, s);
    var i :| 0 <= i < |applied| && applied[i] == Target(item, s, t.product);
    assert now.history[|shop.history| + i] == SaleHistory(sales, applied[i]);
  }

  /** At a stop an item has its old prices, or all the prices the backfill gives it. */
  lemma {:induction false} ItemAtStop(shop: Shop, sales: SalesTable, applied: seq<Target>, n: nat, item: Id)
    requires forall t :: t in applied ==> Sold(sales, t)
    requires n <= |Writes(shop, sales, applied)| && item in shop.items
    ensures var now := Committed(shop, Writes(shop, sales, applied)[..n]);
            PricesOf(now, item) != PricesOf(shop, item) ==>
              item in Touched(applied) && PricesOf(now, item) == Filled(PricesOf(shop, item), sales, applied, item)
  {
    HistoryComesFirst(shop, sales, applied, n);
    StoreReadsBack(Filled(PricesOf(shop, item), sales, applied, item));
    if n > |applied| {
      var touched := Touched(applied);
      assert item in touched[..n - |applied|] ==> item in touched;
    }
  }

  // ----- Running it again --------------------------------------------------------------------------------------

  lemma {:induction false} TargetsIn(shop: Shop, cat: Catalogue, scan: seq<Id>, only: Option<Id>, t: Target)
    ensures t in Targets(shop, cat, scan, only) <==> t.item in scan && t in TargetsOf(shop, cat, t.item, only)
  {
    if scan != [] {
      var n := |scan| - 1;
      TargetsIn(shop, cat, scan[..n], only, t);
      TargetsOnItem(shop, cat, scan[n], only);
      assert scan == scan[..n] + [scan[n]];
    }
  }

  lemma {:induction false} TargetsOnItem(shop: Shop, cat: Catalogue, item: Id, only: Option<Id>)
    ensures forall t :: t in TargetsOf(shop, cat, item, only) ==>
              t.item == item && OnlyProduct(cat, item) == Some(t.product)
  {
    var product := OnlyProduct(cat, item);
    if product.Some? {
      TargetsOnAre(item, product.value, SpacesOf(SpaceIds(shop, item), only));
    }
  }

  lemma {:induction false} TargetsOnAre(item: Id, product: Id, spaces: seq<Id>)
    ensures forall t :: t in TargetsOn(item, product, spaces) ==> t.item == item && t.product == product
  {
    if spaces != [] {
      TargetsOnAre(item, product, spaces[..|spaces| - 1]);
    }
  }

  lemma {:induction false} KeptIn(shop: Shop, overwrite: bool, ts: seq<Target>, t: Target)
    ensures t in Kept(shop, overwrite, ts) <==> t in ts && Needs(shop, overwrite, t)
  {
    if ts != [] {
      KeptIn(shop, overwrite, ts[..|ts| - 1], t);
      assert ts == ts[..|ts| - 1] + [ts[|ts| - 1]];
    }
  }

  /** Exactly the targeted pairs that need a price and have a sale are applied. */
  lemma {:induction false} AppliedAre(shop: Shop, cat: Catalogue, sales: SalesTable, scan: seq<Id>, o: Options,
                                      t: Target)
    ensures t in AppliedPairs(shop, cat, sales, scan, o) <==>
              t.item in scan && t in TargetsOf(shop, cat, t.item, o.only) && Needs(shop, o.overwrite, t)
                  && Sold(sales, t)
  {
    var kept := Kept(shop, o.overwrite, Targets(shop, cat, scan, o.only));
    SoldOnlyIn(sales, Grouped(kept), t);
    GroupedIsPermutation(kept);
    assert t in Grouped(kept) <==> t in multiset(Grouped(kept));
    assert t in kept <==> t in multiset(kept);
    KeptIn(shop, o.overwrite, Targets(shop, cat, scan, o.only), t);
    TargetsIn(shop, cat, scan, o.only, t);
  }

  lemma {:induction false} AppliedOneProduct(shop: Shop, cat: Catalogue, sales: SalesTable, scan: seq<Id>, o: Options)
    ensures var applied := AppliedPairs(shop, cat, sales, scan, o);
            OneProduct(cat, applied) && forall t :: t in applied ==> Sold(sales, t)
  {
    forall t | t in AppliedPairs(shop, cat, sales, scan, o)
        ensures OnlyProduct(cat, t.item) == Some(t.product) && Sold(sales, t) {
      AppliedAre(shop, cat, sales, scan, o, t);
      TargetsOnItem(shop, cat, t.item, o.only);
    }
  }

  /** The database after a whole backfill. */
  function Backfilled(shop: Shop, cat: Catalogue, sales: SalesTable, scan: seq<Id>, o: Options): (r: Shop) {
    AllSold(sales, Grouped(Kept(shop, o.overwrite, Targets(shop, cat, scan, o.only))));
    Committed(shop, Writes(shop, sales, AppliedPairs(shop, cat, sales, scan, o)))
  }

  /** The price of a pair afterwards: the sale if it was applied, else what it was. */
  lemma {:induction false} PairAfter(shop: Shop, cat: Catalogue, sales: SalesTable, scan: seq<Id>, o: Options,
                                     t: Target)
    requires t.item in shop.items && OnlyProduct(cat, t.item) == Some(t.product)
    ensures var now, applied := Backfilled(shop, cat, sales, scan, o), AppliedPairs(shop, cat, sales, scan, o);
            && now.items.Keys == shop.items.Keys && SpaceIds(now, t.item) == SpaceIds(shop, t.item)
            && if t in applied then t.space in PricesOf(now, t.item)
                && Some(PricesOf(now, t.item)[t.space]) == SalePrice(sales, t.space, t.product)
               else (t.space in PricesOf(now, t.item) <==> t.space in PricesOf(shop, t.item))
                    && (t.space in PricesOf(now, t.item) ==>
                        PricesOf(now, t.item)[t.space] == PricesOf(shop, t.item)[t.space])
  {
    var applied := AppliedPairs(shop, cat, sales, scan, o);
    AppliedOneProduct(shop, cat, sales, scan, o);
    PricesAfter(shop, sales, applied, t.item);
    FilledAt(cat, PricesOf(shop, t.item), sales, applied, t.item, t.product, t.space);
    assert t == Target(t.item, t.space, t.product);
  }

  /** After a backfill, a second one that does not overwrite applies nothing. */
  lemma {:induction false} SecondAppliesNothing(shop: Shop, cat: Catalogue, sales: SalesTable, scan: seq<Id>,
                                                o: Options, scan2: seq<Id>)
    requires forall i :: i in scan2 ==> i in scan && i in shop.items
    ensures AppliedPairs(Backfilled(shop, cat, sales, scan, o), cat, sales, scan2, Options(o.only, false)) == []
  {
    var now := Backfilled(shop, cat, sales, scan, o);
    var again := AppliedPairs(now, cat, sales, scan2, Options(o.only, false));
    if again != [] {
      var t := again[0];
      AppliedAre(now, cat, sales, scan2, Options(o.only, false), t);
      TargetsOnItem(now, cat, t.item, o.only);
      PairAfter(shop, cat, sales, scan, o, t);
      AppliedAre(shop, cat, sales, scan, o, t);
    }
  }
}
