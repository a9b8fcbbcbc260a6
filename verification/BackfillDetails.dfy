/**
 What the backfill writes and counts, read off the tables, the mapped products and the two sales tables alone.
 */
module BackfillDetails {
  import opened Common
  import opened Prices
  import opened PriceStore
  import opened Backfill
  import opened BackfillRun
  import opened PriceDetails

  // ----- Which pairs, which sales ---------------------------------------------------------------------------------

  predicate OnlyMapped(cat: Catalogue, item: Id, product: Id) {
    (item, product) in cat.mapped && forall m :: m in cat.mapped && m.0 == item ==> m.1 == product
  }

  /** The item is looked at, has one mapped product, and is sold at the space. */
  predicate Targeted(shop: Shop, cat: Catalogue, scan: seq<Id>, only: Option<Id>, t: Target) {
    && t.item in scan && t.item in shop.items && t.space in shop.items[t.item].spaceIds
    && (only.Some? ==> t.space == only.value) && OnlyMapped(cat, t.item, t.product)
  }

  predicate PricedAbove(item: Item, s: Id, limit: real) {
    && item.spacePrices.Stored? && s in item.spacePrices.entries
    && match item.spacePrices.entries[s]
       case Entry(p) => p.ttc > limit
       case Legacy(ttc) => ttc > limit
       case Unusable => false
  }

  predicate Lacks(shop: Shop, overwrite: bool, t: Target)
    requires t.item in shop.items
  {
    overwrite || !PricedAbove(shop.items[t.item], t.space, 0.0)
  }

  /** The latest sale of the event asked for; or, where it has none, of any. */
  predicate LatestSale(sales: SalesTable, s: Id, product: Id, q: Price) {
    match sales.onEvent
    case None => (s, product) in sales.overall && sales.overall[(s, product)] == q
    case Some(onEvent) =>
      if (s, product) in onEvent then onEvent[(s, product)] == q
      else (s, product) in sales.overall && sales.overall[(s, product)] == q
  }

  /** The pair gets this price: it is targeted, lacks one, and its latest sale is above 0. */
  predicate Fills(shop: Shop, cat: Catalogue, sales: SalesTable, scan: seq<Id>, o: Options, t: Target, q: Price) {
    Targeted(shop, cat, scan, o.only, t) && Lacks(shop, o.overwrite, t)
    && LatestSale(sales, t.space, t.product, q) && q.ttc > 0.0
  }

  lemma {:induction false} OnlyProductIs(cat: Catalogue, item: Id)
    ensures forall p: Id :: OnlyProduct(cat, item) == Some(p) <==> OnlyMapped(cat, item, p)
  {
    ProductIs(cat, Request(item, None, None));
    forall p: Id ensures OnlyProduct(cat, item) == Some(p) <==> OnlyMapped(cat, item, p) {
      assert OnlyProduct(cat, item) == Some(p) <==> TheProduct(cat, Request(item, None, None), p);
    }
  }

  lemma {:induction false} SpacesAre(spaceIds: seq<Id>, only: Option<Id>, s: Id)
    ensures s in SpacesOf(spaceIds, only) <==> s in spaceIds && (only.Some? ==> s == only.value)
  {
    if spaceIds != [] {
      SpacesAre(spaceIds[..|spaceIds| - 1], only, s);
      assert spaceIds == spaceIds[..|spaceIds| - 1] + [spaceIds[|spaceIds| - 1]];
    }
  }

  lemma {:induction false} TargetsOnIn(item: Id, product: Id, spaces: seq<Id>, t: Target)
    ensures t in TargetsOn(item, product, spaces) <==> t.item == item && t.product == product && t.space in spaces
  {
    if spaces != [] {
      TargetsOnIn(item, product, spaces[..|spaces| - 1], t);
      assert spaces == spaces[..|spaces| - 1] + [spaces[|spaces| - 1]];
    }
  }

  lemma {:induction false} TargetsAre(shop: Shop, cat: Catalogue, scan: seq<Id>, only: Option<Id>, t: Target)
    ensures t.item in scan && t in TargetsOf(shop, cat, t.item, only) <==> Targeted(shop, cat, scan, only, t)
  {
    OnlyProductIs(cat, t.item);
    var product := OnlyProduct(cat, t.item);
    if product.Some? {
      var spaceIds := SpaceIds(shop, t.item);
      TargetsOnIn(t.item, product.value, SpacesOf(spaceIds, only), t);
      SpacesAre(spaceIds, only, t.space);
    }
  }

  lemma {:induction false} SaleIs(sales: SalesTable, t: Target)
    ensures forall q: Price :: LatestSale(sales, t.space, t.product, q) <==>
              SalePrice(sales, t.space, t.product).Some? && SalePrice(sales, t.space, t.product).value == q
  {
  }

  lemma {:induction false} NeedsIs(shop: Shop, overwrite: bool, t: Target)
    requires t.item in shop.items
    ensures Needs(shop, overwrite, t) <==> Lacks(shop, overwrite, t)
  {
  }

  lemma {:induction false} AppliedFill(shop: Shop, cat: Catalogue, sales: SalesTable, scan: seq<Id>, o: Options,
                                       t: Target)
    ensures t in AppliedPairs(shop, cat, sales, scan, o) ==>
              Sold(sales, t) && Fills(shop, cat, sales, scan, o, t, SalePrice(sales, t.space, t.product).value)
    ensures forall q: Price :: Fills(shop, cat, sales, scan, o, t, q) ==>
              t in AppliedPairs(shop, cat, sales, scan, o) && SalePrice(sales, t.space, t.product).value == q
  {
    AppliedAre(shop, cat, sales, scan, o, t);
    TargetsAre(shop, cat, scan, o.only, t);
    SaleIs(sales, t);
    if t.item in shop.items {
      NeedsIs(shop, o.overwrite, t);
    }
  }

  // ----- The prices afterwards ------------------------------------------------------------------------------------

  /**
   A targeted pair that lacks a price gets the sale of the event asked for, whatever the overall sales are; where the
   event has none, the latest of any. Only such pairs change, and only when the sale is above 0.
   */
  lemma {:induction false} PricesFilled(shop: Shop, cat: Catalogue, sales: SalesTable, scan: seq<Id>, o: Options)
    ensures var now := Backfilled(shop, cat, sales, scan, o);
            && now.items.Keys == shop.items.Keys
            && (forall i: Id :: i in shop.items ==> now.items[i].current == shop.items[i].current
                                                    && now.items[i].spaceIds == shop.items[i].spaceIds)
            && (forall t: Target, q: Price :: Fills(shop, cat, sales, scan, o, t, q) ==>
                  forall p: Price :: HasPrice(now.items[t.item], Some(t.space), p) <==> p == q)
            && (forall i: Id, s: Id :: i in shop.items && NotFilled(shop, cat, sales, scan, o, i, s) ==>
                  forall p: Price :: HasPrice(now.items[i], Some(s), p) <==> HasPrice(shop.items[i], Some(s), p))
  {
    var now := Backfilled(shop, cat, sales, scan, o);
    RestKept(shop, cat, sales, scan, o, now);
    forall t: Target, q: Price | Fills(shop, cat, sales, scan, o, t, q)
      ensures forall p: Price :: HasPrice(now.items[t.item], Some(t.space), p) <==> p == q
    {
      FilledHas(shop, cat, sales, scan, o, now, t, q);
    }
    forall i: Id, s: Id | i in shop.items && NotFilled(shop, cat, sales, scan, o, i, s)
      ensures forall p: Price :: HasPrice(now.items[i], Some(s), p) <==> HasPrice(shop.items[i], Some(s), p)
    {
      OtherHas(shop, cat, sales, scan, o, now, i, s);
    }
  }

  ghost predicate NotFilled(shop: Shop, cat: Catalogue, sales: SalesTable, scan: seq<Id>, o: Options, item: Id, s: Id) {
    forall product: Id, q: Price :: !Fills(shop, cat, sales, scan, o, Target(item, s, product), q)
  }

  lemma {:induction false} PriceRead(shop: Shop, item: Id, s: Id)
    requires item in shop.items
    ensures forall p: Price :: HasPrice(shop.items[item], Some(s), p) <==>
              s in PricesOf(shop, item) && PricesOf(shop, item)[s] == p
  {
    InForceIs(shop.items[item], Some(s));
  }

  lemma {:induction false} FilledHas(shop: Shop, cat: Catalogue, sales: SalesTable, scan: seq<Id>, o: Options,
                                     now: Shop, t: Target, q: Price)
    requires now == Backfilled(shop, cat, sales, scan, o) && Fills(shop, cat, sales, scan, o, t, q)
    ensures t.item in now.items && forall p: Price :: HasPrice(now.items[t.item], Some(t.space), p) <==> p == q
  {
    OnlyProductIs(cat, t.item);
    PairAfter(shop, cat, sales, scan, o, t);
    AppliedFill(shop, cat, sales, scan, o, t);
    PriceRead(now, t.item, t.space);
  }

  lemma {:induction false} OtherHas(shop: Shop, cat: Catalogue, sales: SalesTable, scan: seq<Id>, o: Options,
                                    now: Shop, item: Id, s: Id)
    requires now == Backfilled(shop, cat, sales, scan, o) && item in shop.items
    requires NotFilled(shop, cat, sales, scan, o, item, s)
    ensures item in now.items
    ensures forall p: Price :: HasPrice(now.items[item], Some(s), p) <==> HasPrice(shop.items[item], Some(s), p)
  {
    var product := OnlyProduct(cat, item);
    var applied := AppliedPairs(shop, cat, sales, scan, o);
    AppliedOneProduct(shop, cat, sales, scan, o);
    PricesAfter(shop, sales, applied, item);
    if product.Some? {
      var t := Target(item, s, product.value);
      PairAfter(shop, cat, sales, scan, o, t);
      AppliedFill(shop, cat, sales, scan, o, t);
    } else {
      FilledNone(PricesOf(shop, item), sales, applied, item);
    }
    PriceRead(now, item, s);
    PriceRead(shop, item, s);
  }

  lemma {:induction false} RestKept(shop: Shop, cat: Catalogue, sales: SalesTable, scan: seq<Id>, o: Options, now: Shop)
    requires now == Backfilled(shop, cat, sales, scan, o)
    ensures now.items.Keys == shop.items.Keys
    ensures forall i: Id :: i in shop.items ==> now.items[i].current == shop.items[i].current
                                                && now.items[i].spaceIds == shop.items[i].spaceIds
  {
    var applied := AppliedPairs(shop, cat, sales, scan, o);
    AppliedOneProduct(shop, cat, sales, scan, o);
    var rows := Rows(sales, applied);
    CommittedConcat(shop, rows, Updates(shop, sales, applied, Touched(applied)));
    RowsCommitted(shop, sales, applied, |applied|);
    assert rows[..|applied|] == rows;
    UpdatesCommitted(shop, Committed(shop, rows), sales, applied, Touched(applied));
  }

  // ----- The history afterwards -----------------------------------------------------------------------------------

  /** The row of a pair that has got this price. */
  predicate RowOf(row: HistoryRow, t: Target, q: Price) {
    row.item == t.item && row.space == Some(t.space) && row.price == q
    && row.source == Sales && row.product == t.product
  }

  ghost predicate FilledRow(shop: Shop, cat: Catalogue, sales: SalesTable, scan: seq<Id>, o: Options, row: HistoryRow) {
    exists t: Target, q: Price :: Fills(shop, cat, sales, scan, o, t, q) && RowOf(row, t, q)
  }

  /** The history since then: a row for each pair filled, at its sale, and no other. */
  ghost predicate FilledRows(shop: Shop, cat: Catalogue, sales: SalesTable, scan: seq<Id>, o: Options,
                             rows: seq<HistoryRow>) {
    && (forall k: nat :: k < |rows| ==> FilledRow(shop, cat, sales, scan, o, rows[k]))
    && (forall t: Target, q: Price :: Fills(shop, cat, sales, scan, o, t, q) ==>
          exists k: nat :: k < |rows| && RowOf(rows[k], t, q))
  }

  /** The history grows by the rows of the pairs filled, as many as the backfill reports. */
  lemma {:induction false} HistoryFilled(shop: Shop, cat: Catalogue, sales: SalesTable, scan: seq<Id>, o: Options)
    ensures var now, n := Backfilled(shop, cat, sales, scan, o), |shop.history|;
            && |now.history| == n + SummaryOf(shop, cat, sales, scan, o).applied && now.history[..n] == shop.history
            && FilledRows(shop, cat, sales, scan, o, now.history[n..])
  {
    var now, n := Backfilled(shop, cat, sales, scan, o), |shop.history|;
    var applied := AppliedPairs(shop, cat, sales, scan, o);
    AppliedCount(shop, cat, sales, scan, o);
    RowsAdded(shop, cat, sales, scan, o, now, applied);
    RowsFilled(shop, cat, sales, scan, o, now.history[n..], applied);
  }

  ghost predicate RowsOf(sales: SalesTable, rows: seq<HistoryRow>, applied: seq<Target>) {
    && |rows| == |applied|
    && forall i: nat :: i < |applied| ==>
         var q := SalePrice(sales, applied[i].space, applied[i].product);
         q.Some? && RowOf(rows[i], applied[i], q.value)
  }

  lemma {:induction false} RowsFilled(shop: Shop, cat: Catalogue, sales: SalesTable, scan: seq<Id>, o: Options,
                                      rows: seq<HistoryRow>, applied: seq<Target>)
    requires applied == AppliedPairs(shop, cat, sales, scan, o) && RowsOf(sales, rows, applied)
    ensures FilledRows(shop, cat, sales, scan, o, rows)
  {
    forall k: nat | k < |rows| ensures FilledRow(shop, cat, sales, scan, o, rows[k]) {
      RowFilled(shop, cat, sales, scan, o, rows[k], applied, k);
    }
    forall t: Target, q: Price | Fills(shop, cat, sales, scan, o, t, q)
      ensures exists k: nat :: k < |rows| && RowOf(rows[k], t, q)
    {
      var i := AppliedAt(shop, cat, sales, scan, o, applied, t, q);
      assert RowOf(rows[i], t, q);
    }
  }

  lemma {:induction false} RowFilled(shop: Shop, cat: Catalogue, sales: SalesTable, scan: seq<Id>, o: Options,
                                     row: HistoryRow, applied: seq<Target>, i: nat)
    requires applied == AppliedPairs(shop, cat, sales, scan, o) && i < |applied|
    requires SalePrice(sales, applied[i].space, applied[i].product).Some?
    requires RowOf(row, applied[i], SalePrice(sales, applied[i].space, applied[i].product).value)
    ensures FilledRow(shop, cat, sales, scan, o, row)
  {
    AppliedFill(shop, cat, sales, scan, o, applied[i]);
  }

  lemma {:induction false} AppliedAt(shop: Shop, cat: Catalogue, sales: SalesTable, scan: seq<Id>, o: Options,
                                     applied: seq<Target>, t: Target, q: Price) returns (i: nat)
    requires applied == AppliedPairs(shop, cat, sales, scan, o) && Fills(shop, cat, sales, scan, o, t, q)
    ensures i < |applied| && applied[i] == t
    ensures SalePrice(sales, t.space, t.product) == Some(q)
  {
    AppliedFill(shop, cat, sales, scan, o, t);
    SaleIs(sales, t);
    i :| i < |applied| && applied[i] == t;
  }

  lemma {:induction false} RowsAdded(shop: Shop, cat: Catalogue, sales: SalesTable, scan: seq<Id>, o: Options,
                                     now: Shop, applied: seq<Target>)
    requires now == Backfilled(shop, cat, sales, scan, o) && applied == AppliedPairs(shop, cat, sales, scan, o)
    ensures |now.history| == |shop.history| + |applied| && now.history[..|shop.history|] == shop.history
    ensures RowsOf(sales, now.history[|shop.history|..], applied)
  {
    AppliedOneProduct(shop, cat, sales, scan, o);
    var mid := Committed(shop, Rows(sales, applied));
    RowsOnly(shop, sales, applied, mid);
    CommittedConcat(shop, Rows(sales, applied), Updates(shop, sales, applied, Touched(applied)));
    assert mid.items == shop.items;
    UpdatesCommitted(shop, mid, sales, applied, Touched(applied));
  }

  lemma {:induction false} RowsOnly(shop: Shop, sales: SalesTable, applied: seq<Target>, mid: Shop)
    requires (forall t :: t in applied ==> Sold(sales, t)) && mid == Committed(shop, Rows(sales, applied))
    ensures mid.items == shop.items
    ensures |mid.history| == |shop.history| + |applied| && mid.history[..|shop.history|] == shop.history
    ensures RowsOf(sales, mid.history[|shop.history|..], applied)
  {
    var rows, n := Rows(sales, applied), |shop.history|;
    assert rows[..|applied|] == rows;
    RowsCommitted(shop, sales, applied, |applied|);
    HistoryGrows(shop, rows);
    forall i: nat | i < |applied|
      ensures var q := SalePrice(sales, applied[i].space, applied[i].product);
              q.Some? && RowOf(mid.history[n..][i], applied[i], q.value)
    {
      assert Sold(sales, applied[i]) && mid.history[n..][i] == mid.history[n + i];
    }
  }

  lemma {:induction false} HistoryGrows(shop: Shop, ws: seq<WriteOp>)
    requires AllAccepted(ws)
    ensures var now := Committed(shop, ws).history;
            |shop.history| <= |now| && now[..|shop.history|] == shop.history
  {
    if ws != [] {
      HistoryGrows(shop, ws[..|ws| - 1]);
    }
  }

  // ----- The counters ---------------------------------------------------------------------------------------------

  /** What becomes of the pair of an item and one of its spaces. */
  ghost predicate Becomes(shop: Shop, cat: Catalogue, sales: SalesTable, o: Options, item: Id, s: Id, c: Class)
    requires item in shop.items
  {
    exists product: Id :: OnlyMapped(cat, item, product) && (o.only.Some? ==> s == o.only.value)
                          && PairIs(shop, sales, o.overwrite, Target(item, s, product), c)
  }

  /** The sale is above 0. One at or below 0 counts as none, and stands in the way of an older one. */
  predicate Sells(sales: SalesTable, s: Id, product: Id) {
    match sales.onEvent
    case None => (s, product) in sales.overall && sales.overall[(s, product)].ttc > 0.0
    case Some(onEvent) =>
      if (s, product) in onEvent then onEvent[(s, product)].ttc > 0.0
      else (s, product) in sales.overall && sales.overall[(s, product)].ttc > 0.0
  }

  predicate PairIs(shop: Shop, sales: SalesTable, overwrite: bool, t: Target, c: Class)
    requires t.item in shop.items
  {
    match c
    case AlreadyPriced => !Lacks(shop, overwrite, t)
    case NoSales => Lacks(shop, overwrite, t) && !Sells(sales, t.space, t.product)
    case Applied => Lacks(shop, overwrite, t) && Sells(sales, t.space, t.product)
  }

  /** The places, by item looked at and space of the item, whose pair ends so. */
  ghost function Places(shop: Shop, cat: Catalogue, sales: SalesTable, scan: seq<Id>, o: Options, c: Class)
      : (ps: set<(nat, nat)>)
    requires forall i :: i in scan ==> i in shop.items
  {
    set i: nat, j: nat | i < |scan| && j < |shop.items[scan[i]].spaceIds|
                         && Becomes(shop, cat, sales, o, scan[i], shop.items[scan[i]].spaceIds[j], c) :: (i, j)
  }

  ghost function PlacesOf(shop: Shop, cat: Catalogue, sales: SalesTable, o: Options, item: Id, spaceIds: seq<Id>,
                          c: Class) : (ps: set<nat>)
    requires item in shop.items
  {
    set j: nat | j < |spaceIds| && Becomes(shop, cat, sales, o, item, spaceIds[j], c)
  }

  lemma {:induction false} PairIsClass(shop: Shop, sales: SalesTable, overwrite: bool, t: Target, c: Class)
    requires t.item in shop.items
    ensures ClassOf(shop, overwrite, sales, t) == c <==> PairIs(shop, sales, overwrite, t, c)
  {
    NeedsIs(shop, overwrite, t);
  }

  lemma {:induction false} BecomesIs(shop: Shop, cat: Catalogue, sales: SalesTable, o: Options, item: Id, s: Id,
                                     c: Class)
    requires item in shop.items
    ensures var product := OnlyProduct(cat, item);
            Becomes(shop, cat, sales, o, item, s, c) <==>
              product.Some? && (o.only.None? || s == o.only.value)
              && ClassOf(shop, o.overwrite, sales, Target(item, s, product.value)) == c
  {
    OnlyProductIs(cat, item);
    forall product: Id ensures
      PairIs(shop, sales, o.overwrite, Target(item, s, product), c)
      <==> ClassOf(shop, o.overwrite, sales, Target(item, s, product)) == c
    {
      PairIsClass(shop, sales, o.overwrite, Target(item, s, product), c);
    }
  }

  lemma {:induction false} CountConcat(shop: Shop, overwrite: bool, sales: SalesTable, a: seq<Target>, b: seq<Target>,
                                       c: Class)
    ensures CountClass(shop, overwrite, sales, a + b, c)
            == CountClass(shop, overwrite, sales, a, c) + CountClass(shop, overwrite, sales, b, c)
  {
    if b == [] {
      assert a + b == a;
    } else {
      assert (a + b)[..|a + b| - 1] == a + b[..|b| - 1];
      CountConcat(shop, overwrite, sales, a, b[..|b| - 1], c);
    }
  }

  /** The count over the spaces of one item. */
  lemma {:induction false} ItemCounted(shop: Shop, cat: Catalogue, sales: SalesTable, o: Options, item: Id, product: Id,
                                       spaceIds: seq<Id>, c: Class)
    requires item in shop.items && OnlyProduct(cat, item) == Some(product)
    ensures |PlacesOf(shop, cat, sales, o, item, spaceIds, c)|
            == CountClass(shop, o.overwrite, sales, TargetsOn(item, product, SpacesOf(spaceIds, o.only)), c)
  {
    if spaceIds == [] {
      assert PlacesOf(shop, cat, sales, o, item, spaceIds, c) == {};
    } else {
      var n := |spaceIds| - 1;
      ItemCounted(shop, cat, sales, o, item, product, spaceIds[..n], c);
      OneMorePlace(shop, cat, sales, o, item, spaceIds, c);
      BecomesIs(shop, cat, sales, o, item, spaceIds[n], c);
      OneMoreTarget(shop, o, sales, item, product, spaceIds, c);
    }
  }

  lemma {:induction false} OneMoreTarget(shop: Shop, o: Options, sales: SalesTable, item: Id, product: Id,
                                         spaceIds: seq<Id>, c: Class)
    requires spaceIds != []
    ensures var n := |spaceIds| - 1;
            CountClass(shop, o.overwrite, sales, TargetsOn(item, product, SpacesOf(spaceIds, o.only)), c)
            == CountClass(shop, o.overwrite, sales, TargetsOn(item, product, SpacesOf(spaceIds[..n], o.only)), c)
               + if (o.only.None? || spaceIds[n] == o.only.value)
                    && ClassOf(shop, o.overwrite, sales, Target(item, spaceIds[n], product)) == c then 1 else 0
  {
    var n := |spaceIds| - 1;
    var before := SpacesOf(spaceIds[..n], o.only);
    var ts := TargetsOn(item, product, before);
    if o.only.None? || spaceIds[n] == o.only.value {
      assert (before + [spaceIds[n]])[..|before|] == before;
      assert (ts + [Target(item, spaceIds[n], product)])[..|ts|] == ts;
    } else {
      assert before + [] == before;
    }
  }

  lemma {:induction false} OneMorePlace(shop: Shop, cat: Catalogue, sales: SalesTable, o: Options, item: Id,
                                        spaceIds: seq<Id>, c: Class)
    requires item in shop.items && spaceIds != []
    ensures var n := |spaceIds| - 1;
            |PlacesOf(shop, cat, sales, o, item, spaceIds, c)|
            == |PlacesOf(shop, cat, sales, o, item, spaceIds[..n], c)|
              + if Becomes(shop, cat, sales, o, item, spaceIds[n], c) then 1 else 0
  {
    var n := |spaceIds| - 1;
    var before := PlacesOf(shop, cat, sales, o, item, spaceIds[..n], c);
    OneMore(before, PlacesOf(shop, cat, sales, o, item, spaceIds, c), n,
            Becomes(shop, cat, sales, o, item, spaceIds[n], c));
  }

  lemma {:induction false} OneMore(before: set<nat>, after: set<nat>, n: nat, more: bool)
    requires n !in before && forall j: nat :: j in after <==> j in before || (more && j == n)
    ensures |after| == |before| + if more then 1 else 0
  {
    assert after == if more then before + {n} else before;
  }

  /** The places of row `n`. */
  ghost function RowPlaces(n: nat, js: set<nat>): (ps: set<(nat, nat)>) {
    set j | j in js :: (n, j)
  }

  lemma {:induction false} RowPlacesSize(n: nat, js: set<nat>)
    ensures |RowPlaces(n, js)| == |js|
  {
    if js != {} {
      var j :| j in js;
      RowPlacesSize(n, js - {j});
      assert RowPlaces(n, js) == RowPlaces(n, js - {j}) + {(n, j)};
    } else {
      assert RowPlaces(n, js) == {};
    }
  }

  lemma {:induction false} OneMoreItem(shop: Shop, cat: Catalogue, sales: SalesTable, scan: seq<Id>, o: Options,
                                       c: Class)
    requires scan != [] && forall i :: i in scan ==> i in shop.items
    ensures forall i :: i in scan[..|scan| - 1] ==> i in shop.items
    ensures var n := |scan| - 1;
            |Places(shop, cat, sales, scan, o, c)| == |Places(shop, cat, sales, scan[..n], o, c)|
              + |PlacesOf(shop, cat, sales, o, scan[n], shop.items[scan[n]].spaceIds, c)|
  {
    var n := |scan| - 1;
    var before, js := Places(shop, cat, sales, scan[..n], o, c),
        PlacesOf(shop, cat, sales, o, scan[n], shop.items[scan[n]].spaceIds, c);
    assert Places(shop, cat, sales, scan, o, c) == before + RowPlaces(n, js);
    assert before !! RowPlaces(n, js);
    RowPlacesSize(n, js);
  }

  /** Each counter is the number of places it says it counts. */
  lemma {:induction false} PlacesCounted(shop: Shop, cat: Catalogue, sales: SalesTable, scan: seq<Id>, o: Options,
                                         c: Class)
    requires forall i :: i in scan ==> i in shop.items
    ensures |Places(shop, cat, sales, scan, o, c)|
            == CountClass(shop, o.overwrite, sales, Targets(shop, cat, scan, o.only), c)
  {
    if scan == [] {
      assert Places(shop, cat, sales, scan, o, c) == {};
    } else {
      var n := |scan| - 1;
      OneMoreItem(shop, cat, sales, scan, o, c);
      PlacesCounted(shop, cat, sales, scan[..n], o, c);
      CountConcat(shop, o.overwrite, sales, Targets(shop, cat, scan[..n], o.only),
                  TargetsOf(shop, cat, scan[n], o.only), c);
      LastItemCounted(shop, cat, sales, o, scan[n], c);
    }
  }

  lemma {:induction false} LastItemCounted(shop: Shop, cat: Catalogue, sales: SalesTable, o: Options, item: Id,
                                           c: Class)
    requires item in shop.items
    ensures |PlacesOf(shop, cat, sales, o, item, shop.items[item].spaceIds, c)|
            == CountClass(shop, o.overwrite, sales, TargetsOf(shop, cat, item, o.only), c)
  {
    var product, spaceIds := OnlyProduct(cat, item), shop.items[item].spaceIds;
    if product.Some? {
      ItemCounted(shop, cat, sales, o, item, product.value, spaceIds, c);
    } else {
      forall j: nat | j < |spaceIds| ensures !Becomes(shop, cat, sales, o, item, spaceIds[j], c) {
        BecomesIs(shop, cat, sales, o, item, spaceIds[j], c);
      }
      assert PlacesOf(shop, cat, sales, o, item, spaceIds, c) == {};
    }
  }

  ghost predicate Ambiguous(cat: Catalogue, item: Id) {
    forall product: Id :: !OnlyMapped(cat, item, product)
  }

  /** The item has one mapped product, and none of the spaces asked for. */
  ghost predicate Homeless(shop: Shop, cat: Catalogue, only: Option<Id>, item: Id)
    requires item in shop.items
  {
    !Ambiguous(cat, item) && forall s: Id :: s in shop.items[item].spaceIds ==> only.Some? && s != only.value
  }

  ghost function AmbiguousAt(cat: Catalogue, scan: seq<Id>): (at: set<nat>) {
    set i: nat | i < |scan| && Ambiguous(cat, scan[i])
  }

  ghost function HomelessAt(shop: Shop, cat: Catalogue, only: Option<Id>, scan: seq<Id>): (at: set<nat>)
    requires forall i :: i in scan ==> i in shop.items
  {
    set i: nat | i < |scan| && Homeless(shop, cat, only, scan[i])
  }

  lemma {:induction false} AmbiguousCounted(shop: Shop, cat: Catalogue, scan: seq<Id>)
    requires forall i :: i in scan ==> i in shop.items
    ensures CountAmbiguous(cat, scan) == |AmbiguousAt(cat, scan)|
  {
    if scan == [] {
      assert AmbiguousAt(cat, scan) == {};
    } else {
      var n := |scan| - 1;
      AmbiguousCounted(shop, cat, scan[..n]);
      ItemIs(shop, cat, None, scan[n]);
      OneMore(AmbiguousAt(cat, scan[..n]), AmbiguousAt(cat, scan), n, Ambiguous(cat, scan[n]));
    }
  }

  lemma {:induction false} HomelessCounted(shop: Shop, cat: Catalogue, scan: seq<Id>, only: Option<Id>)
    requires forall i :: i in scan ==> i in shop.items
    ensures CountNoSpace(shop, cat, scan, only) == |HomelessAt(shop, cat, only, scan)|
  {
    if scan == [] {
      assert HomelessAt(shop, cat, only, scan) == {};
    } else {
      var n := |scan| - 1;
      HomelessCounted(shop, cat, scan[..n], only);
      ItemIs(shop, cat, only, scan[n]);
      OneMore(HomelessAt(shop, cat, only, scan[..n]), HomelessAt(shop, cat, only, scan), n,
              Homeless(shop, cat, only, scan[n]));
    }
  }

  lemma {:induction false} ItemIs(shop: Shop, cat: Catalogue, only: Option<Id>, item: Id)
    requires item in shop.items
    ensures Ambiguous(cat, item) <==> OnlyProduct(cat, item).None?
    ensures Homeless(shop, cat, only, item) <==>
              OnlyProduct(cat, item).Some? && SpacesOf(SpaceIds(shop, item), only) == []
  {
    OnlyProductIs(cat, item);
    var spaces := SpacesOf(SpaceIds(shop, item), only);
    forall s: Id ensures s in spaces <==> s in shop.items[item].spaceIds && (only.Some? ==> s == only.value) {
      SpacesAre(SpaceIds(shop, item), only, s);
    }
    assert spaces != [] ==> spaces[0] in spaces;
    if OnlyProduct(cat, item).Some? {
      assert OnlyMapped(cat, item, OnlyProduct(cat, item).value);
    }
  }

  /**
   What the backfill reports: the places already priced, those without a sale above 0, and those priced; the items
   whose product is not one, and those with none of the spaces asked for.
   */
  lemma {:induction false} SummaryCounts(shop: Shop, cat: Catalogue, sales: SalesTable, scan: seq<Id>, o: Options)
    requires forall i :: i in scan ==> i in shop.items
    ensures var s := SummaryOf(shop, cat, sales, scan, o);
            && s.scanned == |scan|
            && s.alreadyPriced == |Places(shop, cat, sales, scan, o, AlreadyPriced)|
            && s.noSales == |Places(shop, cat, sales, scan, o, NoSales)|
            && s.applied == |Places(shop, cat, sales, scan, o, Class.Applied)|
            && s.ambiguous == |AmbiguousAt(cat, scan)|
            && s.noSpace == |HomelessAt(shop, cat, o.only, scan)|
  {
    PlacesCounted(shop, cat, sales, scan, o, AlreadyPriced);
    PlacesCounted(shop, cat, sales, scan, o, NoSales);
    PlacesCounted(shop, cat, sales, scan, o, Class.Applied);
    AmbiguousCounted(shop, cat, scan);
    HomelessCounted(shop, cat, scan, o.only);
  }

  /** The items changed are as many as those with a pair filled. */
  lemma {:induction false} TouchedCounts(shop: Shop, cat: Catalogue, sales: SalesTable, scan: seq<Id>, o: Options)
    ensures SummaryOf(shop, cat, sales, scan, o).touched
            == |set i: Id | i in shop.items && ItemFilled(shop, cat, sales, scan, o, i)|
  {
    var applied := AppliedPairs(shop, cat, sales, scan, o);
    var filled := set i: Id | i in shop.items && ItemFilled(shop, cat, sales, scan, o, i);
    forall i: Id ensures i in Touched(applied) <==> i in filled {
      TouchedFilled(shop, cat, sales, scan, o, applied, i);
    }
    TouchedOnce(applied);
    DistinctSize(Touched(applied), filled);
  }

  ghost predicate ItemFilled(shop: Shop, cat: Catalogue, sales: SalesTable, scan: seq<Id>, o: Options, i: Id) {
    exists t: Target, q: Price :: t.item == i && Fills(shop, cat, sales, scan, o, t, q)
  }

  lemma {:induction false} TouchedFilled(shop: Shop, cat: Catalogue, sales: SalesTable, scan: seq<Id>, o: Options,
                                         applied: seq<Target>, i: Id)
    requires applied == AppliedPairs(shop, cat, sales, scan, o)
    ensures i in Touched(applied) <==> i in shop.items && ItemFilled(shop, cat, sales, scan, o, i)
  {
    TouchedAre(applied, i);
    forall t: Target ensures t in applied <==> exists q: Price :: Fills(shop, cat, sales, scan, o, t, q) {
      AppliedFill(shop, cat, sales, scan, o, t);
    }
  }

  lemma {:induction false} TouchedOnce(applied: seq<Target>)
    ensures Distinct(Touched(applied))
  {
    if applied != [] {
      TouchedOnce(applied[..|applied| - 1]);
    }
  }

  lemma {:induction false} DistinctSize(s: seq<Id>, all: set<Id>)
    requires Distinct(s) && forall i: Id :: i in s <==> i in all
    ensures |s| == |all|
  {
    if s == [] {
      assert all == {};
    } else {
      var n := |s| - 1;
      assert s == s[..n] + [s[n]];
      DistinctSize(s[..n], all - {s[n]});
    }
  }
}
