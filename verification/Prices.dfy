/**
 Applying Weezevent prices to menu items (menu-items.service.ts, `applyWeezeventPrice` and
 `applyWeezeventPricesBulk`), and what the bulk form keeps of applying the entries one by one.

 The price a product can be given is an answer of the pricing service: a table read, not computed, here.
 */
module Prices {
  import opened Common
  import opened Columns

  type Id = nat

  datatype Price = Price(ttc: real, vat: Option<real>)

  // ----- The columns prices are stored in ---------------------------------------------------------------

  function Round2(x: real): (r: real) {
    Nearest(100.0 * x) as real / 100.0
  }

  function Rounded(p: Price): (r: Price) {
    Price(Round2(p.ttc), if p.vat.Some? then Some(Round2(p.vat.value)) else None)
  }

  /** Ten digits for the price and five for the rate, two of them decimals; the database refuses others. */
  predicate Fits(p: Price) {
    var r := Rounded(p);
    Below(r.ttc, 100000000.0) && (r.vat.Some? ==> Below(r.vat.value, 1000.0))
  }

  /** What a price column can hold. */
  type ColumnPrice = p: Price | Rounded(p) == p && Fits(p) witness Price(0.0, None)

  lemma {:induction false} Round2Twice(x: real)
    ensures Round2(Round2(x)) == Round2(x)
  {
    var k := Nearest(100.0 * x);
    assert 100.0 * (k as real / 100.0) == k as real;
    NearestOf(k);
  }

  function InColumn(p: Price): (r: ColumnPrice)
    requires Fits(p)
    ensures r == Rounded(p)
  {
    Round2Twice(p.ttc);
    if p.vat.Some? then Round2Twice(p.vat.value); Rounded(p) else Rounded(p)
  }

  /** A stored price of one space: the current form, the legacy number, or something unusable. */
  datatype RawPrice = Entry(price: Price) | Legacy(ttc: real) | Unusable
  /** The stored JSON; anything but an object reads as no prices. */
  datatype RawPrices = Stored(entries: map<Id, RawPrice>) | NoMap

  datatype Item = Item(current: ColumnPrice, spacePrices: RawPrices, spaceIds: seq<Id>)
  datatype Source = Catalog | Sales
  datatype Quote = Quote(price: Price, source: Source)
  datatype HistoryRow = HistoryRow(item: Id, space: Option<Id>, price: ColumnPrice, source: Source, product: Id)

  /** The two tables written. */
  datatype Shop = Shop(items: map<Id, Item>, history: seq<HistoryRow>)

  /** What is only read: mapped (item, product) pairs, the products, and the price each product would be given. */
  datatype Catalogue = Catalogue(mapped: set<(Id, Id)>, products: set<Id>, quotes: map<Id, Quote>)

  datatype Request = Request(item: Id, product: Option<Id>, override: Option<Price>)
  datatype Pair = Pair(item: Id, product: Id, override: Option<Price>)
  // `Refused`: the price does not fit its column, so that its transaction fails.
  datatype Status = Failed | Unchanged | Changed | Refused
  datatype Outcome = Outcome(item: Id, status: Status)

  // ----- Normalising stored prices -----------------------------------------------------------------

  function NormalizePrice(raw: RawPrice): (p: Option<Price>) {
    match raw
    case Entry(p) => Some(p)
    case Legacy(ttc) => Some(Price(ttc, None))
    case Unusable => None
  }

  function Normalize(raw: RawPrices): (prices: map<Id, Price>) {
    match raw
    case NoMap => map[]
    case Stored(entries) => map s | s in entries && NormalizePrice(entries[s]).Some? :: NormalizePrice(entries[s]).value
  }

  function Store(prices: map<Id, Price>): (raw: RawPrices) {
    Stored(map s | s in prices :: Entry(prices[s]))
  }

  /** What was written reads back; so normalising twice is normalising once. */
  lemma {:induction false} StoreReadsBack(prices: map<Id, Price>)
    ensures Normalize(Store(prices)) == prices
  {
  }

  // ----- One by one -----------------------------------------------------------------------------------

  function ProductsOf(cat: Catalogue, item: Id): (s: set<Id>) {
    set m | m in cat.mapped && m.0 == item :: m.1
  }

  /** The product named, if it is mapped to the item; else the item's only product. */
  function MappedProduct(cat: Catalogue, item: Id, product: Option<Id>): (p: Option<Id>) {
    if product.Some? then if (item, product.value) in cat.mapped then product else None
    else if p :| p in ProductsOf(cat, item) && ProductsOf(cat, item) == {p} then Some(p) else None
  }

  /** The price shown to the user when there is one, else what the pricing service answers. */
  function Inherited(cat: Catalogue, p: Pair): (q: Option<Quote>) {
    if p.override.Some? then Some(Quote(p.override.value, Catalog))
    else if p.product in cat.quotes then Some(cat.quotes[p.product]) else None
  }

  /** The price in force: of the space, or the item's own. */
  function Current(item: Item, space: Option<Id>): (p: Option<Price>) {
    if space.None? then Some(item.current)
    else if space.value in Normalize(item.spacePrices) then Some(Normalize(item.spacePrices)[space.value]) else None
  }

  /** A space's price is stored as JSON; the item's own, and those of the history, in columns. */
  function Priced(item: Item, space: Option<Id>, price: Price): (r: Item)
    requires Fits(price)
  {
    if space.None? then item.(current := InColumn(price))
    else item.(spacePrices := Store(Normalize(item.spacePrices)[space.value := price]))
  }

  function Row(p: Pair, space: Option<Id>, q: Quote): (r: HistoryRow)
    requires Fits(q.price)
  {
    HistoryRow(p.item, space, InColumn(q.price), q.source, p.product)
  }

  /** Writes the price and its history row. */
  function Write(shop: Shop, p: Pair, space: Option<Id>, q: Quote): (r: Shop)
    requires p.item in shop.items && Fits(q.price)
  {
    Shop(shop.items[p.item := Priced(shop.items[p.item], space, q.price)], shop.history + [Row(p, space, q)])
  }

  datatype Step = Step(shop: Shop, status: Status)

  predicate Applicable(shop: Shop, cat: Catalogue, p: Pair) {
    p.item in shop.items && p.product in cat.products && Inherited(cat, p).Some?
  }

  /** One entry on `shop`, unchanged when the price is the one in force in `seen`. */
  function ApplyPair(seen: Shop, shop: Shop, cat: Catalogue, space: Option<Id>, p: Pair): (s: Step)
    requires seen.items.Keys == shop.items.Keys
    ensures s.shop.items.Keys == shop.items.Keys
  {
    if !Applicable(shop, cat, p) then Step(shop, Failed)
    else
      var q := Inherited(cat, p).value;
      if Current(seen.items[p.item], space) == Some(q.price) then Step(shop, Unchanged)
      else if !Fits(q.price) then Step(shop, Refused)
      else Step(Write(shop, p, space, q), Changed)
  }

  function Apply(shop: Shop, cat: Catalogue, space: Option<Id>, r: Request): (s: Step)
    ensures s.shop.items.Keys == shop.items.Keys
  {
    var product := MappedProduct(cat, r.item, r.product);
    if product.None? then Step(shop, Failed)
        else ApplyPair(shop, shop, cat, space, Pair(r.item, product.value, r.override))
  }

  datatype Ran = Ran(shop: Shop, outcomes: seq<Outcome>)

  function ApplyEach(shop: Shop, cat: Catalogue, space: Option<Id>, rs: seq<Request>): (r: Ran)
    ensures |r.outcomes| == |rs| && r.shop.items.Keys == shop.items.Keys
  {
    if rs == [] then Ran(shop, [])
    else
      var n := |rs| - 1;
      var before := ApplyEach(shop, cat, space, rs[..n]);
      var s := Apply(before.shop, cat, space, rs[n]);
      Ran(s.shop, before.outcomes + [Outcome(rs[n].item, s.status)])
  }

  function CountChanged(os: seq<Outcome>): (n: nat) {
    if os == [] then 0 else CountChanged(os[..|os| - 1]) + if os[|os| - 1].status.Changed? then 1 else 0
  }

  // ----- In bulk ----------------------------------------------------------------------------------------

  /** The requests whose product is found, with it. */
  function PairsOf(cat: Catalogue, rs: seq<Request>): (ps: seq<Pair>) {
    if rs == [] then []
    else PairsOf(cat, rs[..|rs| - 1]) + PairOf(cat, rs[|rs| - 1])
  }

  function PairOf(cat: Catalogue, r: Request): (ps: seq<Pair>) {
    var product := MappedProduct(cat, r.item, r.product);
    if product.Some? then [Pair(r.item, product.value, r.override)] else []
  }

  function Unmapped(cat: Catalogue, rs: seq<Request>): (os: seq<Outcome>) {
    if rs == [] then []
    else Unmapped(cat, rs[..|rs| - 1]) + UnmappedOf(cat, rs[|rs| - 1])
  }

  function UnmappedOf(cat: Catalogue, r: Request): (os: seq<Outcome>) {
    if MappedProduct(cat, r.item, r.product).None? then [Outcome(r.item, Failed)] else []
  }

  /**
   The entries in order. Each is compared with the prices the entries before it left; or, when `stale`,
   with those read at the start, as the bulk form does without a space.
   */
  function ApplyPairs(shop: Shop, cat: Catalogue, space: Option<Id>, ps: seq<Pair>, stale: bool): (r: Ran)
    ensures |r.outcomes| == |ps| && r.shop.items.Keys == shop.items.Keys
  {
    if ps == [] then Ran(shop, [])
    else
      var n := |ps| - 1;
      var before := ApplyPairs(shop, cat, space, ps[..n], stale);
      var s := ApplyPair(if stale then shop else before.shop, before.shop, cat, space, ps[n]);
      Ran(s.shop, before.outcomes + [Outcome(ps[n].item, s.status)])
  }

  lemma {:induction false} PairsSnoc(shop: Shop, cat: Catalogue, space: Option<Id>, ps: seq<Pair>, p: Pair, stale: bool)
    ensures var before := ApplyPairs(shop, cat, space, ps, stale);
            var s := ApplyPair(if stale then shop else before.shop, before.shop, cat, space, p);
            ApplyPairs(shop, cat, space, ps + [p], stale) == Ran(s.shop, before.outcomes + [Outcome(p.item, s.status)])
  {
  }

  lemma {:induction false} CountSnoc(os: seq<Outcome>, o: Outcome)
    ensures CountChanged(os + [o]) == CountChanged(os) + if o.status.Changed? then 1 else 0
  {
  }

  /** The same tables, the same count of changes, and the same outcomes in some order. */
  ghost predicate SameEffect(one: Ran, bulk: Ran, unmapped: seq<Outcome>) {
    && one.shop == bulk.shop
    && CountChanged(one.outcomes) == CountChanged(bulk.outcomes)
    && multiset(one.outcomes) == multiset(unmapped + bulk.outcomes)
  }

  lemma {:induction false} BothGo(one: Ran, bulk: Ran, unmapped: seq<Outcome>, after: Shop, o: Outcome)
    requires SameEffect(one, bulk, unmapped)
    ensures SameEffect(Ran(after, one.outcomes + [o]), Ran(after, bulk.outcomes + [o]), unmapped)
  {
  }

  lemma {:induction false} OneFails(one: Ran, bulk: Ran, unmapped: seq<Outcome>, o: Outcome)
    requires SameEffect(one, bulk, unmapped) && o.status.Failed?
    ensures SameEffect(Ran(one.shop, one.outcomes + [o]), bulk, unmapped + [o])
  {
  }

  /** Setting aside the requests without a product changes no table, and no count. */
  lemma {:induction false} PairsAreEnough(shop: Shop, cat: Catalogue, space: Option<Id>, rs: seq<Request>)
    ensures SameEffect(ApplyEach(shop, cat, space, rs), ApplyPairs(shop, cat, space, PairsOf(cat, rs), false),
                       Unmapped(cat, rs))
  {
    if rs != [] {
      var n := |rs| - 1;
      PairsAreEnough(shop, cat, space, rs[..n]);
      OneMoreRequest(shop, cat, space, ApplyEach(shop, cat, space, rs[..n]), PairsOf(cat, rs[..n]),
                     Unmapped(cat, rs[..n]), rs[n]);
    }
  }

  lemma {:induction false} OneMoreRequest(shop: Shop, cat: Catalogue, space: Option<Id>, one: Ran, ps: seq<Pair>,
                                          unmapped: seq<Outcome>, r: Request)
    requires SameEffect(one, ApplyPairs(shop, cat, space, ps, false), unmapped)
             && one.shop.items.Keys == shop.items.Keys
    ensures var s := Apply(one.shop, cat, space, r);
            SameEffect(Ran(s.shop, one.outcomes + [Outcome(r.item, s.status)]),
                       ApplyPairs(shop, cat, space, ps + PairOf(cat, r), false), unmapped + UnmappedOf(cat, r))
  {
    if MappedProduct(cat, r.item, r.product).Some? {
      AddMapped(shop, cat, space, one, ps, unmapped, PairOf(cat, r)[0]);
      NothingAdded(unmapped, UnmappedOf(cat, r));
    } else {
      OneFails(one, ApplyPairs(shop, cat, space, ps, false), unmapped, Outcome(r.item, Failed));
      NothingAdded(ps, PairOf(cat, r));
    }
  }

  lemma {:induction false} NothingAdded<T>(xs: seq<T>, none: seq<T>)
    requires none == []
    ensures xs + none == xs
  {
  }

  lemma {:induction false} AddMapped(shop: Shop, cat: Catalogue, space: Option<Id>, one: Ran, ps: seq<Pair>,
                                     unmapped: seq<Outcome>, p: Pair)
    requires SameEffect(one, ApplyPairs(shop, cat, space, ps, false), unmapped)
    ensures var s := ApplyPair(one.shop, one.shop, cat, space, p);
            SameEffect(Ran(s.shop, one.outcomes + [Outcome(p.item, s.status)]),
                       ApplyPairs(shop, cat, space, ps + [p], false), unmapped)
  {
    var s := ApplyPair(one.shop, one.shop, cat, space, p);
    BothGo(one, ApplyPairs(shop, cat, space, ps, false), unmapped, s.shop, Outcome(p.item, s.status));
    PairsSnoc(shop, cat, space, ps, p, false);
  }

  ghost predicate AnyRefused(os: seq<Outcome>) {
    exists o :: o in os && o.status.Refused?
  }

  /** All writes of the bulk form are one transaction: one price the database refuses, and it throws. */
  ghost function Bulk(shop: Shop, cat: Catalogue, space: Option<Id>, rs: seq<Request>): (r: Option<Ran>) {
    var ran := ApplyPairs(shop, cat, space, PairsOf(cat, rs), space.None?);
    if AnyRefused(ran.outcomes) then None else Some(ran)
  }

  // ----- When the bulk form agrees ------------------------------------------------------------------------

  function AsKept(space: Option<Id>, p: Price): (r: Price) {
    if space.None? then Rounded(p) else p
  }

  /**
   The price in force once the entries are applied: that of the item's last applicable entry that fits,
   as kept, else its own.
   */
  function LastPrice(shop: Shop, cat: Catalogue, space: Option<Id>, ps: seq<Pair>, item: Id): (p: Option<Price>)
    requires item in shop.items
  {
    if ps == [] then Current(shop.items[item], space)
    else
      var last := ps[|ps| - 1];
      if last.item == item && Applicable(shop, cat, last) && Fits(Inherited(cat, last).value.price)
        then Some(AsKept(space, Inherited(cat, last).value.price))
      else LastPrice(shop, cat, space, ps[..|ps| - 1], item)
  }

  lemma {:induction false} PricedIsKept(item: Item, space: Option<Id>, price: Price)
    requires Fits(price)
    ensures Current(Priced(item, space, price), space) == Some(AsKept(space, price))
  {
    if space.Some? {
      StoreReadsBack(Normalize(item.spacePrices)[space.value := price]);
    }
  }

  /** What is in force already is kept as it is. */
  lemma {:induction false} KeptAgain(item: Item, space: Option<Id>, price: Price)
    requires Current(item, space) == Some(price)
    ensures AsKept(space, price) == price
  {
  }

  lemma {:induction false} LastPriceInForce(shop: Shop, cat: Catalogue, space: Option<Id>, ps: seq<Pair>, item: Id)
    requires item in shop.items
    ensures Current(ApplyPairs(shop, cat, space, ps, false).shop.items[item], space) ==
            LastPrice(shop, cat, space, ps, item)
  {
    if ps != [] {
      var n := |ps| - 1;
      var before := ApplyPairs(shop, cat, space, ps[..n], false).shop;
      LastPriceInForce(shop, cat, space, ps[..n], item);
      if ps[n].item == item && Applicable(shop, cat, ps[n]) && Fits(Inherited(cat, ps[n]).value.price) {
        var price := Inherited(cat, ps[n]).value.price;
        if Current(before.items[item], space) == Some(price) {
          KeptAgain(before.items[item], space, price);
        } else {
          PricedIsKept(before.items[item], space, price);
        }
      }
    }
  }

  /** The price an applicable entry brings. */
  function PriceAt(cat: Catalogue, ps: seq<Pair>, k: nat): (p: Price)
    requires k < |ps| && Inherited(cat, ps[k]).Some?
  {
    Inherited(cat, ps[k]).value.price
  }

  /** Entry `k` can be written, or is in force already. */
  ghost predicate Writable(shop: Shop, cat: Catalogue, space: Option<Id>, ps: seq<Pair>, k: nat)
    requires k < |ps|
  {
    Applicable(shop, cat, ps[k]) ==>
      Fits(PriceAt(cat, ps, k)) || LastPrice(shop, cat, space, ps[..k], ps[k].item) == Some(PriceAt(cat, ps, k))
  }

  ghost predicate AllWritable(shop: Shop, cat: Catalogue, space: Option<Id>, ps: seq<Pair>) {
    forall k :: 0 <= k < |ps| ==> Writable(shop, cat, space, ps, k)
  }

  lemma {:induction false} RefusedSnoc(os: seq<Outcome>, o: Outcome)
    ensures AnyRefused(os + [o]) <==> AnyRefused(os) || o.status.Refused?
  {
    if o.status.Refused? {
      assert o in os + [o];
    }
    if x :| x in os && x.status.Refused? {
      assert x in os + [o];
    }
  }

  lemma {:induction false} WritableButLast(shop: Shop, cat: Catalogue, space: Option<Id>, ps: seq<Pair>)
    requires ps != []
    ensures AllWritable(shop, cat, space, ps) <==>
              AllWritable(shop, cat, space, ps[..|ps| - 1]) && Writable(shop, cat, space, ps, |ps| - 1)
  {
    var n := |ps| - 1;
    forall k | 0 <= k < n ensures Writable(shop, cat, space, ps, k) <==> Writable(shop, cat, space, ps[..n], k) {
      assert ps[..n][..k] == ps[..k];
    }
  }

  lemma {:induction false} RefusedIff(shop: Shop, cat: Catalogue, space: Option<Id>, ps: seq<Pair>)
    ensures AnyRefused(ApplyPairs(shop, cat, space, ps, false).outcomes) <==> !AllWritable(shop, cat, space, ps)
  {
    if ps != [] {
      var n := |ps| - 1;
      var before := ApplyPairs(shop, cat, space, ps[..n], false);
      RefusedIff(shop, cat, space, ps[..n]);
      WritableButLast(shop, cat, space, ps);
      RefusedSnoc(before.outcomes, Outcome(ps[n].item, ApplyPair(before.shop, before.shop, cat, space, ps[n]).status));
      if Applicable(shop, cat, ps[n]) {
        LastPriceInForce(shop, cat, space, ps[..n], ps[n].item);
      }
    }
  }

  /**
   For a space the bulk form returns exactly when each of its prices fits the history's columns or is in
   force already; and then it has done what the requests do one by one: the same prices, the same
   history, the same count of changes and the same outcomes, even when items repeat.
   */
  lemma {:induction false} BulkForSpaceAgreesIff(shop: Shop, cat: Catalogue, s: Id, rs: seq<Request>)
    ensures var one, bulk := ApplyEach(shop, cat, Some(s), rs), Bulk(shop, cat, Some(s), rs);
            && (bulk.Some? <==> AllWritable(shop, cat, Some(s), PairsOf(cat, rs)))
            && (bulk.Some? ==> SameEffect(one, bulk.value, Unmapped(cat, rs)))
  {
    PairsAreEnough(shop, cat, Some(s), rs);
    RefusedIff(shop, cat, Some(s), PairsOf(cat, rs));
  }

  /** An entry finds the price read at the start exactly when it finds the one the entries before it left. */
  ghost predicate SeesTheSame(shop: Shop, cat: Catalogue, ps: seq<Pair>, k: nat)
    requires k < |ps|
  {
    Applicable(shop, cat, ps[k]) ==>
      var price := PriceAt(cat, ps, k);
      (price == shop.items[ps[k].item].current <==> LastPrice(shop, cat, None, ps[..k], ps[k].item) == Some(price))
  }

  ghost predicate AllSeeTheSame(shop: Shop, cat: Catalogue, ps: seq<Pair>) {
    forall k :: 0 <= k < |ps| ==> SeesTheSame(shop, cat, ps, k)
  }

  ghost predicate AllFit(shop: Shop, cat: Catalogue, ps: seq<Pair>) {
    forall p :: p in ps && Applicable(shop, cat, p) ==> Fits(Inherited(cat, p).value.price)
  }

  lemma {:induction false} AllButLast(shop: Shop, cat: Catalogue, ps: seq<Pair>)
    requires ps != []
    ensures AllSeeTheSame(shop, cat, ps) <==>
                AllSeeTheSame(shop, cat, ps[..|ps| - 1]) && SeesTheSame(shop, cat, ps, |ps| - 1)
  {
    var n := |ps| - 1;
    forall k | 0 <= k < n ensures SeesTheSame(shop, cat, ps, k) <==> SeesTheSame(shop, cat, ps[..n], k) {
      assert ps[..n][..k] == ps[..k];
    }
  }

  lemma {:induction false} SeeingTheSameAgrees(shop: Shop, cat: Catalogue, ps: seq<Pair>)
    requires AllSeeTheSame(shop, cat, ps)
    ensures ApplyPairs(shop, cat, None, ps, true) == ApplyPairs(shop, cat, None, ps, false)
  {
    if ps != [] {
      var n := |ps| - 1;
      AllButLast(shop, cat, ps);
      SeeingTheSameAgrees(shop, cat, ps[..n]);
      if Applicable(shop, cat, ps[n]) {
        LastPriceInForce(shop, cat, None, ps[..n], ps[n].item);
      }
    }
  }

  /** A price column holds what fits it, so a price that does not is never the one read at the start. */
  lemma {:induction false} StaleRefusedIff(shop: Shop, cat: Catalogue, ps: seq<Pair>)
    ensures AnyRefused(ApplyPairs(shop, cat, None, ps, true).outcomes) <==> !AllFit(shop, cat, ps)
  {
    if ps != [] {
      var n := |ps| - 1;
      var before := ApplyPairs(shop, cat, None, ps[..n], true);
      StaleRefusedIff(shop, cat, ps[..n]);
      RefusedSnoc(before.outcomes, Outcome(ps[n].item, ApplyPair(shop, before.shop, cat, None, ps[n]).status));
      assert ps == ps[..n] + [ps[n]];
    }
  }

  /** The rows that bring an item back to the price it had at the start. */
  function RowsAtStart(shop: Shop, rows: seq<HistoryRow>): (n: nat) {
    if rows == [] then 0
    else
      var last := rows[|rows| - 1];
      RowsAtStart(shop, rows[..|rows| - 1]) +
      if last.item in shop.items && last.price == shop.items[last.item].current then 1 else 0
  }

  lemma {:induction false} RowsSnoc(shop: Shop, rows: seq<HistoryRow>, row: HistoryRow)
    ensures RowsAtStart(shop, rows + [row]) ==
            RowsAtStart(shop, rows) + if row.item in shop.items && row.price == shop.items[row.item].current then 1
                else 0
  {
    assert (rows + [row])[..|rows|] == rows;
  }

  /**
   One by one writes every row at a starting price that the bulk form does; and if no more of them, then
   no more rows at all, and as many only when every entry sees the same price in both.
   */
  predicate Counted(shop: Shop, one: seq<HistoryRow>, bulk: seq<HistoryRow>, seesTheSame: bool) {
    && RowsAtStart(shop, bulk) <= RowsAtStart(shop, one)
    && (RowsAtStart(shop, bulk) == RowsAtStart(shop, one) ==> |one| <= |bulk| && (|one| == |bulk| ==> seesTheSame))
  }

  function RowUnless(unwritten: bool, rows: seq<HistoryRow>, row: HistoryRow): (r: seq<HistoryRow>) {
    if unwritten then rows else rows + [row]
  }

  /** One by one an entry writes unless its price is in force, in bulk unless it is the one at the start. */
  lemma {:induction false} CountedStep(shop: Shop, one: seq<HistoryRow>, bulk: seq<HistoryRow>, sees: bool,
                                       row: HistoryRow,
                                       start: ColumnPrice, inForce: ColumnPrice, price: Price)
    requires Counted(shop, one, bulk, sees)
    requires row.price == Rounded(price) && row.item in shop.items && start == shop.items[row.item].current
    ensures Counted(shop, RowUnless(price == inForce, one, row), RowUnless(price == start, bulk, row),
                    sees && (price == start <==> price == inForce))
  {
    RowsSnoc(shop, one, row);
    RowsSnoc(shop, bulk, row);
  }

  lemma {:induction false} StepHistory(seen: Shop, shop: Shop, cat: Catalogue, p: Pair)
    requires seen.items.Keys == shop.items.Keys && Applicable(shop, cat, p)
    ensures var q := Inherited(cat, p).value;
            ApplyPair(seen, shop, cat, None, p).shop.history ==
            if Fits(q.price) then RowUnless(q.price == seen.items[p.item].current, shop.history, Row(p, None, q))
                else shop.history
  {
  }

  lemma {:induction false} RowsTell(shop: Shop, cat: Catalogue, ps: seq<Pair>)
    ensures Counted(shop, ApplyPairs(shop, cat, None, ps, false).shop.history,
                    ApplyPairs(shop, cat, None, ps, true).shop.history,
                    AllSeeTheSame(shop, cat, ps))
  {
    if ps != [] {
      var n := |ps| - 1;
      var one, bulk := ApplyPairs(shop, cat, None, ps[..n], false).shop,
          ApplyPairs(shop, cat, None, ps[..n], true).shop;
      RowsTell(shop, cat, ps[..n]);
      AllButLast(shop, cat, ps);
      if Applicable(shop, cat, ps[n]) {
        LastPriceInForce(shop, cat, None, ps[..n], ps[n].item);
        StepHistory(one, one, cat, ps[n]);
        StepHistory(shop, bulk, cat, ps[n]);
        if Fits(PriceAt(cat, ps, n)) {
          CountedStep(shop, one.history, bulk.history, AllSeeTheSame(shop, cat, ps[..n]),
                      Row(ps[n], None, Inherited(cat, ps[n]).value),
                      shop.items[ps[n].item].current, one.items[ps[n].item].current, PriceAt(cat, ps, n));
        }
      }
    }
  }

  /**
   Without a space the bulk form returns, with the same prices and the same history as the entries one by
   one, exactly when every price fits its columns and every entry finds its item's starting price just in
   case it finds the price, as stored, that the entries before it left.
   */
  lemma {:induction false} BulkWithoutSpaceAgreesIff(shop: Shop, cat: Catalogue, rs: seq<Request>)
    ensures var one, bulk, ps := ApplyEach(shop, cat, None, rs), Bulk(shop, cat, None, rs), PairsOf(cat, rs);
            && ((bulk.Some? && bulk.value.shop == one.shop) <==> AllFit(shop, cat, ps) && AllSeeTheSame(shop, cat, ps))
            && (bulk.Some? && bulk.value.shop == one.shop ==> SameEffect(one, bulk.value, Unmapped(cat, rs)))
  {
    var ps := PairsOf(cat, rs);
    PairsAreEnough(shop, cat, None, rs);
    StaleRefusedIff(shop, cat, ps);
    RowsTell(shop, cat, ps);
    if AllSeeTheSame(shop, cat, ps) {
      SeeingTheSameAgrees(shop, cat, ps);
    }
  }

  /** No item twice, and every price fits: the two forms agree. */
  lemma {:induction false} DistinctItemsAgree(shop: Shop, cat: Catalogue, rs: seq<Request>)
    requires forall i, j :: 0 <= i < j < |rs| ==> rs[i].item != rs[j].item
    requires AllFit(shop, cat, PairsOf(cat, rs))
    ensures var bulk := Bulk(shop, cat, None, rs);
            bulk.Some? && SameEffect(ApplyEach(shop, cat, None, rs), bulk.value, Unmapped(cat, rs))
  {
    var ps := PairsOf(cat, rs);
    PairsDistinct(cat, rs);
    forall k | 0 <= k < |ps| ensures SeesTheSame(shop, cat, ps, k) {
      if ps[k].item in shop.items {
        NotYetPriced(shop, cat, ps[..k], ps[k].item);
      }
    }
    BulkWithoutSpaceAgreesIff(shop, cat, rs);
  }

  lemma {:induction false} NotYetPriced(shop: Shop, cat: Catalogue, ps: seq<Pair>, item: Id)
    requires item in shop.items && forall i :: 0 <= i < |ps| ==> ps[i].item != item
    ensures LastPrice(shop, cat, None, ps, item) == Some(shop.items[item].current)
  {
    if ps != [] {
      NotYetPriced(shop, cat, ps[..|ps| - 1], item);
    }
  }

  lemma {:induction false} PairsDistinct(cat: Catalogue, rs: seq<Request>)
    requires forall i, j :: 0 <= i < j < |rs| ==> rs[i].item != rs[j].item
    ensures forall i, j :: 0 <= i < j < |PairsOf(cat, rs)| ==> PairsOf(cat, rs)[i].item != PairsOf(cat, rs)[j].item
  {
    if rs != [] {
      var n := |rs| - 1;
      PairsDistinct(cat, rs[..n]);
      PairItems(cat, rs[..n]);
      var before := PairsOf(cat, rs[..n]);
      forall i | 0 <= i < |before| ensures before[i].item != rs[n].item {
        assert before[i] in before;
        var r :| r in rs[..n] && r.item == before[i].item;
        var j :| 0 <= j < n && rs[..n][j] == r;
        assert rs[j] == r;
      }
    }
  }

  lemma {:induction false} PairItems(cat: Catalogue, rs: seq<Request>)
    ensures forall p :: p in PairsOf(cat, rs) ==> exists r :: r in rs && r.item == p.item
  {
    if rs != [] {
      var n := |rs| - 1;
      PairItems(cat, rs[..n]);
      forall p | p in PairsOf(cat, rs) ensures exists r :: r in rs && r.item == p.item {
        if p in PairsOf(cat, rs[..n]) {
          var r :| r in rs[..n] && r.item == p.item;
          assert r in rs;
        } else {
          assert rs[n] in rs;
        }
      }
    }
  }

  /** An item at 5 given 7 and then 5: one by one it ends at 5, in bulk at 7. */
  lemma {:induction false} RepeatedItemDiffers(item: Id, product: Id)
    ensures var shop := Shop(map[item := Item(Price(5.0, None), NoMap, [])], []);
            var cat := Catalogue({(item, product)}, {product}, map[]);
            var rs := [Request(item, Some(product), Some(Price(7.0, None))),
                       Request(item, Some(product), Some(Price(5.0, None)))];
            && ApplyEach(shop, cat, None, rs).shop.items[item].current.ttc == 5.0
            && ApplyPairs(shop, cat, None, PairsOf(cat, rs), true).shop.items[item].current.ttc == 7.0
  {
  }

  /**
   The same item given 5.123 and then 5.12: one by one the second finds 5.12 stored and writes nothing,
   in bulk both write.
   */
  lemma {:induction false} RoundedItemDiffers(item: Id, product: Id)
    ensures var shop := Shop(map[item := Item(Price(5.0, None), NoMap, [])], []);
            var cat := Catalogue({(item, product)}, {product}, map[]);
            var rs := [Request(item, Some(product), Some(Price(5.123, None))),
                       Request(item, Some(product), Some(Price(5.12, None)))];
            && |ApplyEach(shop, cat, None, rs).shop.history| == 1
            && |ApplyPairs(shop, cat, None, PairsOf(cat, rs), true).shop.history| == 2
  {
    var cat := Catalogue({(item, product)}, {product}, map[]);
    var first, second := Pair(item, product, Some(Price(5.123, None))), Pair(item, product, Some(Price(5.12, None)));
    var a, b := Request(item, Some(product), first.override), Request(item, Some(product), second.override);
    var shop := Shop(map[item := Item(Price(5.0, None), NoMap, [])], []);
    assert [a, b][..1] == [a] && [a][..0] == [];
    assert [first, second][..1] == [first] && [first][..0] == [];
    assert PairsOf(cat, [a]) == [first];
    assert PairsOf(cat, [a, b]) == [first, second];
    assert Nearest(512.3) == 512 && Nearest(512.0) == 512;
    var one, bulk := ApplyEach(shop, cat, None, [a]).shop, ApplyPairs(shop, cat, None, [first], true).shop;
    var wrote := Write(shop, first, None, Quote(first.override.value, Catalog));
    assert Fits(first.override.value) && Fits(second.override.value) && Applicable(shop, cat, first);
    assert ApplyPair(shop, shop, cat, None, first) == Step(wrote, Changed);
    assert MappedProduct(cat, item, Some(product)) == Some(product);
    assert Apply(shop, cat, None, a) == Step(wrote, Changed);
    assert ApplyEach(shop, cat, None, [a][..0]) == ApplyPairs(shop, cat, None, [first][..0], true) == Ran(shop, []);
    assert one == wrote && bulk == wrote;
    assert wrote.history == [Row(first, None, Quote(first.override.value, Catalog))]
           && wrote.items[item].current == Price(5.12, None);
    assert Apply(one, cat, None, b).status.Unchanged?;
    assert ApplyPair(shop, bulk, cat, None, second).status.Changed?;
  }
}
