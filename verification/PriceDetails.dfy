/**
 Which price a request applies and what it leaves, read off the request, the tables and the prices offered alone.
 */
module PriceDetails {
  import opened Common
  import opened Columns
  import opened Prices

  // ----- The product, the price and the columns ------------------------------------------------------------------

  /** The product a request is about: the one it names, or the only one mapped to its item; mapped to it either way. */
  predicate TheProduct(cat: Catalogue, r: Request, product: Id) {
    && (r.item, product) in cat.mapped
    && (r.product.Some? ==> r.product.value == product)
    && (r.product.None? ==> forall m :: m in cat.mapped && m.0 == r.item ==> m.1 == product)
  }

  /** The price it brings: the one shown to the user, when it is sent, whatever else is offered; else the product's. */
  predicate ThePrice(cat: Catalogue, override: Option<Price>, product: Id, q: Quote) {
    match override
    case Some(price) => q == Quote(price, Catalog)
    case None => product in cat.quotes && q == cat.quotes[product]
  }

  /** The price an item has for a space, or of its own. A stored number is a price without a rate. */
  predicate HasPrice(item: Item, space: Option<Id>, price: Price) {
    match space
    case None => item.current == price
    case Some(s) =>
      && item.spacePrices.Stored? && s in item.spacePrices.entries
      && match item.spacePrices.entries[s]
         case Entry(p) => p == price
         case Legacy(ttc) => price == Price(ttc, None)
         case Unusable => false
  }

  /** `y` is `x` to two decimals, halves away from zero. */
  predicate TwoDecimals(x: real, y: real) {
    && (100.0 * y).Floor as real == 100.0 * y
    && (if x >= 0.0 then y - 0.005 <= x < y + 0.005 else y - 0.005 < x <= y + 0.005)
  }

  predicate StoredPrice(price: Price, stored: Price) {
    && TwoDecimals(price.ttc, stored.ttc) && (price.vat.Some? <==> stored.vat.Some?)
    && (price.vat.Some? ==> TwoDecimals(price.vat.value, stored.vat.value))
  }

  /** Once rounded, below a hundred million, and the rate below a thousand. */
  predicate SmallEnough(p: Price) {
    -99999999.995 < p.ttc < 99999999.995 && (p.vat.Some? ==> -999.995 < p.vat.value < 999.995)
  }

  lemma {:induction false} RoundedIs(x: real)
    ensures TwoDecimals(x, Round2(x))
  {
    var k := Nearest(100.0 * x);
    assert Round2(x) == k as real / 100.0;
    assert 100.0 * Round2(x) == k as real;
    if x >= 0.0 {
      assert k as real <= 100.0 * x + 0.5 < k as real + 1.0;
    } else {
      assert -k as real <= 0.5 - 100.0 * x < -k as real + 1.0;
    }
  }

  lemma {:induction false} BelowIff(x: real, limit: int)
    requires limit > 0
    ensures Below(Round2(x), limit as real) <==> -(limit as real) + 0.005 < x < limit as real - 0.005
  {
    var k := Nearest(100.0 * x);
    assert Below(Round2(x), limit as real) <==> -100 * limit < k < 100 * limit;
  }

  lemma {:induction false} FitsIff(p: Price)
    ensures Fits(p) <==> SmallEnough(p)
  {
    BelowIff(p.ttc, 100000000);
    if p.vat.Some? {
      BelowIff(p.vat.value, 1000);
    }
  }

  lemma {:induction false} RoundedPriceIs(p: Price)
    ensures StoredPrice(p, Rounded(p))
  {
    RoundedIs(p.ttc);
    if p.vat.Some? {
      RoundedIs(p.vat.value);
    }
  }

  // ----- One request ----------------------------------------------------------------------------------------------

  lemma {:induction false} ProductIs(cat: Catalogue, r: Request)
    ensures forall p: Id :: MappedProduct(cat, r.item, r.product) == Some(p) <==> TheProduct(cat, r, p)
  {
    forall p: Id ensures MappedProduct(cat, r.item, r.product) == Some(p) <==> TheProduct(cat, r, p) {
      if r.product.None? && TheProduct(cat, r, p) {
        assert p in ProductsOf(cat, r.item);
        assert ProductsOf(cat, r.item) == {p};
      }
      if r.product.None? && MappedProduct(cat, r.item, r.product) == Some(p) {
        assert ProductsOf(cat, r.item) == {p};
        forall m | m in cat.mapped && m.0 == r.item ensures m.1 == p {
          assert m.1 in ProductsOf(cat, r.item);
        }
        assert p in ProductsOf(cat, r.item);
      }
    }
  }

  lemma {:induction false} PriceIs(cat: Catalogue, p: Pair)
    ensures forall q :: Inherited(cat, p) == Some(q) <==> ThePrice(cat, p.override, p.product, q)
  {
  }

  lemma {:induction false} InForceIs(item: Item, space: Option<Id>)
    ensures forall price: Price :: Current(item, space) == Some(price) <==> HasPrice(item, space, price)
  {
  }

  /** The item has this price for the space, or of its own to two decimals; nothing else about it has changed. */
  ghost predicate ItemPriced(was: Item, now: Item, space: Option<Id>, price: Price) {
    && now.spaceIds == was.spaceIds
    && match space
       case None => StoredPrice(price, now.current) && now.spacePrices == was.spacePrices
       case Some(s) =>
         && now.current == was.current
         && forall t: Id, p: Price :: HasPrice(now, Some(t), p) <==> if t == s then p == price
                                                                    else HasPrice(was, Some(t), p)
  }

  /** One item has got the price, and the history one row for it; all else is as it was. */
  ghost predicate PriceApplied(shop: Shop, after: Shop, item: Id, space: Option<Id>, product: Id, q: Quote)
    requires item in shop.items
  {
    && after.items.Keys == shop.items.Keys
    && (forall i :: i in shop.items && i != item ==> after.items[i] == shop.items[i])
    && ItemPriced(shop.items[item], after.items[item], space, q.price)
    && |after.history| == |shop.history| + 1 && after.history[..|shop.history|] == shop.history
    && var row := after.history[|shop.history|];
       && row.item == item && row.space == space && row.source == q.source && row.product == product
       && StoredPrice(q.price, row.price)
  }

  lemma {:induction false} WriteApplies(shop: Shop, p: Pair, space: Option<Id>, q: Quote)
    requires p.item in shop.items && Fits(q.price)
    ensures PriceApplied(shop, Write(shop, p, space, q), p.item, space, p.product, q)
  {
    RoundedPriceIs(q.price);
    var was := shop.items[p.item];
    var now := Priced(was, space, q.price);
    if space.Some? {
      SpacePriced(was, now, space.value, q.price);
    }
  }

  lemma {:induction false} SpacePriced(was: Item, now: Item, s: Id, price: Price)
    requires Fits(price) && now == Priced(was, Some(s), price)
    ensures forall t: Id, p: Price :: HasPrice(now, Some(t), p) <==> if t == s then p == price
                                                                    else HasPrice(was, Some(t), p)
  {
    StoreReadsBack(Normalize(was.spacePrices)[s := price]);
    forall t: Id, p: Price ensures HasPrice(now, Some(t), p) <==> if t == s then p == price
                                                                  else HasPrice(was, Some(t), p)
    {
      InForceIs(now, Some(t));
      InForceIs(was, Some(t));
    }
  }

  /** The item and the product are there, and so is a price. */
  predicate PriceFor(shop: Shop, cat: Catalogue, p: Pair, q: Quote) {
    p.item in shop.items && p.product in cat.products && ThePrice(cat, p.override, p.product, q)
  }

  /** What an entry for a product comes to, when its price is compared with that of the item in `seen`. */
  ghost predicate EntryApplied(seen: Shop, shop: Shop, item: Id, space: Option<Id>, product: Id, q: Quote, s: Step)
    requires seen.items.Keys == shop.items.Keys && item in shop.items
  {
    if HasPrice(seen.items[item], space, q.price) then s == Step(shop, Unchanged)
    else if !SmallEnough(q.price) then s == Step(shop, Refused)
    else s.status == Changed && PriceApplied(shop, s.shop, item, space, product, q)
  }

  lemma {:induction false} PairApplied(seen: Shop, shop: Shop, cat: Catalogue, space: Option<Id>, p: Pair)
    requires seen.items.Keys == shop.items.Keys
    ensures var s := ApplyPair(seen, shop, cat, space, p);
            && ((forall q: Quote :: !PriceFor(shop, cat, p, q)) ==> s == Step(shop, Failed))
            && forall q: Quote :: PriceFor(shop, cat, p, q) ==> EntryApplied(seen, shop, p.item, space, p.product, q, s)
  {
    PriceIs(cat, p);
    if Applicable(shop, cat, p) {
      var q := Inherited(cat, p).value;
      assert PriceFor(shop, cat, p, q);
      InForceIs(seen.items[p.item], space);
      FitsIff(q.price);
      if Fits(q.price) {
        WriteApplies(shop, p, space, q);
      }
    }
  }

  /**
   What a request comes to. It fails, and changes nothing, without a product, an item or a price; with them the price
   is the one shown to the user when it is sent, and else the product's, with the source it comes from.
   */
  lemma {:induction false} RequestApplied(shop: Shop, cat: Catalogue, space: Option<Id>, r: Request)
    ensures var s := Apply(shop, cat, space, r);
            && ((forall p: Id, q: Quote :: !Offered(shop, cat, r, p, q)) ==> s == Step(shop, Failed))
            && forall p: Id, q: Quote :: Offered(shop, cat, r, p, q) ==>
                 EntryApplied(shop, shop, r.item, space, p, q, s)
  {
    ProductIs(cat, r);
    var product := MappedProduct(cat, r.item, r.product);
    if product.Some? {
      PairApplied(shop, shop, cat, space, Pair(r.item, product.value, r.override));
      if forall p: Id, q: Quote :: !Offered(shop, cat, r, p, q) {
        forall q: Quote ensures !PriceFor(shop, cat, Pair(r.item, product.value, r.override), q) {
          assert !Offered(shop, cat, r, product.value, q);
        }
      }
    }
  }

  /** The item is there, and the request brings it this price of this product. */
  predicate Offered(shop: Shop, cat: Catalogue, r: Request, p: Id, q: Quote) {
    r.item in shop.items && TheProduct(cat, r, p) && p in cat.products && ThePrice(cat, r.override, p, q)
  }

  // ----- Prices shown to the user --------------------------------------------------------------------------------

  lemma {:induction false} ShownPairsNeedNoQuotes(shop: Shop, cat: Catalogue, quotes: map<Id, Quote>, space: Option<Id>,
                                                  ps: seq<Pair>, stale: bool)
    requires forall p :: p in ps ==> p.override.Some?
    ensures ApplyPairs(shop, cat, space, ps, stale) == ApplyPairs(shop, cat.(quotes := quotes), space, ps, stale)
  {
    if ps != [] {
      ShownPairsNeedNoQuotes(shop, cat, quotes, space, ps[..|ps| - 1], stale);
      assert ps[|ps| - 1] in ps;
    }
  }

  lemma {:induction false} ShownPairs(cat: Catalogue, quotes: map<Id, Quote>, rs: seq<Request>)
    requires forall r :: r in rs ==> r.override.Some?
    ensures PairsOf(cat.(quotes := quotes), rs) == PairsOf(cat, rs)
    ensures forall p :: p in PairsOf(cat, rs) ==> p.override.Some?
  {
    if rs != [] {
      var n := |rs| - 1;
      ShownPairs(cat, quotes, rs[..n]);
      assert rs[n] in rs;
      ProductNeedsNoQuote(cat, quotes, rs[n]);
    }
  }

  lemma {:induction false} ProductNeedsNoQuote(cat: Catalogue, quotes: map<Id, Quote>, r: Request)
    ensures MappedProduct(cat.(quotes := quotes), r.item, r.product) == MappedProduct(cat, r.item, r.product)
  {
    ProductIs(cat, r);
    ProductIs(cat.(quotes := quotes), r);
    var u := cat.(quotes := quotes);
    forall p: Id ensures TheProduct(u, r, p) <==> TheProduct(cat, r, p) {
    }
  }

  lemma {:induction false} ShownOneByOne(shop: Shop, cat: Catalogue, quotes: map<Id, Quote>, space: Option<Id>,
                                         rs: seq<Request>)
    requires forall r :: r in rs ==> r.override.Some?
    ensures ApplyEach(shop, cat, space, rs) == ApplyEach(shop, cat.(quotes := quotes), space, rs)
  {
    if rs != [] {
      var n := |rs| - 1;
      ShownOneByOne(shop, cat, quotes, space, rs[..n]);
      assert rs[n] in rs;
      ProductNeedsNoQuote(cat, quotes, rs[n]);
    }
  }

  /**
   When every request sends the price shown to the user, nothing depends on what the products are quoted at, one by
   one or in bulk.
   */
  lemma {:induction false} ShownPricesNeedNoQuotes(shop: Shop, cat: Catalogue, quotes: map<Id, Quote>,
                                                   space: Option<Id>, rs: seq<Request>)
    requires forall r :: r in rs ==> r.override.Some?
    ensures ApplyEach(shop, cat, space, rs) == ApplyEach(shop, cat.(quotes := quotes), space, rs)
    ensures Bulk(shop, cat, space, rs) == Bulk(shop, cat.(quotes := quotes), space, rs)
  {
    ShownOneByOne(shop, cat, quotes, space, rs);
    ShownPairs(cat, quotes, rs);
    ShownPairsNeedNoQuotes(shop, cat, quotes, space, PairsOf(cat, rs), space.None?);
  }

  // ----- One more request in bulk ---------------------------------------------------------------------------------

  /**
   The bulk form on one more request. One without a product leaves the rest as it is; any other is compared with the
   price left before it, or without a space with that at the start. A price the database refuses makes it all throw.
   */
  lemma {:induction false} BulkOneMore(shop: Shop, cat: Catalogue, space: Option<Id>, rs: seq<Request>, r: Request)
    requires Bulk(shop, cat, space, rs).Some?
    ensures var before, after := Bulk(shop, cat, space, rs).value, Bulk(shop, cat, space, rs + [r]);
            && before.shop.items.Keys == shop.items.Keys
            && ((forall p: Id :: !TheProduct(cat, r, p)) ==> after == Some(before))
            && forall p: Id, q: Quote :: Offered(shop, cat, r, p, q) ==>
                 var seen := if space.None? then shop else before.shop;
                 if HasPrice(seen.items[r.item], space, q.price)
                 then after == Some(Ran(before.shop, before.outcomes + [Outcome(r.item, Unchanged)]))
                 else if !SmallEnough(q.price) then after.None?
                 else after.Some? && after.value.outcomes == before.outcomes + [Outcome(r.item, Changed)]
                      && PriceApplied(before.shop, after.value.shop, r.item, space, p, q)
  {
    ProductIs(cat, r);
    OneMorePair(cat, rs, r);
    var ran := ApplyPairs(shop, cat, space, PairsOf(cat, rs), space.None?);
    var product := MappedProduct(cat, r.item, r.product);
    if product.Some? {
      var p := Pair(r.item, product.value, r.override);
      var seen := if space.None? then shop else ran.shop;
      PairsSnoc(shop, cat, space, PairsOf(cat, rs), p, space.None?);
      PairApplied(seen, ran.shop, cat, space, p);
      RefusedSnoc(ran.outcomes, Outcome(p.item, ApplyPair(seen, ran.shop, cat, space, p).status));
    } else {
      assert PairsOf(cat, rs + [r]) == PairsOf(cat, rs);
    }
  }

  lemma {:induction false} OneMorePair(cat: Catalogue, rs: seq<Request>, r: Request)
    ensures var product := MappedProduct(cat, r.item, r.product);
            PairsOf(cat, rs + [r])
            == PairsOf(cat, rs) + if product.Some? then [Pair(r.item, product.value, r.override)] else []
  {
    assert (rs + [r])[..|rs|] == rs;
    assert PairsOf(cat, rs) + [] == PairsOf(cat, rs);
  }
}
