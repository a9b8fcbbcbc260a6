/** The price operations over their tables: the reads, the working copies, and the writes of one transaction. */
module PriceStore {
  import opened Common
  import opened Prices

  datatype WriteOp =
    | AddHistory(item: Id, space: Option<Id>, price: Price, source: Source, product: Id)
    | SetCurrent(item: Id, price: Price)
    | SetSpacePrices(item: Id, prices: map<Id, Price>)

  /** What a column would store fits it. */
  predicate Accepted(w: WriteOp) {
    w.SetSpacePrices? || Fits(w.price)
  }

  ghost predicate AllAccepted(ws: seq<WriteOp>) {
    forall w :: w in ws ==> Accepted(w)
  }

  function Perform(shop: Shop, w: WriteOp): (r: Shop)
    requires Accepted(w)
  {
    match w
    case AddHistory(i, space, p, source, product) =>
      shop.(history := shop.history + [HistoryRow(i, space, InColumn(p), source, product)])
    case SetCurrent(i, p) =>
      if i in shop.items then shop.(items := shop.items[i := shop.items[i].(current := InColumn(p))]) else shop
    case SetSpacePrices(i, ps) =>
      if i in shop.items then shop.(items := shop.items[i := shop.items[i].(spacePrices := Store(ps))]) else shop
  }

  /** The writes of one transaction, in order. */
  function Committed(shop: Shop, ws: seq<WriteOp>): (r: Shop)
    requires AllAccepted(ws)
  {
    if ws == [] then shop
    else
      assert ws[|ws| - 1] in ws;
      Perform(Committed(shop, ws[..|ws| - 1]), ws[|ws| - 1])
  }

  lemma {:induction false} CommittedTwo(shop: Shop, ws: seq<WriteOp>, a: WriteOp, b: WriteOp)
    requires AllAccepted(ws) && Accepted(a) && Accepted(b)
    ensures AllAccepted(ws + [a, b]) && Committed(shop, ws + [a, b]) == Perform(Perform(Committed(shop, ws), a), b)
  {
    assert (ws + [a, b])[..|ws| + 1] == ws + [a] && (ws + [a])[..|ws|] == ws;
  }

  /** The working copies hold the prices in force; an item without one has not been touched. */
  ghost predicate Tracked(shop: Shop, cur: Shop, working: map<Id, map<Id, Price>>) {
    && cur.items.Keys == shop.items.Keys
    && forall i :: i in cur.items ==> Normalize(cur.items[i].spacePrices) == if i in working then working[i]
        else Normalize(shop.items[i].spacePrices)
  }

  lemma {:induction false} TrackedStep(shop: Shop, cur: Shop, working: map<Id, map<Id, Price>>, p: Pair, s: Id,
                                       q: Quote)
    requires Tracked(shop, cur, working) && p.item in cur.items
    ensures Tracked(shop, cur, working[p.item := Normalize(cur.items[p.item].spacePrices)])
    ensures Fits(q.price) ==>
              Tracked(shop, Write(cur, p, Some(s), q),
                      working[p.item := Normalize(cur.items[p.item].spacePrices)[s := q.price]])
  {
    StoreReadsBack(Normalize(cur.items[p.item].spacePrices)[s := q.price]);
  }

  /** What the writes so far amount to; once one of them will be refused, that is all there is to know. */
  ghost predicate Amounts(shop: Shop, ws: seq<WriteOp>, ran: Ran) {
    && (AllAccepted(ws) <==> !AnyRefused(ran.outcomes))
    && (AllAccepted(ws) ==> Committed(shop, ws) == ran.shop)
  }

  /** An entry that writes nothing. */
  lemma {:induction false} NothingWritten(shop: Shop, ws: seq<WriteOp>, ran: Ran, now: Ran, o: Outcome)
    requires Amounts(shop, ws, ran) && now.outcomes == ran.outcomes + [o]
    requires AllAccepted(ws) ==> now.shop == ran.shop && !o.status.Refused?
    ensures Amounts(shop, ws, now)
  {
    RefusedSnoc(ran.outcomes, o);
  }

  /** An entry that writes a row and an update; both are refused when its price does not fit. */
  lemma {:induction false} TwoWritten(shop: Shop, ws: seq<WriteOp>, ran: Ran, now: Ran, o: Outcome, a: WriteOp,
                                      b: WriteOp)
    requires Amounts(shop, ws, ran) && now.outcomes == ran.outcomes + [o]
    requires Accepted(a) ==> Accepted(b)
    requires AllAccepted(ws) ==> (Accepted(a) <==> !o.status.Refused?)
    requires AllAccepted(ws) && Accepted(a) ==> now.shop == Perform(Perform(ran.shop, a), b)
    ensures Amounts(shop, ws + [a, b], now)
    ensures AllAccepted(ws + [a, b]) <==> AllAccepted(ws) && Accepted(a)
  {
    RefusedSnoc(ran.outcomes, o);
    AcceptedConcat(ws, [a, b]);
    assert a in [a, b] && b in [a, b];
    if AllAccepted(ws) && Accepted(a) {
      CommittedTwo(shop, ws, a, b);
    }
  }

  lemma {:induction false} AcceptedConcat(a: seq<WriteOp>, b: seq<WriteOp>)
    ensures AllAccepted(a + b) <==> AllAccepted(a) && AllAccepted(b)
  {
    forall w | w in a || w in b ensures w in a + b {
    }
  }

  datatype BulkResult = BulkResult(changed: nat, outcomes: seq<Outcome>)

  lemma {:induction false} BothAccepted(shop: Shop, a: WriteOp, b: WriteOp)
    ensures AllAccepted([a, b]) <==> Accepted(a) && Accepted(b)
    ensures AllAccepted([a, b]) ==> Committed(shop, [a, b]) == Perform(Perform(shop, a), b)
  {
    assert a in [a, b] && b in [a, b];
    if Accepted(a) && Accepted(b) {
      CommittedTwo(shop, [], a, b);
      assert [] + [a, b] == [a, b];
    }
  }

  class Tables {
    var items: map<Id, Item>
    var history: seq<HistoryRow>

    function Contents(): (shop: Shop)
      reads this
    {
      Shop(items, history)
    }

    /** Runs the writes of one transaction: all of them, or none when the database refuses one. */
    method Commit(ws: seq<WriteOp>) returns (ok: bool)
      modifies this
      ensures ok <==> AllAccepted(ws)
      ensures Contents() == if ok then Committed(old(Contents()), ws) else old(Contents())
    {
      var shop := Contents();
      for k := 0 to |ws|
        invariant forall i :: 0 <= i < k ==> Accepted(ws[i])
        invariant AllAccepted(ws[..k]) && Contents() == Committed(shop, ws[..k])
      {
        assert ws[..k + 1] == ws[..k] + [ws[k]] && ws[..k + 1][..k] == ws[..k];
        if !Accepted(ws[k]) {
          items, history := shop.items, shop.history;
          return false;
        }
        match ws[k]
        case AddHistory(i, space, p, source, product) => history := history +
            [HistoryRow(i, space, InColumn(p), source, product)];
        case SetCurrent(i, p) =>
          if i in items {
            items := items[i := items[i].(current := InColumn(p))];
          }
        case SetSpacePrices(i, ps) =>
          if i in items {
            items := items[i := items[i].(spacePrices := Store(ps))];
          }
      }
      assert ws[..|ws|] == ws;
      ok := true;
    }

    /** `normalizeSpacePricesMap`. */
    method NormalizeSpacePrices(raw: RawPrices) returns (out: map<Id, Price>)
      ensures out == Normalize(raw)
    {
      out := map[];
      if raw.Stored? {
        var left := raw.entries.Keys;
        while left != {}
          invariant left <= raw.entries.Keys
          invariant out == map s | s in raw.entries && s !in left
                    && NormalizePrice(raw.entries[s]).Some? :: NormalizePrice(raw.entries[s]).value
          decreases left
        {
          var s :| s in left;
          var p := NormalizePrice(raw.entries[s]);
          if p.Some? {
            out := out[s := p.value];
          }
          left := left - {s};
        }
      }
    }

    /** `applyWeezeventPrice`; the statuses `Failed` and `Refused` stand for its exceptions. */
    method ApplyWeezeventPrice(cat: Catalogue, r: Request, space: Option<Id>) returns (status: Status)
      modifies this
      ensures var s := Apply(old(Contents()), cat, space, r); status == s.status && Contents() == s.shop
    {
      if r.item !in items {
        return Failed;
      }
      var product := MappedProduct(cat, r.item, r.product);
      if product.None? || product.value !in cat.products {
        return Failed;
      }
      var p := Pair(r.item, product.value, r.override);
      var q := Inherited(cat, p);
      if q.None? {
        return Failed;
      }
      var price := q.value.price;
      var update;
      if space.Some? {
        var prices := NormalizeSpacePrices(items[r.item].spacePrices);
        if space.value in prices && prices[space.value] == price {
          return Unchanged;
        }
        update := SetSpacePrices(r.item, prices[space.value := price]);
      } else {
        if items[r.item].current == price {
          return Unchanged;
        }
        update := SetCurrent(r.item, price);
      }
      var row := AddHistory(r.item, space, price, q.value.source, product.value);
      BothAccepted(Contents(), row, update);
      var ok := Commit([row, update]);
      status := if ok then Changed else Refused;
    }

    /** The first loop of the bulk form: the product of each request, or its failure. */
    method ResolveProducts(cat: Catalogue, rs: seq<Request>) returns (ps: seq<Pair>, failures: seq<Outcome>)
      ensures ps == PairsOf(cat, rs) && failures == Unmapped(cat, rs)
    {
      ps, failures := [], [];
      for k := 0 to |rs|
        invariant ps == PairsOf(cat, rs[..k]) && failures == Unmapped(cat, rs[..k])
      {
        assert rs[..k + 1][..k] == rs[..k];
        var product := MappedProduct(cat, rs[k].item, rs[k].product);
        if product.Some? {
          ps := ps + [Pair(rs[k].item, product.value, rs[k].override)];
        } else {
          failures := failures + [Outcome(rs[k].item, Failed)];
        }
      }
      assert rs[..|rs|] == rs;
    }

    /** One entry for a space, on the working copy of its item; `ran` is what the writes `ws` so far amount to. */
    method PriceForSpace(cat: Catalogue, p: Pair, s: Id, working: map<Id, map<Id, Price>>, ws: seq<WriteOp>,
                         ghost ran: Ran)
      returns (status: Status, working': map<Id, map<Id, Price>>, ws': seq<WriteOp>)
      requires AllAccepted(ws) ==> Tracked(Contents(), ran.shop, working)
      requires Amounts(Contents(), ws, ran) && ran.shop.items.Keys == items.Keys
      ensures var step := ApplyPair(ran.shop, ran.shop, cat, Some(s), p);
              && Amounts(Contents(), ws', Ran(step.shop, ran.outcomes + [Outcome(p.item, step.status)]))
              && (AllAccepted(ws') ==>
                    AllAccepted(ws) && status == step.status && Tracked(Contents(), step.shop, working'))
    {
      ghost var step := ApplyPair(ran.shop, ran.shop, cat, Some(s), p);
      ghost var o := Outcome(p.item, step.status);
      ghost var now := Ran(step.shop, ran.outcomes + [o]);
      var q := Inherited(cat, p);
      if p.item !in items || p.product !in cat.products || q.None? {
        NothingWritten(Contents(), ws, ran, now, o);
        return Failed, working, ws;
      }
      var price := q.value.price;
      var prices: map<Id, Price>;
      if p.item in working {
        prices := working[p.item];
      } else {
        prices := NormalizeSpacePrices(items[p.item].spacePrices);
      }
      if AllAccepted(ws) {
        TrackedStep(Contents(), ran.shop, working, p, s, q.value);
      }
      if s in prices && prices[s] == price {
        NothingWritten(Contents(), ws, ran, now, o);
        return Unchanged, working[p.item := prices], ws;
      }
      prices := prices[s := price];
      var row, update := AddHistory(p.item, Some(s), price, q.value.source, p.product), SetSpacePrices(p.item, prices);
      TwoWritten(Contents(), ws, ran, now, o, row, update);
      status, working', ws' := Changed, working[p.item := prices], ws + [row, update];
    }

    /** The second loop for a space, on working copies of the stored prices. */
    method CollectForSpace(cat: Catalogue, ps: seq<Pair>, s: Id)
        returns (ws: seq<WriteOp>, changed: nat, outcomes: seq<Outcome>)
      ensures var ran := ApplyPairs(Contents(), cat, Some(s), ps, false);
              && Amounts(Contents(), ws, ran)
              && (AllAccepted(ws) ==> outcomes == ran.outcomes && changed == CountChanged(ran.outcomes))
    {
      ghost var shop := Contents();
      ghost var ran := Ran(shop, []);
      var working: map<Id, map<Id, Price>> := map[];
      ws, changed, outcomes := [], 0, [];
      for k := 0 to |ps|
        invariant ran == ApplyPairs(shop, cat, Some(s), ps[..k], false) && Amounts(shop, ws, ran)
        invariant AllAccepted(ws) ==>
                      outcomes == ran.outcomes && changed == CountChanged(outcomes) && Tracked(shop, ran.shop, working)
      {
        var p := ps[k];
        assert ps[..k + 1] == ps[..k] + [p];
        PairsSnoc(shop, cat, Some(s), ps[..k], p, false);
        var status;
        status, working, ws := PriceForSpace(cat, p, s, working, ws, ran);
        if status.Changed? {
          changed := changed + 1;
        }
        CountSnoc(outcomes, Outcome(p.item, status));
        outcomes := outcomes + [Outcome(p.item, status)];
        ran := ApplyPairs(shop, cat, Some(s), ps[..k + 1], false);
      }
      assert ps[..|ps|] == ps;
    }

    /** One entry without a space, against the item as it was read. */
    method PriceGlobally(cat: Catalogue, p: Pair, ws: seq<WriteOp>, ghost ran: Ran)
        returns (status: Status, ws': seq<WriteOp>)
      requires Amounts(Contents(), ws, ran) && ran.shop.items.Keys == items.Keys
      ensures var step := ApplyPair(Contents(), ran.shop, cat, None, p);
              && Amounts(Contents(), ws', Ran(step.shop, ran.outcomes + [Outcome(p.item, step.status)]))
              && (AllAccepted(ws') ==> AllAccepted(ws) && status == step.status)
    {
      ghost var step := ApplyPair(Contents(), ran.shop, cat, None, p);
      ghost var o := Outcome(p.item, step.status);
      ghost var now := Ran(step.shop, ran.outcomes + [o]);
      var q := Inherited(cat, p);
      if p.item !in items || p.product !in cat.products || q.None? {
        NothingWritten(Contents(), ws, ran, now, o);
        return Failed, ws;
      }
      var price := q.value.price;
      if items[p.item].current == price {
        NothingWritten(Contents(), ws, ran, now, o);
        return Unchanged, ws;
      }
      var row, update := AddHistory(p.item, None, price, q.value.source, p.product), SetCurrent(p.item, price);
      TwoWritten(Contents(), ws, ran, now, o, row, update);
      status, ws' := Changed, ws + [row, update];
    }

    /** The second loop without a space. */
    method CollectGlobal(cat: Catalogue, ps: seq<Pair>) returns (ws: seq<WriteOp>, changed: nat, outcomes: seq<Outcome>)
      ensures var ran := ApplyPairs(Contents(), cat, None, ps, true);
              && Amounts(Contents(), ws, ran)
              && (AllAccepted(ws) ==> outcomes == ran.outcomes && changed == CountChanged(ran.outcomes))
    {
      ghost var shop := Contents();
      ghost var ran := Ran(shop, []);
      ws, changed, outcomes := [], 0, [];
      for k := 0 to |ps|
        invariant ran == ApplyPairs(shop, cat, None, ps[..k], true) && Amounts(shop, ws, ran)
        invariant AllAccepted(ws) ==> outcomes == ran.outcomes && changed == CountChanged(outcomes)
      {
        var p := ps[k];
        assert ps[..k + 1] == ps[..k] + [p];
        PairsSnoc(shop, cat, None, ps[..k], p, true);
        var status;
        status, ws := PriceGlobally(cat, p, ws, ran);
        if status.Changed? {
          changed := changed + 1;
        }
        CountSnoc(outcomes, Outcome(p.item, status));
        outcomes := outcomes + [Outcome(p.item, status)];
        ran := ApplyPairs(shop, cat, None, ps[..k + 1], true);
      }
      assert ps[..|ps|] == ps;
    }

    /**
     `applyWeezeventPricesBulk`: one transaction, so that it throws (no result) and writes nothing when the
     database refuses a price. For a space, when it returns, it has done what the requests do one by one:
     the same prices, the same history in the same order, the same number of changes, the same outcomes.
     Without a space it compares with the prices read at the start.
     */
    method ApplyWeezeventPricesBulk(cat: Catalogue, rs: seq<Request>, space: Option<Id>) returns (r: Option<BulkResult>)
      modifies this
      ensures var bulk := Bulk(old(Contents()), cat, space, rs);
              if bulk.None? then r.None? && Contents() == old(Contents())
              else Contents() == bulk.value.shop
                   && r == Some(BulkResult(CountChanged(bulk.value.outcomes),
                                           Unmapped(cat, rs) + bulk.value.outcomes))
      ensures space.Some? && r.Some? ==>
                var one := ApplyEach(old(Contents()), cat, space, rs);
                Contents() == one.shop && r.value.changed == CountChanged(one.outcomes)
                    && multiset(r.value.outcomes) == multiset(one.outcomes)
    {
      PairsAreEnough(Contents(), cat, space, rs);
      var ps, failures := ResolveProducts(cat, rs);
      var ws, changed, more;
      if space.Some? {
        ws, changed, more := CollectForSpace(cat, ps, space.value);
      } else {
        ws, changed, more := CollectGlobal(cat, ps);
      }
      var ok := Commit(ws);
      r := if ok then Some(BulkResult(changed, failures + more)) else None;
    }
  }
}
