/** `backfillWeezeventPrices` over the tables: the plan, the writes collected, and their transactions of 25. */
module BackfillRun {
  import opened Common
  import opened Prices
  import opened PriceStore
  import opened Backfill

  datatype Summary = Summary(scanned: nat, touched: nat, applied: nat, noSpace: nat, noSales: nat, alreadyPriced: nat,
                             ambiguous: nat)

  const ChunkSize := 25

  function CountAmbiguous(cat: Catalogue, scan: seq<Id>): (n: nat) {
    if scan == [] then 0 else CountAmbiguous(cat, scan[..|scan| - 1]) + if OnlyProduct(cat, scan[|scan| - 1]).None?
        then 1 else 0
  }

  function CountNoSpace(shop: Shop, cat: Catalogue, scan: seq<Id>, only: Option<Id>): (n: nat) {
    if scan == [] then 0
    else
      var last := scan[|scan| - 1];
      CountNoSpace(shop, cat, scan[..|scan| - 1], only) +
      if OnlyProduct(cat, last).Some? && SpacesOf(SpaceIds(shop, last), only) == [] then 1 else 0
  }

  /** Every counter, from the tables as they were: a dry run reports what the real one does. */
  function SummaryOf(shop: Shop, cat: Catalogue, sales: SalesTable, scan: seq<Id>, o: Options): (s: Summary) {
    var ts := Targets(shop, cat, scan, o.only);
    Summary(|scan|, |Touched(AppliedPairs(shop, cat, sales, scan, o))|,
            CountClass(shop, o.overwrite, sales, ts, Class.Applied),
            CountNoSpace(shop, cat, scan, o.only),
            CountClass(shop, o.overwrite, sales, ts, NoSales),
            CountClass(shop, o.overwrite, sales, ts, AlreadyPriced),
            CountAmbiguous(cat, scan))
  }

  // ----- 2: the plan ------------------------------------------------------------------------------

  /** The work of each space, in the order the pairs come. */
  ghost predicate Planned(kept: seq<Target>, spaces: seq<Id>, work: map<Id, seq<Target>>) {
    && spaces == SpacesIn(kept)
    && (forall s :: s in work <==> s in spaces)
    && (forall s :: s in work ==> work[s] == OfSpace(kept, s))
  }

  lemma {:induction false} NoneOfSpace(ts: seq<Target>, s: Id)
    requires s !in SpacesIn(ts)
    ensures OfSpace(ts, s) == []
  {
    if ts != [] {
      NoneOfSpace(ts[..|ts| - 1], s);
    }
  }

  lemma {:induction false} PlannedStep(kept: seq<Target>, spaces: seq<Id>, work: map<Id, seq<Target>>, t: Target)
    requires Planned(kept, spaces, work)
    ensures Planned(kept + [t], if t.space in spaces then spaces else spaces + [t.space],
                    work[t.space := (if t.space in work then work[t.space] else []) + [t]])
  {
    assert (kept + [t])[..|kept|] == kept;
    if t.space !in work {
      NoneOfSpace(kept, t.space);
    }
    forall s | s != t.space ensures OfSpace(kept + [t], s) == OfSpace(kept, s) {
    }
  }

  method FilterSpaces(spaceIds: seq<Id>, only: Option<Id>) returns (r: seq<Id>)
    ensures r == SpacesOf(spaceIds, only)
  {
    r := [];
    for k := 0 to |spaceIds|
      invariant r == SpacesOf(spaceIds[..k], only)
    {
      assert spaceIds[..k + 1][..k] == spaceIds[..k];
      if only.None? || spaceIds[k] == only.value {
        r := r + [spaceIds[k]];
      }
    }
    assert spaceIds[..|spaceIds|] == spaceIds;
  }

  lemma {:induction false} KeptConcat(shop: Shop, overwrite: bool, a: seq<Target>, b: seq<Target>)
    ensures Kept(shop, overwrite, a + b) == Kept(shop, overwrite, a) + Kept(shop, overwrite, b)
  {
    if b == [] {
      assert a + b == a;
    } else {
      assert (a + b)[..|a + b| - 1] == a + b[..|b| - 1];
      KeptConcat(shop, overwrite, a, b[..|b| - 1]);
    }
  }

  method Enqueue(t: Target, ghost queue: seq<Target>, spaces: seq<Id>, work: map<Id, seq<Target>>)
      returns (spaces': seq<Id>, work': map<Id, seq<Target>>)
    requires Planned(queue, spaces, work)
    ensures Planned(queue + [t], spaces', work')
  {
    PlannedStep(queue, spaces, work, t);
    var before := if t.space in work then work[t.space] else [];
    work' := work[t.space := before + [t]];
    spaces' := if t.space in spaces then spaces else spaces + [t.space];
  }

  function After(queue: seq<Target>, t: Target, needed: bool): (r: seq<Target>) {
    if needed then queue + [t] else queue
  }

  /** One pair: passed over when it is priced already, else queued. */
  method PlanPair(prices: map<Id, Price>, overwrite: bool, t: Target, ghost queue: seq<Target>, spaces: seq<Id>,
                  work: map<Id, seq<Target>>)
    returns (needed: bool, spaces': seq<Id>, work': map<Id, seq<Target>>)
    requires Planned(queue, spaces, work)
    ensures needed == (overwrite || t.space !in prices || prices[t.space].ttc <= 0.0)
    ensures Planned(After(queue, t, needed), spaces', work')
  {
    if !overwrite && t.space in prices && prices[t.space].ttc > 0.0 {
      return false, spaces, work;
    }
    spaces', work' := Enqueue(t, queue, spaces, work);
    needed := true;
  }

  /** The spaces of one item: pairs already priced are counted, the others are queued by space. */
  method PlanItem(shop: Shop, overwrite: bool, item: Id, product: Id, spaceIds: seq<Id>, ghost kept: seq<Target>,
                  spaces: seq<Id>,
                  work: map<Id, seq<Target>>)
    returns (spaces': seq<Id>, work': map<Id, seq<Target>>, skipped: nat)
    requires Planned(kept, spaces, work)
    ensures var ts := TargetsOn(item, product, spaceIds);
            && Planned(kept + Kept(shop, overwrite, ts), spaces', work')
            && skipped == |ts| - |Kept(shop, overwrite, ts)|
  {
    spaces', work', skipped := spaces, work, 0;
    var prices := PricesOf(shop, item);
    ghost var more: seq<Target> := [];
    assert kept + more == kept;
    for k := 0 to |spaceIds|
      invariant more == Kept(shop, overwrite, TargetsOn(item, product, spaceIds[..k]))
      invariant Planned(kept + more, spaces', work') && skipped == k - |more|
    {
      var t := Target(item, spaceIds[k], product);
      TargetsOnSnoc(shop, overwrite, item, product, spaceIds, k, more);
      var needed;
      needed, spaces', work' := PlanPair(prices, overwrite, t, kept + more, spaces', work');
      if !needed {
        skipped := skipped + 1;
      }
      AfterConcat(kept, more, t, needed);
      more := After(more, t, needed);
    }
    assert spaceIds[..|spaceIds|] == spaceIds;
    TargetsOnLength(item, product, spaceIds);
  }

  lemma {:induction false} AfterConcat(a: seq<Target>, b: seq<Target>, t: Target, needed: bool)
    ensures After(a + b, t, needed) == a + After(b, t, needed)
  {
  }

  lemma {:induction false} TargetsOnSnoc(shop: Shop, overwrite: bool, item: Id, product: Id, spaceIds: seq<Id>, k: nat,
                                         more: seq<Target>)
    requires k < |spaceIds| && more == Kept(shop, overwrite, TargetsOn(item, product, spaceIds[..k]))
    ensures var t := Target(item, spaceIds[k], product);
            Kept(shop, overwrite, TargetsOn(item, product, spaceIds[..k + 1])) ==
            After(more, t, Needs(shop, overwrite, t))
  {
    assert spaceIds[..k + 1][..k] == spaceIds[..k];
    var ts := TargetsOn(item, product, spaceIds[..k]);
    assert (ts + [Target(item, spaceIds[k], product)])[..|ts|] == ts;
  }

  lemma {:induction false} TargetsOnLength(item: Id, product: Id, spaceIds: seq<Id>)
    ensures |TargetsOn(item, product, spaceIds)| == |spaceIds|
  {
    if spaceIds != [] {
      TargetsOnLength(item, product, spaceIds[..|spaceIds| - 1]);
    }
  }

  method Plan(shop: Shop, cat: Catalogue, scan: seq<Id>, o: Options)
    returns (spaces: seq<Id>, work: map<Id, seq<Target>>, noSpace: nat, ambiguous: nat, skipped: nat)
    ensures Planned(Kept(shop, o.overwrite, Targets(shop, cat, scan, o.only)), spaces, work)
    ensures noSpace == CountNoSpace(shop, cat, scan, o.only) && ambiguous == CountAmbiguous(cat, scan)
    ensures skipped == |Targets(shop, cat, scan, o.only)| - |Kept(shop, o.overwrite, Targets(shop, cat, scan, o.only))|
  {
    spaces, work, noSpace, ambiguous, skipped := [], map[], 0, 0, 0;
    ghost var targets: nat, kept: seq<Target> := 0, [];
    for k := 0 to |scan|
      invariant targets == |Targets(shop, cat, scan[..k], o.only)|
                && kept == Kept(shop, o.overwrite, Targets(shop, cat, scan[..k], o.only))
      invariant Planned(kept, spaces, work) && skipped == targets - |kept|
      invariant noSpace == CountNoSpace(shop, cat, scan[..k], o.only) && ambiguous == CountAmbiguous(cat, scan[..k])
    {
      CountsSnoc(shop, cat, scan, k, o.only);
      TargetsSnoc(shop, cat, scan, k, o);
      ghost var ts := TargetsOf(shop, cat, scan[k], o.only);
      var product := OnlyProduct(cat, scan[k]);
      if product.None? {
        ambiguous := ambiguous + 1;
      } else {
        var spaceIds := FilterSpaces(SpaceIds(shop, scan[k]), o.only);
        if spaceIds == [] {
          noSpace := noSpace + 1;
        } else {
          var more;
          spaces, work, more := PlanItem(shop, o.overwrite, scan[k], product.value, spaceIds, kept, spaces, work);
          skipped := skipped + more;
          kept := kept + Kept(shop, o.overwrite, ts);
        }
      }
      targets := targets + |ts|;
    }
    assert scan[..|scan|] == scan;
  }

  lemma {:induction false} CountsSnoc(shop: Shop, cat: Catalogue, scan: seq<Id>, k: nat, only: Option<Id>)
    requires k < |scan|
    ensures CountAmbiguous(cat, scan[..k + 1]) == CountAmbiguous(cat, scan[..k]) + if OnlyProduct(cat, scan[k]).None?
            then 1 else 0
    ensures CountNoSpace(shop, cat, scan[..k + 1], only) == CountNoSpace(shop, cat, scan[..k], only) +
            if OnlyProduct(cat, scan[k]).Some? && SpacesOf(SpaceIds(shop, scan[k]), only) == [] then 1 else 0
  {
    assert scan[..k + 1][..k] == scan[..k];
  }

  lemma {:induction false} TargetsSnoc(shop: Shop, cat: Catalogue, scan: seq<Id>, k: nat, o: Options)
    requires k < |scan|
    ensures var before, more, now := Targets(shop, cat, scan[..k], o.only), TargetsOf(shop, cat, scan[k], o.only),
            Targets(shop, cat, scan[..k + 1], o.only);
            && |now| == |before| + |more|
            && Kept(shop, o.overwrite, now) == Kept(shop, o.overwrite, before) + Kept(shop, o.overwrite, more)
            && (more == [] ==> Kept(shop, o.overwrite, now) == Kept(shop, o.overwrite, before))
  {
    assert scan[..k + 1][..k] == scan[..k];
    KeptConcat(shop, o.overwrite, Targets(shop, cat, scan[..k], o.only), TargetsOf(shop, cat, scan[k], o.only));
  }

  // ----- 3: the rows, and the working prices ---------------------------------------------------------

  /** What has been collected for the pairs applied so far. */
  ghost predicate Collected(shop: Shop, sales: SalesTable, applied: seq<Target>, rows: seq<WriteOp>, touched: seq<Id>,
                            current: map<Id, map<Id, Price>>) {
    && (forall t :: t in applied ==> Sold(sales, t))
    && rows == Rows(sales, applied) && touched == Touched(applied)
    && (forall i :: i in current <==> i in touched)
    && (forall i :: i in current ==> current[i] == Filled(PricesOf(shop, i), sales, applied, i))
  }

  lemma {:induction false} CollectedStep(shop: Shop, sales: SalesTable, applied: seq<Target>, rows: seq<WriteOp>,
                                         touched: seq<Id>, current: map<Id, map<Id, Price>>, t: Target)
    requires Collected(shop, sales, applied, rows, touched, current) && Sold(sales, t)
    ensures var prices := if t.item in current then current[t.item] else PricesOf(shop, t.item);
            Collected(shop, sales, applied + [t], rows + [SaleRow(sales, t)], if t.item in touched then touched
                      else touched + [t.item],
                      current[t.item := prices[t.space := SalePrice(sales, t.space, t.product).value]])
  {
    var now := applied + [t];
    assert now[..|applied|] == applied;
    if t.item !in touched {
      TouchedAre(applied, t.item);
      FilledNone(PricesOf(shop, t.item), sales, applied, t.item);
    }
  }

  lemma {:induction false} SoldSnoc(sales: SalesTable, ts: seq<Target>, t: Target)
    ensures Sold(sales, t) ==> SoldOnly(sales, ts + [t]) == SoldOnly(sales, ts) + [t]
    ensures !Sold(sales, t) ==> SoldOnly(sales, ts + [t]) == SoldOnly(sales, ts)
  {
  }

  /** A pair with a sale: its row, its item's working prices, and its item among those touched. */
  method CollectPair(shop: Shop, sales: SalesTable, t: Target, ghost done: seq<Target>, rows: seq<WriteOp>,
                     touched: seq<Id>, current: map<Id, map<Id, Price>>)
    returns (rows': seq<WriteOp>, touched': seq<Id>, current': map<Id, map<Id, Price>>)
    requires Collected(shop, sales, done, rows, touched, current) && Sold(sales, t)
    ensures Collected(shop, sales, done + [t], rows', touched', current')
  {
    CollectedStep(shop, sales, done, rows, touched, current, t);
    var price := SalePrice(sales, t.space, t.product).value;
    var prices := if t.item in current then current[t.item] else PricesOf(shop, t.item);
    current' := current[t.item := prices[t.space := price]];
    touched' := if t.item in touched then touched else touched + [t.item];
    rows' := rows + [AddHistory(t.item, Some(t.space), price, Sales, t.product)];
  }

  lemma {:induction false} OneMorePair(before: seq<Target>, pairs: seq<Target>, k: nat)
    requires k < |pairs|
    ensures before + pairs[..k] + [pairs[k]] == before + pairs[..k + 1]
  {
  }

  /** The pairs of one space. */
  method CollectSpace(shop: Shop, sales: SalesTable, pairs: seq<Target>, ghost before: seq<Target>, rows: seq<WriteOp>,
                      touched: seq<Id>, current: map<Id, map<Id, Price>>)
    returns (rows': seq<WriteOp>, touched': seq<Id>, current': map<Id, map<Id, Price>>, applied: nat, noSales: nat)
    requires Collected(shop, sales, SoldOnly(sales, before), rows, touched, current)
    ensures Collected(shop, sales, SoldOnly(sales, before + pairs), rows', touched', current')
    ensures applied == |SoldOnly(sales, before + pairs)| - |SoldOnly(sales, before)| && noSales == |pairs| - applied
  {
    rows', touched', current', applied, noSales := rows, touched, current, 0, 0;
    ghost var done, sold := before, SoldOnly(sales, before);
    for k := 0 to |pairs|
      invariant done == before + pairs[..k] && sold == SoldOnly(sales, done)
      invariant Collected(shop, sales, sold, rows', touched', current')
      invariant applied == |sold| - |SoldOnly(sales, before)| && noSales == k - applied
    {
      var t := pairs[k];
      SoldSnoc(sales, done, t);
      var price := SalePrice(sales, t.space, t.product);
      if price.None? || price.value.ttc <= 0.0 {
        noSales := noSales + 1;
      } else {
        rows', touched', current' := CollectPair(shop, sales, t, sold, rows', touched', current');
        sold := sold + [t];
        applied := applied + 1;
      }
      OneMorePair(before, pairs, k);
      done := done + [t];
    }
    assert before + pairs[..|pairs|] == before + pairs;
  }

  method Collect(shop: Shop, sales: SalesTable, ghost kept: seq<Target>, spaces: seq<Id>, work: map<Id, seq<Target>>)
    returns (rows: seq<WriteOp>, touched: seq<Id>, current: map<Id, map<Id, Price>>, applied: nat, noSales: nat)
    requires Planned(kept, spaces, work)
    ensures Collected(shop, sales, SoldOnly(sales, Grouped(kept)), rows, touched, current)
    ensures applied == |SoldOnly(sales, Grouped(kept))| && noSales == |Grouped(kept)| - applied
  {
    rows, touched, current, applied, noSales := [], [], map[], 0, 0;
    ghost var done: seq<Target> := [];
    for k := 0 to |spaces|
      invariant done == Concat(kept, spaces[..k])
      invariant Collected(shop, sales, SoldOnly(sales, done), rows, touched, current)
      invariant applied == |SoldOnly(sales, done)| && noSales == |done| - applied
    {
      assert spaces[k] in spaces;
      ConcatSnoc(kept, spaces, k);
      var more, none;
      rows, touched, current, more, none := CollectSpace(shop, sales, work[spaces[k]], done, rows, touched, current);
      applied, noSales, done := applied + more, noSales + none, done + work[spaces[k]];
    }
    assert spaces[..|spaces|] == spaces;
  }

  lemma {:induction false} ConcatSnoc(ts: seq<Target>, spaces: seq<Id>, k: nat)
    requires k < |spaces|
    ensures Concat(ts, spaces[..k + 1]) == Concat(ts, spaces[..k]) + OfSpace(ts, spaces[k])
  {
    assert spaces[..k + 1][..k] == spaces[..k];
  }

  // ----- 4, 5: the updates, and the transactions -------------------------------------------------------

  method CollectUpdates(ghost shop: Shop, ghost sales: SalesTable, ghost applied: seq<Target>,
                        ghost rows: seq<WriteOp>, touched: seq<Id>, current: map<Id, map<Id, Price>>)
    returns (ws: seq<WriteOp>)
    requires Collected(shop, sales, applied, rows, touched, current)
    ensures ws == Updates(shop, sales, applied, touched)
  {
    ws := [];
    for k := 0 to |touched|
      invariant ws == Updates(shop, sales, applied, touched[..k])
    {
      assert touched[..k + 1][..k] == touched[..k] && touched[k] in touched;
      ws := ws + [SetSpacePrices(touched[k], current[touched[k]])];
    }
    assert touched[..|touched|] == touched;
  }

  /** How far the writes are once `k` transactions are through. */
  function Through(ws: seq<WriteOp>, k: nat): (i: nat)
    ensures i <= |ws|
  {
    if k * ChunkSize < |ws| then k * ChunkSize else |ws|
  }

  /** The tables after `k` transactions; no item has changed before every history row is there. */
  ghost predicate SafeStop(shop: Shop, sales: SalesTable, applied: seq<Target>, ws: seq<WriteOp>, k: nat, now: Shop)
    requires (forall t :: t in applied ==> Sold(sales, t)) && AllAccepted(ws)
  {
    && now == Committed(shop, ws[..Through(ws, k)])
    && (now.items != shop.items ==> AllRowsIn(shop, now, sales, applied))
  }

  lemma {:induction false} NextStop(shop: Shop, sales: SalesTable, applied: seq<Target>, ws: seq<WriteOp>, k: nat)
    requires (forall t :: t in applied ==> Sold(sales, t)) && ws == Writes(shop, sales, applied)
    ensures var i, end := Through(ws, k), Through(ws, k + 1);
            && i <= end && AllAccepted(ws[..i]) && AllAccepted(ws[i..end])
            && SafeStop(shop, sales, applied, ws, k + 1, Committed(Committed(shop, ws[..i]), ws[i..end]))
  {
    var i, end := Through(ws, k), Through(ws, k + 1);
    CommittedConcat(shop, ws[..i], ws[i..end]);
    assert ws[..i] + ws[i..end] == ws[..end];
    HistoryComesFirst(shop, sales, applied, end);
  }

  /**
   Transactions of 25 writes. `stops` are the tables before the first, between any two and after the
   last: at none of them has an item changed before every history row is there.
   */
  method CommitInChunks(tables: Tables, ghost sales: SalesTable, ghost applied: seq<Target>, ws: seq<WriteOp>)
    returns (ghost stops: seq<Shop>)
    requires (forall t :: t in applied ==> Sold(sales, t)) && ws == Writes(tables.Contents(), sales, applied)
    modifies tables
    ensures tables.Contents() == Committed(old(tables.Contents()), ws)
    ensures stops != [] && Through(ws, |stops| - 1) == |ws| && stops[|stops| - 1] == tables.Contents()
    ensures forall k :: 0 <= k < |stops| ==> SafeStop(old(tables.Contents()), sales, applied, ws, k, stops[k])
  {
    ghost var shop := tables.Contents();
    stops := [shop];
    var k := 0;
    while k * ChunkSize < |ws|
      invariant |stops| == k + 1 && stops[k] == tables.Contents() && (k == 0 || (k - 1) * ChunkSize < |ws|)
      invariant forall j :: 0 <= j <= k ==> SafeStop(shop, sales, applied, ws, j, stops[j])
      decreases |ws| - k * ChunkSize
    {
      NextStop(shop, sales, applied, ws, k);
      var _ := tables.Commit(ws[Through(ws, k)..Through(ws, k + 1)]);
      stops := stops + [tables.Contents()];
      k := k + 1;
    }
    assert ws[..|ws|] == ws;
  }

  /**
   `backfillWeezeventPrices`: the counters are those of the tables as they were, dry run or not; a dry
   run writes nothing.
   */
  method BackfillWeezeventPrices(tables: Tables, cat: Catalogue, sales: SalesTable, scan: seq<Id>, o: Options,
                                 dryRun: bool) returns (s: Summary)
    modifies tables
    ensures s == SummaryOf(old(tables.Contents()), cat, sales, scan, o)
    ensures tables.Contents() == if dryRun then old(tables.Contents())
            else Backfilled(old(tables.Contents()), cat, sales, scan, o)
  {
    var shop := tables.Contents();
    ghost var ts := Targets(shop, cat, scan, o.only);
    ghost var kept := Kept(shop, o.overwrite, ts);
    var spaces, work, noSpace, ambiguous, skipped := Plan(shop, cat, scan, o);
    var rows, touched, current, applied, noSales := Collect(shop, sales, kept, spaces, work);
    ghost var pairs := SoldOnly(sales, Grouped(kept));
    var updates := CollectUpdates(shop, sales, pairs, rows, touched, current);
    if !dryRun {
      ghost var _ := CommitInChunks(tables, sales, pairs, rows + updates);
    }
    CountersAgree(shop, cat, sales, scan, o);
    s := Summary(|scan|, |touched|, applied, noSpace, noSales, skipped, ambiguous);
  }

  lemma {:induction false} CountersAgree(shop: Shop, cat: Catalogue, sales: SalesTable, scan: seq<Id>, o: Options)
    ensures var ts, s := Targets(shop, cat, scan, o.only), SummaryOf(shop, cat, sales, scan, o);
            var kept := Kept(shop, o.overwrite, ts);
            && s.applied == |SoldOnly(sales, Grouped(kept))|
            && s.noSales == |Grouped(kept)| - s.applied
            && s.alreadyPriced == |ts| - |kept|
  {
    var ts := Targets(shop, cat, scan, o.only);
    var kept := Kept(shop, o.overwrite, ts);
    AppliedCount(shop, cat, sales, scan, o);
    ClassesPartition(shop, o.overwrite, sales, ts);
    GroupedIsPermutation(kept);
    assert |multiset(Grouped(kept))| == |Grouped(kept)| && |multiset(kept)| == |kept|;
  }

  /** Every targeted pair is counted once: as applied, without sales, or already priced. */
  lemma {:induction false} EveryPairCounted(shop: Shop, cat: Catalogue, sales: SalesTable, scan: seq<Id>, o: Options)
    ensures var s := SummaryOf(shop, cat, sales, scan, o);
            s.applied + s.noSales + s.alreadyPriced == |Targets(shop, cat, scan, o.only)|
  {
    ClassesPartition(shop, o.overwrite, sales, Targets(shop, cat, scan, o.only));
  }

  /** A second run that does not overwrite, with the same prices, applies no pair and touches no item. */
  lemma {:induction false} SecondRunCountsNone(shop: Shop, cat: Catalogue, sales: SalesTable, scan: seq<Id>,
                                               o: Options, scan2: seq<Id>)
    requires forall i :: i in scan2 ==> i in scan && i in shop.items
    ensures var again := SummaryOf(Backfilled(shop, cat, sales, scan, o), cat, sales, scan2, Options(o.only, false));
            again.applied == 0 && again.touched == 0
  {
    SecondAppliesNothing(shop, cat, sales, scan, o, scan2);
    AppliedCount(Backfilled(shop, cat, sales, scan, o), cat, sales, scan2, Options(o.only, false));
  }
}
