/**
 The cost of a menu item, from the stored unit costs of its components, ingredients and
 packagings (menu-items.service.ts, `refreshCosts`).
 */
module MenuItemCost {
  import opened Common
  import opened RecipeCost
  import opened RecipeRefresh
  import opened Columns
  import opened RecipeColumns

  datatype ItemLine = ItemLine(item: Id, units: real, unitCost: Option<real>, totalCost: Option<real>)
  datatype MenuItem = MenuItem(live: bool, basePrice: real, components: seq<ItemLine>, ingredients: seq<ItemLine>,
                               packagings: seq<ItemLine>, totalCost: Option<real>, margin: Option<real>)

  /** Unit costs by id, as loaded in one query: live rows only, a missing cost counting as 0. */
  function ComponentCosts(t: Tables): (m: map<Id, real>) {
    map c | c in t.components && t.components[c].live :: t.components[c].unitCost.GetOr(0.0)
  }

  function SupplyCosts(supplies: map<Id, Ingredient>): (m: map<Id, real>) {
    map c | c in supplies && supplies[c].live :: supplies[c].costPerRecipeUnit.GetOr(0.0)
  }

  /** A line whose cost is known is updated; another is left as it was. */
  function CostedLine(line: ItemLine, costs: map<Id, real>): (r: ItemLine) {
    if line.item !in costs then line
    else line.(unitCost := Some(costs[line.item]), totalCost := Some(Round4(Times(costs[line.item], line.units))))
  }

  function CostedLines(lines: seq<ItemLine>, costs: map<Id, real>): (r: seq<ItemLine>) {
    seq(|lines|, k requires 0 <= k < |lines| => CostedLine(lines[k], costs))
  }

  /** The rounded line totals of the lines whose cost is known. */
  function LinesTotal(lines: seq<ItemLine>, costs: map<Id, real>): (r: real) {
    if lines == [] then 0.0
    else
      var n := |lines| - 1;
      LinesTotal(lines[..n], costs) +
      if lines[n].item in costs then Round4(Times(costs[lines[n].item], lines[n].units)) else 0.0
  }

  function Margin(basePrice: real, total: real): (m: Option<real>) {
    if basePrice > 0.0 then Some((basePrice - total) / basePrice * 100.0) else None
  }

  datatype Costs = Costs(components: map<Id, real>, ingredients: map<Id, real>, packagings: map<Id, real>)

  function LoadedCosts(t: Tables, packagings: map<Id, Ingredient>): (costs: Costs) {
    Costs(ComponentCosts(t), SupplyCosts(t.ingredients), SupplyCosts(packagings))
  }

  function CostedItem(item: MenuItem, costs: Costs): (r: MenuItem) {
    var c, i, p := costs.components, costs.ingredients, costs.packagings;
    var total := LinesTotal(item.components, c) + LinesTotal(item.ingredients, i) + LinesTotal(item.packagings, p);
    MenuItem(item.live, item.basePrice, CostedLines(item.components, c), CostedLines(item.ingredients, i),
             CostedLines(item.packagings, p), Some(total), Margin(item.basePrice, total))
  }

  function SelectedItems(items: map<Id, MenuItem>, itemIds: seq<Id>): (s: set<Id>) {
    set x | x in items && items[x].live && (itemIds == [] || x in itemIds)
  }

  /** Every item costed from one load of the tables. */
  function CostedItems(items: map<Id, MenuItem>, costs: Costs): (r: map<Id, MenuItem>) {
    map x | x in items :: CostedItem(items[x], costs)
  }

  /** The items of `done` as in `costed`, the others as they were: no order is left in it. */
  function RefreshedItems(items: map<Id, MenuItem>, costed: map<Id, MenuItem>, done: set<Id>): (r: map<Id, MenuItem>) {
    map x | x in items :: if x in done && x in costed then costed[x] else items[x]
  }

  // ----- The columns of menu items --------------------------------------------------------------------------

  /** Totals have two digits more than unit costs. */
  predicate TotalFits(x: Option<real>) {
    x.Some? ==> Below(ToColumn(x.value), 100000000.0)
  }

  predicate TotalStored(x: Option<real>) {
    TotalFits(x) && Column(x) == x
  }

  predicate ItemLinesFit(lines: seq<ItemLine>) {
    forall l :: l in lines ==> CostFits(l.unitCost) && TotalFits(l.totalCost)
  }

  predicate ItemLinesStored(lines: seq<ItemLine>) {
    forall l :: l in lines ==> CostStored(l.unitCost) && TotalStored(l.totalCost)
  }

  function StoredItemLines(lines: seq<ItemLine>): (r: seq<ItemLine>) {
    seq(|lines|, k requires 0 <= k < |lines| =>
      lines[k].(unitCost := Column(lines[k].unitCost), totalCost := Column(lines[k].totalCost)))
  }

  predicate ItemFits(item: MenuItem) {
    && ItemLinesFit(item.components) && ItemLinesFit(item.ingredients) && ItemLinesFit(item.packagings)
    && TotalFits(item.totalCost)
  }

  predicate ItemStored(item: MenuItem) {
    && ItemLinesStored(item.components) && ItemLinesStored(item.ingredients) && ItemLinesStored(item.packagings)
    && TotalStored(item.totalCost)
  }

  ghost predicate AllStored(items: map<Id, MenuItem>) {
    forall x :: x in items ==> ItemStored(items[x])
  }

  function StoredItem(item: MenuItem): (r: MenuItem) {
    item.(components := StoredItemLines(item.components), ingredients := StoredItemLines(item.ingredients),
          packagings := StoredItemLines(item.packagings), totalCost := Column(item.totalCost))
  }

  /** Costs of four decimals. */
  ghost predicate CostsStored(costs: Costs) {
    Rounded4(costs.components) && Rounded4(costs.ingredients) && Rounded4(costs.packagings)
  }

  ghost predicate Rounded4(costs: map<Id, real>) {
    forall c :: c in costs ==> ToColumn(costs[c]) == costs[c]
  }

  lemma {:induction false} LoadedCostsStored(t: Tables, packagings: map<Id, Ingredient>)
    requires Stored(t) && SuppliesStored(packagings)
    ensures CostsStored(LoadedCosts(t, packagings))
  {
    Decimals(0);
  }

  lemma {:induction false} SumStays(a: real, b: real)
    requires ToColumn(a) == a && ToColumn(b) == b
    ensures ToColumn(a + b) == a + b
  {
    Decimals(Nearest(10000.0 * a) + Nearest(10000.0 * b));
  }

  lemma {:induction false} LinesTotalStays(lines: seq<ItemLine>, costs: map<Id, real>)
    ensures ToColumn(LinesTotal(lines, costs)) == LinesTotal(lines, costs)
  {
    Decimals(0);
    if lines != [] {
      var n := |lines| - 1;
      LinesTotalStays(lines[..n], costs);
      if lines[n].item in costs {
        var cost := Times(costs[lines[n].item], lines[n].units);
        RoundedStays(cost);
        SumStays(LinesTotal(lines[..n], costs), Round4(cost));
      }
    }
  }

  /** Costed lines that fit are stored as they were computed. */
  lemma {:induction false} CostedLinesStored(lines: seq<ItemLine>, costs: map<Id, real>)
    requires Rounded4(costs) && ItemLinesStored(lines) && ItemLinesFit(CostedLines(lines, costs))
    ensures ItemLinesStored(CostedLines(lines, costs))
    ensures StoredItemLines(CostedLines(lines, costs)) == CostedLines(lines, costs)
  {
    var costed := CostedLines(lines, costs);
    forall k | 0 <= k < |costed| ensures CostStored(costed[k].unitCost) && TotalStored(costed[k].totalCost) {
      assert costed[k] in costed && lines[k] in lines;
      if lines[k].item in costs {
        RoundedStays(Times(costs[lines[k].item], lines[k].units));
      }
    }
    forall k | 0 <= k < |costed| ensures StoredItemLines(costed)[k] == costed[k] {
      ColumnStored(costed[k].unitCost);
    }
  }

  lemma {:induction false} CostedItemStored(item: MenuItem, costs: Costs)
    requires CostsStored(costs) && ItemStored(item) && ItemFits(CostedItem(item, costs))
    ensures ItemStored(CostedItem(item, costs)) && StoredItem(CostedItem(item, costs)) == CostedItem(item, costs)
  {
    var c, i, p := costs.components, costs.ingredients, costs.packagings;
    CostedLinesStored(item.components, c);
    CostedLinesStored(item.ingredients, i);
    CostedLinesStored(item.packagings, p);
    LinesTotalStays(item.components, c);
    LinesTotalStays(item.ingredients, i);
    LinesTotalStays(item.packagings, p);
    SumStays(LinesTotal(item.components, c), LinesTotal(item.ingredients, i));
    SumStays(LinesTotal(item.components, c) + LinesTotal(item.ingredients, i), LinesTotal(item.packagings, p));
  }

  predicate AllFit(costed: map<Id, MenuItem>, ids: set<Id>) {
    forall x :: x in ids && x in costed ==> ItemFits(costed[x])
  }

  /** What one more turn of the refresh loop meets, and what it makes of it. */
  lemma {:induction false} NextItemRefreshed(items: map<Id, MenuItem>, costed: map<Id, MenuItem>, done: set<Id>, id: Id)
    requires id in items && id in costed && id !in done
    ensures var before := RefreshedItems(items, costed, done);
            && id in before && before[id] == items[id]
            && before[id := costed[id]] == RefreshedItems(items, costed, done + {id})
    ensures AllFit(costed, done + {id}) <==> AllFit(costed, done) && ItemFits(costed[id])
  {
  }

  lemma {:induction false} NoItemRefreshed(items: map<Id, MenuItem>, costed: map<Id, MenuItem>)
    ensures RefreshedItems(items, costed, {}) == items && AllFit(costed, {})
  {
  }

  /** The refresh stopped at entry `k` of the order, whose costs do not fit, with the entries before it refreshed. */
  ghost predicate ItemsStoppedAt(items: map<Id, MenuItem>, after: map<Id, MenuItem>, costed: map<Id, MenuItem>,
                                 order: seq<Id>, k: nat)
    requires k < |order|
  {
    && AllFit(costed, Members(order[..k])) && after == RefreshedItems(items, costed, Members(order[..k]))
    && order[k] in costed && !ItemFits(costed[order[k]])
  }

  /** The live items asked for, all of them when none are named, are as in `costed`; the others as they were. */
  ghost predicate OnlyThese(items: map<Id, MenuItem>, after: map<Id, MenuItem>, costed: map<Id, MenuItem>,
                            itemIds: seq<Id>) {
    && after.Keys == items.Keys
    && forall x :: x in items && x in costed && x in after ==>
         after[x] == if items[x].live && (itemIds == [] || x in itemIds) then costed[x] else items[x]
  }

  lemma {:induction false} SelectedAre(items: map<Id, MenuItem>, costed: map<Id, MenuItem>, itemIds: seq<Id>)
    ensures OnlyThese(items, RefreshedItems(items, costed, SelectedItems(items, itemIds)), costed, itemIds)
  {
  }

  class ItemStore {
    var items: map<Id, MenuItem>
    var tables: Tables
    var packagings: map<Id, Ingredient>

    /** Every cost is what its column can hold. */
    ghost predicate Valid()
      reads this
    {
      Stored(tables) && SuppliesStored(packagings) && AllStored(items)
    }

    /** One of the three line loops: the updated lines and what they add to the total. */
    method CostLines(lines: seq<ItemLine>, costs: map<Id, real>) returns (updated: seq<ItemLine>, total: real)
      ensures updated == CostedLines(lines, costs) && total == LinesTotal(lines, costs)
    {
      updated, total := [], 0.0;
      for k := 0 to |lines|
        invariant |updated| == k && forall j :: 0 <= j < k ==> updated[j] == CostedLine(lines[j], costs)
        invariant total == LinesTotal(lines[..k], costs)
      {
        var line := lines[k];
        assert lines[..k + 1][..k] == lines[..k];
        if line.item in costs {
          var lineTotal := Round4(Times(costs[line.item], line.units));
          total := total + lineTotal;
          line := line.(unitCost := Some(costs[line.item]), totalCost := Some(lineTotal));
        }
        updated := updated + [line];
      }
      assert lines[..|lines|] == lines;
    }

    /** The lines, total and margin of one item. */
    method CostItem(item: MenuItem, costs: Costs) returns (costed: MenuItem)
      ensures costed == CostedItem(item, costs)
    {
      var componentLines, c := CostLines(item.components, costs.components);
      var ingredientLines, i := CostLines(item.ingredients, costs.ingredients);
      var packLines, p := CostLines(item.packagings, costs.packagings);
      var total := c + i + p;
      costed := MenuItem(item.live, item.basePrice, componentLines, ingredientLines, packLines, Some(total),
                         Margin(item.basePrice, total));
    }

    /** One turn of the refresh loop: all the item's updates in one transaction, or none. */
    method RefreshItem(id: Id, item: MenuItem, costs: Costs) returns (ok: bool)
      requires AllStored(items) && CostsStored(costs) && id in items && items[id] == item
      modifies this`items
      ensures AllStored(items)
      ensures ok <==> ItemFits(CostedItem(item, costs))
      ensures items == if ok then old(items)[id := CostedItem(item, costs)] else old(items)
    {
      var costed := CostItem(item, costs);
      ok := ItemFits(costed);
      if ok {
        CostedItemStored(item, costs);
        items := items[id := StoredItem(costed)];
      }
    }

    /**
     Every selected item gets its lines, total and margin from one load of the cost tables, in one transaction
     for each item. All succeed exactly when every cost fits its column; otherwise the items before the first
     one that does not fit have been refreshed.
     */
    method RefreshCosts(itemIds: seq<Id>, order: seq<Id>) returns (r: Result<nat, Error>)
      requires Valid() && Enumerates(order, SelectedItems(items, itemIds))
      modifies this`items
      ensures Valid()
      ensures var costed := CostedItems(old(items), LoadedCosts(tables, packagings));
              && (r.Ok? <==> AllFit(costed, SelectedItems(old(items), itemIds)))
              && (r.Ok? ==> r.value == |order|)
              && (r.Ok? ==> items == RefreshedItems(old(items), costed, SelectedItems(old(items), itemIds)))
              && (r.Ok? ==> OnlyThese(old(items), items, costed, itemIds))
              && (r.Err? ==> r.error == Overflow)
              && (r.Err? ==> exists k :: 0 <= k < |order| && ItemsStoppedAt(old(items), items, costed, order, k))
    {
      var costs := LoadedCosts(tables, packagings);
      LoadedCostsStored(tables, packagings);
      ghost var before := items;
      var stopped := RefreshInOrder(order, costs);
      assert Members(order) == SelectedItems(before, itemIds);
      if stopped < |order| {
        return Err(Overflow);
      }
      assert order[..|order|] == order;
      SelectedAre(before, CostedItems(before, costs), itemIds);
      return Ok(|order|);
    }

    /** The refresh loop; it ends where an item does not fit, or at the end. */
    method RefreshInOrder(order: seq<Id>, costs: Costs) returns (stopped: nat)
      requires AllStored(items) && CostsStored(costs) && Distinct(order) && forall x :: x in order ==> x in items
      modifies this`items
      ensures AllStored(items) && stopped <= |order|
      ensures var costed := CostedItems(old(items), costs);
              if stopped < |order| then ItemsStoppedAt(old(items), items, costed, order, stopped)
              else AllFit(costed, Members(order)) && items == RefreshedItems(old(items), costed, Members(order))
    {
      var loaded := items;
      ghost var costed := CostedItems(loaded, costs);
      assert Members(order[..0]) == {};
      NoItemRefreshed(loaded, costed);
      for k := 0 to |order|
        invariant AllStored(items)
        invariant items == RefreshedItems(loaded, costed, Members(order[..k]))
        invariant AllFit(costed, Members(order[..k]))
      {
        var id := order[k];
        assert id in order;
        NextMember(order, k);
        NextItemRefreshed(loaded, costed, Members(order[..k]), id);
        var ok := RefreshItem(id, loaded[id], costs);
        if !ok {
          return k;
        }
      }
      assert order[..|order|] == order;
      return |order|;
    }
  }

  // ----- The bound a menu item inherits ---------------------------------------------------

  /** The lines' total without any rounding, for the given exact unit costs. */
  function ExactTotal(lines: seq<ItemLine>, exact: map<Id, real>): (r: real) {
    if lines == [] then 0.0
    else
      var n := |lines| - 1;
      ExactTotal(lines[..n], exact) + if lines[n].item in exact then Times(exact[lines[n].item], lines[n].units)
          else 0.0
  }

  /** 0.00005 for each line whose cost is known, and |units| times the error of its unit cost. */
  function LinesError(lines: seq<ItemLine>, errors: map<Id, real>): (e: real) {
    if lines == [] then 0.0
    else
      var n := |lines| - 1;
      LinesError(lines[..n], errors) +
      if lines[n].item in errors then PlusBound(0.00005, errors[lines[n].item], lines[n].units) else 0.0
  }

  lemma {:induction false} LinesClose(lines: seq<ItemLine>, costs: map<Id, real>, exact: map<Id, real>, errors: map<Id,
                                      real>)
    requires costs.Keys == exact.Keys == errors.Keys
    requires forall x :: x in costs ==> Abs(costs[x] - exact[x]) <= errors[x]
    ensures Abs(LinesTotal(lines, costs) - ExactTotal(lines, exact)) <= LinesError(lines, errors)
  {
    if lines != [] {
      var n := |lines| - 1;
      LinesClose(lines[..n], costs, exact, errors);
      if lines[n].item in costs {
        var x, q := lines[n].item, lines[n].units;
        RoundedLineClose(costs[x], exact[x], errors[x], q);
        Triangle(LinesTotal(lines[..n], costs), ExactTotal(lines[..n], exact), LinesError(lines[..n], errors),
                 Round4(Times(costs[x], q)), Times(exact[x], q), PlusBound(0.00005, errors[x], q));
      }
    }
  }

  lemma {:induction false} RoundedLineClose(cost: real, exact: real, e: real, q: real)
    requires Abs(cost - exact) <= e
    ensures Abs(Round4(Times(cost, q)) - Times(exact, q)) <= PlusBound(0.00005, e, q)
  {
    ScaledError(cost, exact, e, q);
    Triangle(Round4(Times(cost, q)) - Times(cost, q), 0.0, 0.00005, Times(cost, q), Times(exact, q), Abs(q) * e);
  }

  function ExactComponentCosts(t: Tables): (m: map<Id, real>) {
    map c | c in t.components && t.components[c].live :: Amount(UnitCost(t, c, [], true))
  }

  function ComponentErrors(t: Tables): (m: map<Id, real>) {
    map c | c in t.components && t.components[c].live :: ErrorBound(t, c, [])
  }

  function NoErrors(costs: map<Id, real>): (m: map<Id, real>) {
    map c | c in costs :: 0.0
  }

  lemma {:induction false} FreshComponentsClose(t: Tables, u: Tables)
    requires AllCost(t, LiveComponents(t)) && u == Refreshed(t, LiveComponents(t))
    ensures ComponentCosts(u).Keys == ExactComponentCosts(u).Keys == ComponentErrors(u).Keys
    ensures forall c :: c in ComponentCosts(u) ==>
              Abs(ComponentCosts(u)[c] - ExactComponentCosts(u)[c]) <= ComponentErrors(u)[c]
  {
    forall c | c in ComponentCosts(u)
        ensures Abs(ComponentCosts(u)[c] - ExactComponentCosts(u)[c]) <= ComponentErrors(u)[c] {
      assert Live(t, c);
      StoredWithinBound(t, c);
      CloseAt(u, c, StoredCost(u, c), UnitCost(u, c, [], true), ErrorBound(u, c, []));
    }
  }

  lemma {:induction false} CloseAt(u: Tables, c: Id, stored: Cost, exact: Cost, error: real)
    requires Live(u, c) && stored == StoredCost(u, c) && exact == UnitCost(u, c, [], true)
             && error == ErrorBound(u, c, [])
    requires stored.Ok? && exact.Ok? && Abs(stored.value - exact.value) <= error
    ensures c in ComponentCosts(u) && Abs(ComponentCosts(u)[c] - ExactComponentCosts(u)[c]) <= ComponentErrors(u)[c]
  {
    CostsAt(u, c);
  }

  lemma {:induction false} CostsAt(u: Tables, c: Id)
    requires Live(u, c)
    ensures c in ComponentCosts(u) && c in ExactComponentCosts(u) && c in ComponentErrors(u)
    ensures ExactComponentCosts(u)[c] == Amount(UnitCost(u, c, [], true))
            && ComponentErrors(u)[c] == ErrorBound(u, c, [])
    ensures ComponentCosts(u)[c] == u.components[c].unitCost.GetOr(0.0)
  {
  }

  function ExactItemTotal(item: MenuItem, t: Tables, packagings: map<Id, Ingredient>): (r: real) {
    ExactTotal(item.components, ExactComponentCosts(t)) + ExactTotal(item.ingredients, SupplyCosts(t.ingredients)) +
    ExactTotal(item.packagings, SupplyCosts(packagings))
  }

  function ItemError(item: MenuItem, t: Tables, packagings: map<Id, Ingredient>): (e: real) {
    LinesError(item.components, ComponentErrors(t)) +
        LinesError(item.ingredients, NoErrors(SupplyCosts(t.ingredients))) +
    LinesError(item.packagings, NoErrors(SupplyCosts(packagings)))
  }

  /** The total of a menu item on freshly refreshed component costs is within its lines' bounds of the exact cost. */
  lemma {:induction false} ItemWithinBound(item: MenuItem, t: Tables, packagings: map<Id, Ingredient>)
    requires AllCost(t, LiveComponents(t))
    ensures var u := Refreshed(t, LiveComponents(t));
            Abs(CostedItem(item, LoadedCosts(u, packagings)).totalCost.value - ExactItemTotal(item, u, packagings))
            <= ItemError(item, u, packagings)
  {
    var u := Refreshed(t, LiveComponents(t));
    FreshComponentsClose(t, u);
    ComponentLinesClose(item.components, u);
    SupplyLinesClose(item.ingredients, u.ingredients);
    SupplyLinesClose(item.packagings, packagings);
  }

  lemma {:induction false} ComponentLinesClose(lines: seq<ItemLine>, u: Tables)
    requires ComponentCosts(u).Keys == ExactComponentCosts(u).Keys == ComponentErrors(u).Keys
    requires forall c :: c in ComponentCosts(u) ==>
               Abs(ComponentCosts(u)[c] - ExactComponentCosts(u)[c]) <= ComponentErrors(u)[c]
    ensures Abs(LinesTotal(lines, ComponentCosts(u)) - ExactTotal(lines, ExactComponentCosts(u))) <= LinesError(lines,
            ComponentErrors(u))
  {
    LinesClose(lines, ComponentCosts(u), ExactComponentCosts(u), ComponentErrors(u));
  }

  lemma {:induction false} SupplyLinesClose(lines: seq<ItemLine>, supplies: map<Id, Ingredient>)
    ensures var costs := SupplyCosts(supplies);
            Abs(LinesTotal(lines, costs) - ExactTotal(lines, costs)) <= LinesError(lines, NoErrors(costs))
  {
    var costs := SupplyCosts(supplies);
    LinesClose(lines, costs, costs, NoErrors(costs));
  }
}
