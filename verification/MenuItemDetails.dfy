/** What a refresh writes of a menu item, read off the item and the tables alone. */
module MenuItemDetails {
  import opened Common
  import opened RecipeCost
  import opened RecipeColumns
  import opened Columns
  import opened RecipeDetails
  import opened MenuItemCost

  // ----- Lines -----------------------------------------------------------------------------------------------

  function LiveSupplies(supplies: map<Id, Ingredient>): (s: set<Id>) {
    set i | i in supplies && supplies[i].live
  }

  function LiveRecipes(t: Tables): (s: set<Id>) {
    set c | c in t.components && t.components[c].live
  }

  /** The line with this unit cost, and that times its units, rounded. */
  predicate Repriced(was: ItemLine, now: ItemLine, price: real) {
    && now.item == was.item && now.units == was.units
    && now.unitCost == Some(price) && now.totalCost == Some(RoundedProduct(price, was.units))
  }

  /** Lines for something live get its stored unit cost, 0 if there is none; the others stay as they are. */
  predicate SupplyLinesRepriced(was: seq<ItemLine>, now: seq<ItemLine>, supplies: map<Id, Ingredient>) {
    |now| == |was| && forall k :: 0 <= k < |was| ==>
      if was[k].item in supplies && supplies[was[k].item].live
      then Repriced(was[k], now[k], match supplies[was[k].item].costPerRecipeUnit case Some(x) => x case None => 0.0)
      else now[k] == was[k]
  }

  predicate ComponentLinesRepriced(was: seq<ItemLine>, now: seq<ItemLine>, t: Tables) {
    |now| == |was| && forall k :: 0 <= k < |was| ==>
      if was[k].item in t.components && t.components[was[k].item].live
      then Repriced(was[k], now[k], match t.components[was[k].item].unitCost case Some(x) => x case None => 0.0)
      else now[k] == was[k]
  }

  lemma {:induction false} LineRepriced(line: ItemLine, costs: map<Id, real>)
    requires line.item in costs
    ensures Repriced(line, CostedLine(line, costs), costs[line.item])
  {
    RoundedTimes(costs[line.item], line.units);
  }

  lemma {:induction false} SupplyLines(lines: seq<ItemLine>, supplies: map<Id, Ingredient>)
    ensures SupplyLinesRepriced(lines, CostedLines(lines, SupplyCosts(supplies)), supplies)
  {
    forall k | 0 <= k < |lines| && lines[k].item in supplies && supplies[lines[k].item].live
      ensures Repriced(lines[k], CostedLines(lines, SupplyCosts(supplies))[k], SupplyCosts(supplies)[lines[k].item])
    {
      LineRepriced(lines[k], SupplyCosts(supplies));
    }
  }

  lemma {:induction false} ComponentLines(lines: seq<ItemLine>, t: Tables)
    ensures ComponentLinesRepriced(lines, CostedLines(lines, ComponentCosts(t)), t)
  {
    forall k | 0 <= k < |lines| && lines[k].item in t.components && t.components[lines[k].item].live
      ensures Repriced(lines[k], CostedLines(lines, ComponentCosts(t))[k], ComponentCosts(t)[lines[k].item])
    {
      LineRepriced(lines[k], ComponentCosts(t));
    }
  }

  // ----- Total and margin --------------------------------------------------------------------------------------

  /** The totals of the lines for something among `known`. */
  function SumOf(lines: seq<ItemLine>, known: set<Id>): (x: real) {
    if lines == [] then 0.0
    else
      var last := lines[|lines| - 1];
      SumOf(lines[..|lines| - 1], known) + if last.item in known then last.totalCost.GetOr(0.0) else 0.0
  }

  lemma {:induction false} SumIs(lines: seq<ItemLine>, costs: map<Id, real>)
    ensures SumOf(CostedLines(lines, costs), costs.Keys) == LinesTotal(lines, costs)
  {
    if lines != [] {
      var n := |lines| - 1;
      assert CostedLines(lines, costs)[..n] == CostedLines(lines[..n], costs);
      SumIs(lines[..n], costs);
    }
  }

  ghost predicate LinesRepriced(item: MenuItem, r: MenuItem, t: Tables, packagings: map<Id, Ingredient>) {
    && ComponentLinesRepriced(item.components, r.components, t)
    && SupplyLinesRepriced(item.ingredients, r.ingredients, t.ingredients)
    && SupplyLinesRepriced(item.packagings, r.packagings, packagings)
  }

  lemma {:induction false} LinesAre(item: MenuItem, t: Tables, packagings: map<Id, Ingredient>)
    ensures LinesRepriced(item, CostedItem(item, LoadedCosts(t, packagings)), t, packagings)
  {
    ComponentLines(item.components, t);
    SupplyLines(item.ingredients, t.ingredients);
    SupplyLines(item.packagings, packagings);
  }

  lemma {:induction false} TotalIs(item: MenuItem, t: Tables, packagings: map<Id, Ingredient>)
    ensures var r := CostedItem(item, LoadedCosts(t, packagings));
            r.totalCost == Some(SumOf(r.components, LiveRecipes(t)) + SumOf(r.ingredients, LiveSupplies(t.ingredients))
                                + SumOf(r.packagings, LiveSupplies(packagings)))
  {
    var costs := LoadedCosts(t, packagings);
    SumIs(item.components, costs.components);
    SumIs(item.ingredients, costs.ingredients);
    SumIs(item.packagings, costs.packagings);
    assert costs.components.Keys == LiveRecipes(t);
    assert costs.ingredients.Keys == LiveSupplies(t.ingredients);
    assert costs.packagings.Keys == LiveSupplies(packagings);
  }

  /**
   A menu item costed from the tables: its lines as above, as its total the sum of the totals of the lines whose cost
   is known, and as its margin the percentage of the base price that is left of it, if that is above 0.
   */
  lemma {:induction false} ItemRepriced(item: MenuItem, t: Tables, packagings: map<Id, Ingredient>)
    ensures var r := CostedItem(item, LoadedCosts(t, packagings));
            && r.live == item.live && r.basePrice == item.basePrice && LinesRepriced(item, r, t, packagings)
            && r.totalCost == Some(SumOf(r.components, LiveRecipes(t))
                                   + SumOf(r.ingredients, LiveSupplies(t.ingredients))
                                   + SumOf(r.packagings, LiveSupplies(packagings)))
            && (item.basePrice > 0.0 ==> r.margin.Some? && IsMargin(item.basePrice, r.totalCost.value, r.margin.value))
            && (item.basePrice <= 0.0 ==> r.margin.None?)
  {
    LinesAre(item, t, packagings);
    TotalIs(item, t, packagings);
    if item.basePrice > 0.0 {
      MarginIs(item.basePrice, CostedItem(item, LoadedCosts(t, packagings)).totalCost.value);
    }
  }

  /** Taking the margin off the price leaves the cost. */
  predicate IsMargin(price: real, total: real, margin: real) {
    price * (1.0 - margin / 100.0) == total
  }

  lemma {:induction false} MarginIs(price: real, total: real)
    requires price > 0.0
    ensures Margin(price, total).Some? && IsMargin(price, total, Margin(price, total).value)
  {
    var share := (price - total) / price;
    assert price * share == price - total;
    assert Margin(price, total).value / 100.0 == share;
    assert price * (1.0 - share) == price - price * share;
  }

  // ----- What fits ---------------------------------------------------------------------------------------------

  predicate SmallTotal(x: Option<real>) {
    x.Some? ==> -99999999.99995 < x.value < 99999999.99995
  }

  predicate SmallLines(lines: seq<ItemLine>) {
    forall l :: l in lines ==> SmallCost(l.unitCost) && SmallTotal(l.totalCost)
  }

  /** The database takes an item when its unit costs are below a million and its totals below a hundred million. */
  lemma {:induction false} ItemFitsIff(item: MenuItem)
    ensures ItemFits(item) <==> SmallLines(item.components) && SmallLines(item.ingredients)
                                && SmallLines(item.packagings) && SmallTotal(item.totalCost)
  {
    LinesFitIff(item.components);
    LinesFitIff(item.ingredients);
    LinesFitIff(item.packagings);
    TotalFitsIff(item.totalCost);
  }

  lemma {:induction false} LinesFitIff(lines: seq<ItemLine>)
    ensures ItemLinesFit(lines) <==> SmallLines(lines)
  {
    forall l | l in lines
      ensures CostFits(l.unitCost) <==> SmallCost(l.unitCost)
      ensures TotalFits(l.totalCost) <==> SmallTotal(l.totalCost)
    {
      if l.unitCost.Some? {
        FitsIff(l.unitCost.value);
      }
      TotalFitsIff(l.totalCost);
    }
  }

  lemma {:induction false} TotalFitsIff(x: Option<real>)
    ensures TotalFits(x) <==> SmallTotal(x)
  {
    if x.Some? {
      var k := Nearest(10000.0 * x.value);
      assert TotalFits(x) <==> -1000000000000 < k < 1000000000000;
    }
  }
}
