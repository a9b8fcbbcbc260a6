/**
 The columns recipe costs are stored in (schema.prisma, `MenuComponent`, `ComponentIngredient`,
 `ComponentComponent`, `Ingredient`): ten digits, four of them decimals. They round what they are given,
 and the database refuses what does not fit, so that its statement or transaction fails.
 */
module RecipeColumns {
  import opened Common
  import opened Columns
  import opened RecipeCost
  import opened RecipeRefresh

  function ToColumn(x: real): (r: real) {
    Nearest(10000.0 * x) as real / 10000.0
  }

  predicate Fits(x: real) {
    Below(ToColumn(x), 1000000.0)
  }

  /** What a cost column can hold. */
  predicate InColumn(x: real) {
    ToColumn(x) == x && Fits(x)
  }

  lemma {:induction false} Decimals(k: int)
    ensures ToColumn(k as real / 10000.0) == k as real / 10000.0
  {
    assert 10000.0 * (k as real / 10000.0) == k as real;
    NearestOf(k);
  }

  /** The column changes nothing more in a number it or the code has rounded. */
  lemma {:induction false} RoundedStays(x: real)
    ensures ToColumn(ToColumn(x)) == ToColumn(x) && ToColumn(Round4(x)) == Round4(x)
  {
    Decimals(Nearest(10000.0 * x));
    Decimals((10000.0 * x + 0.5).Floor);
  }

  function Column(x: Option<real>): (r: Option<real>) {
    if x.Some? then Some(ToColumn(x.value)) else None
  }

  predicate CostFits(x: Option<real>) {
    x.Some? ==> Fits(x.value)
  }

  predicate CostStored(x: Option<real>) {
    x.Some? ==> InColumn(x.value)
  }

  lemma {:induction false} ColumnStored(x: Option<real>)
    ensures CostFits(x) ==> CostStored(Column(x))
    ensures CostStored(x) ==> Column(x) == x && CostFits(x)
  {
    if x.Some? {
      RoundedStays(x.value);
    }
  }

  // ----- Lines, components and tables --------------------------------------------------------------------

  predicate LinesFit(ingredients: seq<IngredientLine>, children: seq<ChildLine>) {
    && (forall l :: l in ingredients ==> CostFits(l.unitCost) && CostFits(l.cost))
    && (forall l :: l in children ==> CostFits(l.cost))
  }

  predicate LinesStored(ingredients: seq<IngredientLine>, children: seq<ChildLine>) {
    && (forall l :: l in ingredients ==> CostStored(l.unitCost) && CostStored(l.cost))
    && (forall l :: l in children ==> CostStored(l.cost))
  }

  function StoredIngredients(lines: seq<IngredientLine>): (r: seq<IngredientLine>) {
    seq(|lines|, k requires 0 <= k < |lines| =>
      lines[k].(unitCost := Column(lines[k].unitCost), cost := Column(lines[k].cost)))
  }

  function StoredChildren(lines: seq<ChildLine>): (r: seq<ChildLine>) {
    seq(|lines|, k requires 0 <= k < |lines| => lines[k].(cost := Column(lines[k].cost)))
  }

  /** Lines that fit are stored, and stored lines are stored as they are. */
  lemma {:induction false} StoredLines(ingredients: seq<IngredientLine>, children: seq<ChildLine>)
    ensures LinesFit(ingredients, children) ==> LinesStored(StoredIngredients(ingredients), StoredChildren(children))
    ensures LinesStored(ingredients, children) ==>
              LinesFit(ingredients, children)
              && StoredIngredients(ingredients) == ingredients && StoredChildren(children) == children
  {
    forall l | l in ingredients
      ensures CostFits(l.unitCost) ==> CostStored(Column(l.unitCost))
      ensures CostFits(l.cost) ==> CostStored(Column(l.cost))
      ensures CostStored(l.unitCost) ==> Column(l.unitCost) == l.unitCost && CostFits(l.unitCost)
      ensures CostStored(l.cost) ==> Column(l.cost) == l.cost && CostFits(l.cost)
    {
      ColumnStored(l.unitCost);
      ColumnStored(l.cost);
    }
    forall l | l in children
      ensures CostFits(l.cost) ==> CostStored(Column(l.cost))
      ensures CostStored(l.cost) ==> Column(l.cost) == l.cost && CostFits(l.cost)
    {
      ColumnStored(l.cost);
    }
  }

  predicate ComponentStored(c: Component) {
    LinesStored(c.ingredients, c.children) && CostStored(c.unitCost)
  }

  ghost predicate SuppliesStored(supplies: map<Id, Ingredient>) {
    forall i :: i in supplies ==> CostStored(supplies[i].costPerRecipeUnit)
  }

  /** Every cost in the tables is what a column can hold: so it is in the database, always. */
  ghost predicate Stored(t: Tables) {
    SuppliesStored(t.ingredients) && forall c :: c in t.components ==> ComponentStored(t.components[c])
  }

  // ----- A refresh stores its costs -----------------------------------------------------------------------

  predicate CostsFit(c: Component) {
    LinesFit(c.ingredients, c.children) && CostFits(c.unitCost)
  }

  /** Why refreshing one component fails, if it does: it cannot be costed, or a cost does not fit its column. */
  function RefreshError(t: Tables, id: Id): (e: Option<Error>) {
    var cost := UnitCost(t, id, [], false);
    if cost.Err? then Some(cost.error) else if !CostsFit(Costed(t, id)) then Some(Overflow) else None
  }

  predicate AllRefresh(t: Tables, ids: set<Id>) {
    forall c :: c in ids ==> RefreshError(t, c).None?
  }

  /** What a refresh writes, when it fits, is stored as it was computed. */
  lemma {:induction false} CostedStored(t: Tables, id: Id)
    requires Stored(t) && RefreshError(t, id).None?
    ensures ComponentStored(Costed(t, id))
  {
    var before, c := t.components[id], Costed(t, id);
    forall k | 0 <= k < |c.ingredients|
      ensures CostStored(c.ingredients[k].unitCost) && CostStored(c.ingredients[k].cost)
    {
      assert c.ingredients[k] in c.ingredients;
      CostedLineStored(t, before.ingredients[k]);
    }
    forall k | 0 <= k < |c.children| ensures CostStored(c.children[k].cost) {
      assert c.children[k] in c.children;
      RoundedStays(Times(Amount(UnitCost(t, before.children[k].child, [id], false)), before.children[k].quantity));
    }
    UnitCostDecimals(t, id);
  }

  lemma {:induction false} UnitCostDecimals(t: Tables, id: Id)
    requires UnitCost(t, id, [], false).Ok?
    ensures var x := UnitCost(t, id, [], false).value; ToColumn(x) == x
  {
    RoundedStays(IngredientTotal(t, t.components[id].ingredients).value +
                 ChildTotal(t, t.components[id].children, [] + [id], false).value);
  }

  lemma {:induction false} CostedLineStored(t: Tables, line: IngredientLine)
    requires SuppliesStored(t.ingredients) && CostStored(line.unitCost)
    requires var costed := CostedIngredient(t, line); CostFits(costed.unitCost) && CostFits(costed.cost)
    ensures var costed := CostedIngredient(t, line); CostStored(costed.unitCost) && CostStored(costed.cost)
  {
    RoundedStays(Times(Amount(EffectiveCost(t, line)), line.quantity));
    Decimals(0);
  }

  lemma {:induction false} RefreshedStored(t: Tables, done: set<Id>)
    requires Stored(t) && AllRefresh(t, done)
    ensures Stored(Refreshed(t, done))
  {
    forall c | c in t.components ensures ComponentStored(Refreshed(t, done).components[c]) {
      if c in done {
        CostedStored(t, c);
      }
    }
  }

  /** Refreshing some components does not change whether another can be refreshed, nor why not. */
  lemma {:induction false} RefreshErrorKept(t: Tables, done: set<Id>, id: Id)
    requires AllCost(t, done)
    ensures RefreshError(Refreshed(t, done), id) == RefreshError(t, id)
  {
    RefreshKeepsRecipes(t, done);
    SameUnitCost(t, Refreshed(t, done), id, [], false);
    if UnitCost(t, id, [], false).Ok? {
      CostedSame(t, done, id);
    }
  }

  /** A recipe can have a cost, and its refresh fail: two of an ingredient at 999999 do not fit. */
  lemma {:induction false} CostedButTooLarge(id: Id, ingredient: Id)
    ensures var t := Tables(map[id := Component(true, [IngredientLine(ingredient, 2.0, None, None)], [], None)],
                            map[ingredient := Ingredient(true, Some(999999.0))]);
            && Stored(t) && UnitCost(t, id, [], false) == Ok(1999998.0) && RefreshError(t, id) == Some(Overflow)
  {
    var line := IngredientLine(ingredient, 2.0, None, None);
    var t := Tables(map[id := Component(true, [line], [], None)], map[ingredient := Ingredient(true, Some(999999.0))]);
    Decimals(9999990000);
    Decimals(19999980000);
    assert [line][..0] == [];
    assert IngredientTotal(t, [line]) == Ok(1999998.0);
    assert ChildTotal(t, [], [] + [id], false) == Ok(0.0);
    assert Round4(1999998.0) == 1999998.0;
    assert UnitCost(t, id, [], false) == Ok(1999998.0);
  }
}
