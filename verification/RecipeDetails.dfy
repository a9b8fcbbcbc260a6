/**
 What recipes are costed from, read off the tables alone: which unit cost an ingredient line is priced at, what a
 refresh writes on each line, and what an edit stores.
 */
module RecipeDetails {
  import opened Common
  import opened Columns
  import opened RecipeCost
  import opened RecipeRefresh
  import opened RecipeColumns
  import opened RecipeEdits

  // ----- The price of a line --------------------------------------------------------------------------------

  /** The line has a unit cost of its own, other than 0. */
  predicate OwnCost(line: IngredientLine) {
    line.unitCost.Some? && line.unitCost.value != 0.0
  }

  predicate LiveIngredient(t: Tables, i: Id) {
    i in t.ingredients && t.ingredients[i].live
  }

  /** What the ingredient costs; nothing stored counts as 0. */
  function IngredientPrice(t: Tables, i: Id): (x: real)
    requires i in t.ingredients
  {
    match t.ingredients[i].costPerRecipeUnit
    case Some(x) => x
    case None => 0.0
  }

  /** Both tables have the ingredient live at the same price, or neither has it live. */
  predicate SamePrice(t: Tables, u: Tables, i: Id) {
    && (LiveIngredient(t, i) <==> LiveIngredient(u, i))
    && (LiveIngredient(t, i) ==> IngredientPrice(t, i) == IngredientPrice(u, i))
  }

  /**
   A cost does not depend on the ingredients of lines with a unit cost of their own: neither on their prices nor on
   whether they are live.
   */
  lemma {:induction false} OwnCostsNeedNoPrice(t: Tables, u: Tables, id: Id, stack: seq<Id>, exact: bool)
    requires t.components == u.components
    requires forall c, l :: c in t.components && l in t.components[c].ingredients && !OwnCost(l) ==>
               SamePrice(t, u, l.ingredient)
    ensures UnitCost(t, id, stack, exact) == UnitCost(u, id, stack, exact)
  {
    forall c | c in t.components ensures SameRecipe(t, u, t.components[c], u.components[c]) {
      var lines := t.components[c].ingredients;
      forall k | 0 <= k < |lines| ensures EffectiveCost(t, lines[k]) == EffectiveCost(u, lines[k]) {
        assert lines[k] in lines;
      }
    }
    SameUnitCost(t, u, id, stack, exact);
  }

  /** Without a unit cost of its own, a line needs its ingredient to be live. */
  lemma {:induction false} PriceableIff(t: Tables, id: Id)
    ensures Priceable(t, id) <==>
              Live(t, id) && forall l :: l in t.components[id].ingredients ==>
                OwnCost(l) || LiveIngredient(t, l.ingredient)
  {
  }

  /** So a component with a line that has neither cannot be costed, nor can one that is made of it. */
  lemma {:induction false} NoPriceNoCost(t: Tables, id: Id, stack: seq<Id>, exact: bool, p: seq<Id>, l: IngredientLine)
    requires Path(t, p) && p[0] == id && Live(t, p[|p| - 1]) && l in t.components[p[|p| - 1]].ingredients
    requires !OwnCost(l) && !LiveIngredient(t, l.ingredient)
    ensures UnitCost(t, id, stack, exact).Err?
  {
    SucceedsIff(t, id, stack, exact);
    PriceableIff(t, p[|p| - 1]);
    assert p[|p| - 1] in p && !Clean(t, p, stack);
  }

  // ----- What a refresh writes --------------------------------------------------------------------------------

  /** The line refreshed: its own unit cost or else its ingredient's price, and that times the quantity, rounded. */
  ghost predicate LineRefreshed(t: Tables, was: IngredientLine, now: IngredientLine) {
    && now.ingredient == was.ingredient && now.quantity == was.quantity
    && (OwnCost(was) || LiveIngredient(t, was.ingredient))
    && now.unitCost == Some(if OwnCost(was) then was.unitCost.value else IngredientPrice(t, was.ingredient))
    && now.cost == Some(RoundedProduct(now.unitCost.value, was.quantity))
  }

  function RoundedProduct(price: real, quantity: real): (x: real) {
    Round4(price * quantity)
  }

  lemma {:induction false} RoundedTimes(price: real, quantity: real)
    ensures Round4(Times(price, quantity)) == RoundedProduct(price, quantity)
  {
  }

  /** A child line gets the child's own cost times the quantity, rounded. */
  ghost predicate ChildRefreshed(t: Tables, was: ChildLine, now: ChildLine) {
    && now.child == was.child && now.quantity == was.quantity
    && UnitCost(t, was.child, [], false).Ok?
    && now.cost == Some(RoundedProduct(UnitCost(t, was.child, [], false).value, was.quantity))
  }

  function LineSum(lines: seq<IngredientLine>): (x: real) {
    if lines == [] then 0.0
    else LineSum(lines[..|lines| - 1]) + Product(lines[|lines| - 1].unitCost.GetOr(0.0), lines[|lines| - 1].quantity)
  }

  function Product(a: real, b: real): (x: real) {
    a * b
  }

  lemma {:induction false} TimesIsProduct(a: real, b: real)
    ensures Times(a, b) == Product(a, b)
  {
  }

  /** The children's part, from the costs of the children. */
  ghost function ChildSum(t: Tables, lines: seq<ChildLine>): (x: real) {
    if lines == [] then 0.0
    else
      var last := lines[|lines| - 1];
      ChildSum(t, lines[..|lines| - 1]) + Product(Amount(UnitCost(t, last.child, [], false)), last.quantity)
  }

  lemma {:induction false} LineSumIs(t: Tables, lines: seq<IngredientLine>, costed: seq<IngredientLine>)
    requires IngredientTotal(t, lines).Ok? && |costed| == |lines|
    requires forall k :: 0 <= k < |lines| ==> costed[k] == CostedIngredient(t, lines[k])
    ensures LineSum(costed) == IngredientTotal(t, lines).value
  {
    if lines != [] {
      var n := |lines| - 1;
      LineSumIs(t, lines[..n], costed[..n]);
      TimesIsProduct(EffectiveCost(t, lines[n]).value, lines[n].quantity);
    }
  }

  lemma {:induction false} ChildSumIs(t: Tables, id: Id, lines: seq<ChildLine>)
    requires ChildTotal(t, lines, [id], false).Ok?
    requires forall l :: l in lines ==> UnitCost(t, l.child, [], false) == UnitCost(t, l.child, [id], false)
    ensures ChildSum(t, lines) == ChildTotal(t, lines, [id], false).value
  {
    if lines != [] {
      var n := |lines| - 1;
      assert lines[n] in lines && forall l :: l in lines[..n] ==> l in lines;
      ChildSumIs(t, id, lines[..n]);
      TimesIsProduct(UnitCost(t, lines[n].child, [id], false).value, lines[n].quantity);
    }
  }

  lemma {:induction false} LineIsRefreshed(t: Tables, line: IngredientLine)
    requires EffectiveCost(t, line).Ok?
    ensures LineRefreshed(t, line, CostedIngredient(t, line))
  {
    RoundedTimes(EffectiveCost(t, line).value, line.quantity);
  }

  lemma {:induction false} LinesAreRefreshed(t: Tables, id: Id)
    requires UnitCost(t, id, [], false).Ok?
    ensures var was, now := t.components[id], Costed(t, id);
            forall k :: 0 <= k < |was.ingredients| ==> LineRefreshed(t, was.ingredients[k], now.ingredients[k])
  {
    var was, now := t.components[id], Costed(t, id);
    IngredientTotalOk(t, was.ingredients);
    forall k | 0 <= k < |was.ingredients| ensures LineRefreshed(t, was.ingredients[k], now.ingredients[k]) {
      assert was.ingredients[k] in was.ingredients;
      LineIsRefreshed(t, was.ingredients[k]);
    }
  }

  lemma {:induction false} ChildrenCost(t: Tables, id: Id)
    requires UnitCost(t, id, [], false).Ok?
    ensures forall l :: l in t.components[id].children ==>
              UnitCost(t, l.child, [], false) == UnitCost(t, l.child, [id], false)
              && UnitCost(t, l.child, [], false).Ok?
  {
    assert [] + [id] == [id];
    ChildTotalOk(t, t.components[id].children, [id], false);
    forall l | l in t.components[id].children
      ensures UnitCost(t, l.child, [], false) == UnitCost(t, l.child, [id], false)
              && UnitCost(t, l.child, [], false).Ok?
    {
      ChildOfOk(t, id, l.child, false);
    }
  }

  lemma {:induction false} ChildrenAreRefreshed(t: Tables, id: Id)
    requires UnitCost(t, id, [], false).Ok?
    ensures var was, now := t.components[id], Costed(t, id);
            forall k :: 0 <= k < |was.children| ==> ChildRefreshed(t, was.children[k], now.children[k])
  {
    var was, now := t.components[id], Costed(t, id);
    ChildrenCost(t, id);
    forall k | 0 <= k < |was.children| ensures ChildRefreshed(t, was.children[k], now.children[k]) {
      assert was.children[k] in was.children;
      RoundedTimes(UnitCost(t, was.children[k].child, [], false).value, was.children[k].quantity);
    }
  }

  lemma {:induction false} UnitCostIs(t: Tables, id: Id)
    requires UnitCost(t, id, [], false).Ok?
    ensures var was, now := t.components[id], Costed(t, id);
            now.unitCost == Some(Round4(LineSum(now.ingredients) + ChildSum(t, was.children)))
  {
    assert [] + [id] == [id];
    ChildrenCost(t, id);
    LineSumIs(t, t.components[id].ingredients, Costed(t, id).ingredients);
    ChildSumIs(t, id, t.components[id].children);
  }

  /**
   Refreshing a component that can be costed: every line as above, and as the unit cost the lines' unit costs times
   their quantities plus the children's costs times theirs, rounded once. Nothing else changes.
   */
  lemma {:induction false} RefreshWrites(t: Tables, id: Id)
    requires UnitCost(t, id, [], false).Ok?
    ensures id in t.components && id in Refreshed(t, {id}).components
    ensures var was, now := t.components[id], Refreshed(t, {id}).components[id];
            && |now.ingredients| == |was.ingredients| && |now.children| == |was.children| && now.live == was.live
            && (forall k :: 0 <= k < |was.ingredients| ==> LineRefreshed(t, was.ingredients[k], now.ingredients[k]))
            && (forall k :: 0 <= k < |was.children| ==> ChildRefreshed(t, was.children[k], now.children[k]))
            && now.unitCost == Some(Round4(LineSum(now.ingredients) + ChildSum(t, was.children)))
    ensures Refreshed(t, {id}).components == t.components[id := Refreshed(t, {id}).components[id]]
            && Refreshed(t, {id}).ingredients == t.ingredients
  {
    LinesAreRefreshed(t, id);
    ChildrenAreRefreshed(t, id);
    UnitCostIs(t, id);
    assert Refreshed(t, {id}).components[id] == Costed(t, id);
  }

  // ----- What an edit stores -----------------------------------------------------------------------------------

  /** These lines are for those ingredients, in those quantities. */
  predicate SameIngredientLines(now: seq<IngredientLine>, given: seq<IngredientLine>) {
    |now| == |given| && forall k :: 0 <= k < |given| ==>
      now[k].ingredient == given[k].ingredient && now[k].quantity == given[k].quantity
  }

  predicate SameChildLines(now: seq<ChildLine>, given: seq<ChildLine>) {
    |now| == |given| && forall k :: 0 <= k < |given| ==>
      now[k].child == given[k].child && now[k].quantity == given[k].quantity
  }

  /** The component has the lines given, and where none were given those it had; nothing else has changed. */
  ghost predicate Edited(t: Tables, u: Tables, id: Id, ingredients: Option<seq<IngredientLine>>,
                         children: Option<seq<ChildLine>>) {
    && u.ingredients == t.ingredients && id in u.components && u.components.Keys == t.components.Keys + {id}
    && (forall x :: x in t.components && x != id ==> u.components[x] == t.components[x])
    && var was := if id in t.components then t.components[id] else Component(true, [], [], None);
       && u.components[id].live
       && SameIngredientLines(u.components[id].ingredients, ingredients.GetOr(was.ingredients))
       && SameChildLines(u.components[id].children, children.GetOr(was.children))
  }

  lemma {:induction false} RefreshKeepsLines(t: Tables, id: Id)
    requires Live(t, id)
    ensures var u := RefreshOne(t, id).tables;
            && u.ingredients == t.ingredients && u.components.Keys == t.components.Keys && u.components[id].live
            && (forall x :: x in t.components && x != id ==> u.components[x] == t.components[x])
            && SameIngredientLines(u.components[id].ingredients, t.components[id].ingredients)
            && SameChildLines(u.components[id].children, t.components[id].children)
  {
  }

  lemma {:induction false} StoreEdits(t: Tables, id: Id, c: Component, ingredients: Option<seq<IngredientLine>>,
                                      children: Option<seq<ChildLine>>, unitCost: Option<real>)
    requires c.live && (if id in t.components then c == t.components[id] else c == Component(true, [], [], None))
    ensures var r := Store(t, id, c, ingredients, children, unitCost);
            if Accepted(t, ingredients, children, unitCost) then Edited(t, r.tables, id, ingredients, children)
            else r.tables == t && r.error.Some?
  {
    if Accepted(t, ingredients, children, unitCost) {
      var u := t.(components := t.components[id := Written(c, ingredients, children, unitCost)]);
      RefreshKeepsLines(u, id);
    }
  }

  /**
   What an edit leaves, failed or not: an accepted one has stored the lines it gives, in order, and only those; one
   that is not, or that edits a component that is not live, changes nothing.
   */
  lemma {:induction false} EditStores(t: Tables, e: Edit)
    requires e.Create? ==> e.id !in t.components
    ensures var r := Apply(t, e);
            match e
            case Create(id, ingredients, children, unitCost) =>
              if Accepted(t, ingredients, children, unitCost) then Edited(t, r.tables, id, ingredients, children)
              else r.tables == t && r.error.Some?
            case Update(id, ingredients, children, unitCost) =>
              if Live(t, id) && Accepted(t, ingredients, children, unitCost)
              then Edited(t, r.tables, id, ingredients, children) else r.tables == t && r.error.Some?
            case ReplaceIngredients(id, lines) =>
              if Live(t, id) && Accepted(t, Some(lines), None, None)
              then Edited(t, r.tables, id, Some(lines), None) else r.tables == t && r.error.Some?
            case ReplaceChildren(id, lines) =>
              if Live(t, id) && Accepted(t, None, Some(lines), None)
              then Edited(t, r.tables, id, None, Some(lines)) else r.tables == t && r.error.Some?
            case Remove(id) =>
              if Live(t, id)
              then r == Outcome(t.(components := t.components[id := t.components[id].(live := false)]), None)
              else r.tables == t && r.error.Some?
  {
    match e
    case Create(id, ingredients, children, unitCost) =>
      StoreEdits(t, id, Component(true, [], [], None), ingredients, children, unitCost);
    case Update(id, ingredients, children, unitCost) =>
      if Live(t, id) {
        StoreEdits(t, id, t.components[id], ingredients, children, unitCost);
      }
    case ReplaceIngredients(id, lines) =>
      if Live(t, id) {
        StoreEdits(t, id, t.components[id], Some(lines), None, None);
      }
    case ReplaceChildren(id, lines) =>
      if Live(t, id) {
        StoreEdits(t, id, t.components[id], None, Some(lines), None);
      }
    case Remove(id) =>
  }

  /**
   What is accepted: lines for live ingredients and of live components, none twice, whose costs are below a million
   once rounded to four decimals.
   */
  lemma {:induction false} AcceptedIff(t: Tables, ingredients: seq<IngredientLine>, children: seq<ChildLine>,
                                       unitCost: Option<real>)
    ensures Accepted(t, Some(ingredients), Some(children), unitCost) <==>
              && (forall l :: l in ingredients ==> LiveIngredient(t, l.ingredient))
              && (forall l :: l in children ==> l.child in t.components && t.components[l.child].live)
              && (forall i, j :: 0 <= i < j < |ingredients| ==> ingredients[i].ingredient != ingredients[j].ingredient)
              && (forall i, j :: 0 <= i < j < |children| ==> children[i].child != children[j].child)
              && (forall l :: l in ingredients ==> SmallCost(l.unitCost) && SmallCost(l.cost))
              && (forall l :: l in children ==> SmallCost(l.cost)) && SmallCost(unitCost)
    ensures Accepted(t, None, Some(children), unitCost) <==> Accepted(t, Some([]), Some(children), unitCost)
    ensures Accepted(t, Some(ingredients), None, unitCost) <==> Accepted(t, Some(ingredients), Some([]), unitCost)
  {
    forall x: real ensures Fits(x) <==> -999999.99995 < x < 999999.99995 {
      FitsIff(x);
    }
  }

  predicate SmallCost(x: Option<real>) {
    x.Some? ==> -999999.99995 < x.value < 999999.99995
  }

  lemma {:induction false} FitsIff(x: real)
    ensures Fits(x) <==> -999999.99995 < x < 999999.99995
  {
    var k := Nearest(10000.0 * x);
    assert Fits(x) <==> -10000000000 < k < 10000000000;
  }

  /** `y` is `x` to four decimals; a half goes up, or away from zero. */
  predicate FourDecimals(x: real, y: real, away: bool) {
    && (10000.0 * y).Floor as real == 10000.0 * y
    && if x < 0.0 && away then y - 0.00005 < x <= y + 0.00005 else y - 0.00005 <= x < y + 0.00005
  }

  /** The code rounds halves up. */
  lemma {:induction false} Round4Is(x: real)
    ensures FourDecimals(x, Round4(x), false)
  {
    var k := (10000.0 * x + 0.5).Floor;
    assert 10000.0 * Round4(x) == k as real;
  }

  /** The columns round them away from zero. */
  lemma {:induction false} ColumnIs(x: real)
    ensures FourDecimals(x, ToColumn(x), true)
  {
    var k := Nearest(10000.0 * x);
    assert 10000.0 * ToColumn(x) == k as real;
    if x >= 0.0 {
      assert k as real <= 10000.0 * x + 0.5 < k as real + 1.0;
    } else {
      assert -k as real <= 0.5 - 10000.0 * x < -k as real + 1.0;
    }
  }

  predicate CostKept(given: Option<real>, now: Option<real>) {
    (given.Some? <==> now.Some?) && (given.Some? ==> FourDecimals(given.value, now.value, true))
  }

  predicate IngredientLinesKept(given: seq<IngredientLine>, now: seq<IngredientLine>) {
    SameIngredientLines(now, given) && forall k :: 0 <= k < |given| ==>
      CostKept(given[k].unitCost, now[k].unitCost) && CostKept(given[k].cost, now[k].cost)
  }

  predicate ChildLinesKept(given: seq<ChildLine>, now: seq<ChildLine>) {
    SameChildLines(now, given) && forall k :: 0 <= k < |given| ==> CostKept(given[k].cost, now[k].cost)
  }

  /** What is written before any refresh: what is given, its costs as columns keep them, and the rest as it was. */
  ghost predicate WrittenAs(t: Tables, u: Tables, id: Id, ingredients: Option<seq<IngredientLine>>,
                            children: Option<seq<ChildLine>>, unitCost: Option<real>) {
    && u.ingredients == t.ingredients && id in u.components && u.components.Keys == t.components.Keys + {id}
    && (forall x :: x in t.components && x != id ==> u.components[x] == t.components[x])
    && var was, now := if id in t.components then t.components[id] else Component(true, [], [], None), u.components[id];
       && now.live
       && (if ingredients.Some? then IngredientLinesKept(ingredients.value, now.ingredients)
           else now.ingredients == was.ingredients)
       && (if children.Some? then ChildLinesKept(children.value, now.children) else now.children == was.children)
       && (if unitCost.Some? then CostKept(unitCost, now.unitCost) else now.unitCost == was.unitCost)
  }

  lemma {:induction false} WrittenIs(c: Component, ingredients: Option<seq<IngredientLine>>,
                                     children: Option<seq<ChildLine>>, unitCost: Option<real>)
    ensures var now := Written(c, ingredients, children, unitCost);
            && now.live == c.live
            && (if ingredients.Some? then IngredientLinesKept(ingredients.value, now.ingredients)
                else now.ingredients == c.ingredients)
            && (if children.Some? then ChildLinesKept(children.value, now.children) else now.children == c.children)
            && (if unitCost.Some? then CostKept(unitCost, now.unitCost) else now.unitCost == c.unitCost)
  {
    forall x: real ensures FourDecimals(x, ToColumn(x), true) {
      ColumnIs(x);
    }
  }

  /** Then the component is refreshed, when it was given any lines; a refresh that fails leaves what was written. */
  ghost predicate WrittenAndRefreshed(t: Tables, r: Outcome, id: Id, ingredients: Option<seq<IngredientLine>>,
                                      children: Option<seq<ChildLine>>, unitCost: Option<real>) {
    exists u :: WrittenAs(t, u, id, ingredients, children, unitCost)
                && if ingredients.None? && children.None? then r == Outcome(u, None)
                   else if AllRefresh(u, {id}) then r == Outcome(Refreshed(u, {id}), None)
                   else r.tables == u && r.error.Some?
  }

  lemma {:induction false} StoreWrites(t: Tables, id: Id, c: Component, ingredients: Option<seq<IngredientLine>>,
                                       children: Option<seq<ChildLine>>, unitCost: Option<real>)
    requires c.live && (if id in t.components then c == t.components[id] else c == Component(true, [], [], None))
    requires Accepted(t, ingredients, children, unitCost)
    ensures var r := Store(t, id, c, ingredients, children, unitCost);
            WrittenAndRefreshed(t, r, id, ingredients, children, unitCost)
  {
    var u := t.(components := t.components[id := Written(c, ingredients, children, unitCost)]);
    WrittenIs(c, ingredients, children, unitCost);
    assert WrittenAs(t, u, id, ingredients, children, unitCost);
    assert AllRefresh(u, {id}) <==> RefreshError(u, id).None?;
  }

  /** Why lines are refused: an ingredient first, then a component, then a line given twice, then a cost too large. */
  ghost predicate Refusal(t: Tables, ingredients: seq<IngredientLine>, children: seq<ChildLine>, e: Error) {
    if exists l :: l in ingredients && !LiveIngredient(t, l.ingredient) then e == InvalidIngredients
    else if exists l :: l in children && !(l.child in t.components && t.components[l.child].live)
    then e == InvalidChildren
    else if (exists i, j :: 0 <= i < j < |ingredients| && ingredients[i].ingredient == ingredients[j].ingredient)
            || (exists i, j :: 0 <= i < j < |children| && children[i].child == children[j].child)
    then e == DuplicateLine
    else e == Overflow
  }

  /**
   An edit that gives lines or a unit cost to a live component, or creates one: accepted, it writes them and
   refreshes; else it says why not.
   */
  lemma {:induction false} EditWrites(t: Tables, e: Edit)
    requires !e.Remove? && (if e.Create? then e.id !in t.components else Live(t, e.id))
    ensures var r := Apply(t, e);
            var ingredients := match e
                               case Create(_, lines, _, _) => lines
                               case Update(_, lines, _, _) => lines
                               case ReplaceIngredients(_, lines) => Some(lines)
                               case _ => None;
            var children := match e
                            case Create(_, _, lines, _) => lines
                            case Update(_, _, lines, _) => lines
                            case ReplaceChildren(_, lines) => Some(lines)
                            case _ => None;
            var unitCost := if e.Create? || e.Update? then e.unitCost else None;
            if Accepted(t, ingredients, children, unitCost)
            then WrittenAndRefreshed(t, r, e.id, ingredients, children, unitCost)
            else r.tables == t && r.error.Some?
                 && Refusal(t, ingredients.GetOr([]), children.GetOr([]), r.error.value)
  {
    match e
    case Create(id, ingredients, children, unitCost) =>
      StoreResult(t, id, Component(true, [], [], None), ingredients, children, unitCost);
    case Update(id, ingredients, children, unitCost) =>
      StoreResult(t, id, t.components[id], ingredients, children, unitCost);
    case ReplaceIngredients(id, lines) =>
      StoreResult(t, id, t.components[id], Some(lines), None, None);
    case ReplaceChildren(id, lines) =>
      StoreResult(t, id, t.components[id], None, Some(lines), None);
  }

  lemma {:induction false} StoreResult(t: Tables, id: Id, c: Component, ingredients: Option<seq<IngredientLine>>,
                                       children: Option<seq<ChildLine>>, unitCost: Option<real>)
    requires c.live && (if id in t.components then c == t.components[id] else c == Component(true, [], [], None))
    ensures var r := Store(t, id, c, ingredients, children, unitCost);
            if Accepted(t, ingredients, children, unitCost)
            then WrittenAndRefreshed(t, r, id, ingredients, children, unitCost)
            else r.tables == t && r.error.Some?
                 && Refusal(t, ingredients.GetOr([]), children.GetOr([]), r.error.value)
  {
    if Accepted(t, ingredients, children, unitCost) {
      StoreWrites(t, id, c, ingredients, children, unitCost);
    }
  }
}
