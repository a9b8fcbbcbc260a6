/**
 What refreshing the stored costs means (menu-components.service.ts, `refreshCosts`): every
 refreshed component gets its computed unit cost, every ingredient line its effective unit cost
 and line cost, every child line its line cost.
 */
module RecipeRefresh {
  import opened Common
  import opened RecipeCost

  function Amount(c: Cost): (r: real) {
    if c.Ok? then c.value else 0.0
  }

  function CostedIngredient(t: Tables, line: IngredientLine): (r: IngredientLine) {
    var unit := Amount(EffectiveCost(t, line));
    line.(unitCost := Some(unit), cost := Some(Round4(Times(unit, line.quantity))))
  }

  function CostedChild(t: Tables, id: Id, line: ChildLine): (r: ChildLine) {
    line.(cost := Some(Round4(Times(Amount(UnitCost(t, line.child, [id], false)), line.quantity))))
  }

  function Costed(t: Tables, id: Id): (r: Component)
    requires id in t.components
  {
    var c := t.components[id];
    Component(c.live,
              seq(|c.ingredients|, k requires 0 <= k < |c.ingredients| => CostedIngredient(t, c.ingredients[k])),
              seq(|c.children|, k requires 0 <= k < |c.children| => CostedChild(t, id, c.children[k])),
              Some(Amount(UnitCost(t, id, [], false))))
  }

  /** The tables after the components of `done` have been refreshed: no order is left in it. */
  function Refreshed(t: Tables, done: set<Id>): (u: Tables) {
    t.(components := map c | c in t.components :: if c in done then Costed(t, c) else t.components[c])
  }

  predicate AllCost(t: Tables, ids: set<Id>) {
    forall c :: c in ids ==> UnitCost(t, c, [], false).Ok?
  }

  function LiveComponents(t: Tables): (s: set<Id>) {
    set c | c in t.components && t.components[c].live
  }

  /** A refresh changes no cost: neither during it nor after it. */
  lemma {:induction false} RefreshKeepsRecipes(t: Tables, done: set<Id>)
    requires AllCost(t, done)
    ensures SameRecipes(t, Refreshed(t, done))
  {
  }

  lemma {:induction false} CostedSame(t: Tables, done: set<Id>, id: Id)
    requires AllCost(t, done) && id in t.components
    ensures Costed(Refreshed(t, done), id) == Costed(t, id)
  {
    var u := Refreshed(t, done);
    RefreshKeepsRecipes(t, done);
    SameUnitCost(t, u, id, [], false);
    var before, now := t.components[id], u.components[id];
    assert SameRecipe(t, u, before, now);
    forall k | 0 <= k < |before.children| ensures CostedChild(u, id, now.children[k]) ==
        CostedChild(t, id, before.children[k]) {
      SameUnitCost(t, u, before.children[k].child, [id], false);
    }
    forall k | 0 <= k < |before.ingredients| ensures CostedIngredient(u, now.ingredients[k]) ==
        CostedIngredient(t, before.ingredients[k]) {
      assert EffectiveCost(u, now.ingredients[k]) == EffectiveCost(t, before.ingredients[k]);
    }
    assert Costed(u, id).ingredients == Costed(t, id).ingredients;
    assert Costed(u, id).children == Costed(t, id).children;
  }

  /** Refreshing in two parts, in either order, is refreshing the union. */
  lemma {:induction false} RefreshParts(t: Tables, first: set<Id>, second: set<Id>)
    requires AllCost(t, first)
    ensures Refreshed(Refreshed(t, first), second) == Refreshed(t, first + second)
  {
    forall c | c in t.components
      ensures Refreshed(Refreshed(t, first), second).components[c] == Refreshed(t, first + second).components[c]
    {
      CostedSame(t, first, c);
    }
  }

  /** A second refresh changes nothing. */
  lemma {:induction false} RefreshIdempotent(t: Tables, done: set<Id>)
    requires AllCost(t, done)
    ensures AllCost(Refreshed(t, done), done) && Refreshed(Refreshed(t, done), done) == Refreshed(t, done)
  {
    RefreshParts(t, done, done);
    assert done + done == done;
    RefreshKeepsRecipes(t, done);
    forall c | c in done ensures UnitCost(Refreshed(t, done), c, [], false).Ok? {
      SameUnitCost(t, Refreshed(t, done), c, [], false);
    }
  }

  // ----- After a full refresh -------------------------------------------------------------

  /** The children's part of a recipe, read off their stored unit costs. */
  function StoredTotal(t: Tables, lines: seq<ChildLine>): (r: Cost) {
    if lines == [] then Ok(0.0)
    else
      var n := |lines| - 1;
      Plus(StoredTotal(t, lines[..n]), StoredCost(t, lines[n].child), lines[n].quantity)
  }

  function StoredCost(t: Tables, id: Id): (r: Cost) {
    if id in t.components && t.components[id].unitCost.Some? then Ok(t.components[id].unitCost.value)
    else Err(ComponentNotFound(id))
  }

  lemma {:induction false} StoredIsComputed(t: Tables, u: Tables, id: Id, lines: seq<ChildLine>)
    requires AllCost(t, LiveComponents(t)) && u == Refreshed(t, LiveComponents(t))
    requires ChildTotal(t, lines, [id], false).Ok?
    ensures StoredTotal(u, lines) == ChildTotal(t, lines, [id], false)
  {
    if lines != [] {
      var n := |lines| - 1;
      StoredIsComputed(t, u, id, lines[..n]);
      StackIrrelevant(t, lines[n].child, [id], [], false);
    }
  }

  /**
   After a successful full refresh every stored unit cost satisfies the recipe equation over the
   stored unit costs of its children.
   */
  lemma {:induction false} StoredRecipeEquation(t: Tables, c: Id)
    requires AllCost(t, LiveComponents(t)) && Live(t, c)
    ensures var u := Refreshed(t, LiveComponents(t));
            var own, below := IngredientTotal(u, u.components[c].ingredients), StoredTotal(u, u.components[c].children);
            own.Ok? && below.Ok? && u.components[c].unitCost == Some(Round4(own.value + below.value))
  {
    var u := Refreshed(t, LiveComponents(t));
    var before, now := t.components[c], u.components[c];
    RefreshKeepsRecipes(t, LiveComponents(t));
    assert SameRecipe(t, u, before, now) && c in LiveComponents(t);
    SameIngredientTotal(t, u, before.ingredients, now.ingredients);
    assert [] + [c] == [c];
    StoredIsComputed(t, u, c, before.children);
    SameStoredTotal(u, before.children, now.children);
  }

  /** After a successful full refresh every stored unit cost is within E of the exact recipe cost. */
  lemma {:induction false} StoredWithinBound(t: Tables, c: Id)
    requires AllCost(t, LiveComponents(t)) && Live(t, c)
    ensures var u := Refreshed(t, LiveComponents(t));
            var stored, exact := StoredCost(u, c), UnitCost(u, c, [], true);
            stored.Ok? && exact.Ok? && Abs(stored.value - exact.value) <= ErrorBound(u, c, [])
  {
    var u := Refreshed(t, LiveComponents(t));
    assert c in LiveComponents(t);
    RefreshKeepsRecipes(t, LiveComponents(t));
    SameUnitCost(t, u, c, [], false);
    WithinBound(u, c, []);
  }

  lemma {:induction false} SameStoredTotal(u: Tables, ls: seq<ChildLine>, ms: seq<ChildLine>)
    requires SameChildren(ls, ms)
    ensures StoredTotal(u, ls) == StoredTotal(u, ms)
  {
    if ls != [] {
      SameStoredTotal(u, ls[..|ls| - 1], ms[..|ls| - 1]);
    }
  }

  /** E follows its defining equation at every component that can be costed. */
  lemma {:induction false} BoundEquation(t: Tables, id: Id)
    requires UnitCost(t, id, [], false).Ok?
    ensures ErrorBound(t, id, []) == 0.00005 + ChildBounds(t, t.components[id].children)
  {
    WithinBound(t, id, []);
    assert [] + [id] == [id];
    ChildTotalOk(t, t.components[id].children, [id], true);
    forall l | l in t.components[id].children ensures ErrorBound(t, l.child, [id]) == ErrorBound(t, l.child, []) {
      ChildOfOk(t, id, l.child, true);
      BoundStackIrrelevant(t, l.child, [id], []);
    }
    SameBounds(t, t.components[id].children, id);
  }

  /** The sum over the lines of |quantity| * E(child). */
  function ChildBounds(t: Tables, lines: seq<ChildLine>): (e: real) {
    if lines == [] then 0.0
    else PlusBound(ChildBounds(t, lines[..|lines| - 1]), ErrorBound(t, lines[|lines| - 1].child, []),
                   lines[|lines| - 1].quantity)
  }

  lemma {:induction false} SameBounds(t: Tables, lines: seq<ChildLine>, id: Id)
    requires forall l :: l in lines ==> ErrorBound(t, l.child, [id]) == ErrorBound(t, l.child, [])
    ensures ChildError(t, lines, [id]) == ChildBounds(t, lines)
  {
    if lines != [] {
      SameBounds(t, lines[..|lines| - 1], id);
    }
  }

  // ----- Line costs against the unit cost -------------------------------------------------

  function IngredientLineSum(lines: seq<IngredientLine>): (r: real) {
    if lines == [] then 0.0 else IngredientLineSum(lines[..|lines| - 1]) + lines[|lines| - 1].cost.GetOr(0.0)
  }

  function ChildLineSum(lines: seq<ChildLine>): (r: real) {
    if lines == [] then 0.0 else ChildLineSum(lines[..|lines| - 1]) + lines[|lines| - 1].cost.GetOr(0.0)
  }

  /** Half a unit of the fourth decimal for each of `n` lines. */
  function Slack(n: nat): (e: real) {
    0.00005 * n as real
  }

  lemma {:induction false} OneMoreLine(a: real, b: real, n: nat, x: real)
    requires Abs(a - b) <= Slack(n)
    ensures Abs(a + Round4(x) - (b + x)) <= Slack(n + 1)
  {
  }

  lemma {:induction false} IngredientLinesClose(t: Tables, lines: seq<IngredientLine>, costed: seq<IngredientLine>)
    requires IngredientTotal(t, lines).Ok? && |costed| == |lines|
    requires forall k :: 0 <= k < |lines| ==> costed[k] == CostedIngredient(t, lines[k])
    ensures Abs(IngredientLineSum(costed) - IngredientTotal(t, lines).value) <= Slack(|lines|)
  {
    if lines != [] {
      var n := |lines| - 1;
      IngredientLinesClose(t, lines[..n], costed[..n]);
      OneMoreLine(IngredientLineSum(costed[..n]), IngredientTotal(t, lines[..n]).value, n,
                  Times(EffectiveCost(t, lines[n]).value, lines[n].quantity));
    }
  }

  lemma {:induction false} ChildLinesClose(t: Tables, id: Id, lines: seq<ChildLine>, costed: seq<ChildLine>)
    requires ChildTotal(t, lines, [id], false).Ok? && |costed| == |lines|
    requires forall k :: 0 <= k < |lines| ==> costed[k] == CostedChild(t, id, lines[k])
    ensures Abs(ChildLineSum(costed) - ChildTotal(t, lines, [id], false).value) <= Slack(|lines|)
  {
    if lines != [] {
      var n := |lines| - 1;
      ChildLinesClose(t, id, lines[..n], costed[..n]);
      OneMoreLine(ChildLineSum(costed[..n]), ChildTotal(t, lines[..n], [id], false).value, n,
                  Times(UnitCost(t, lines[n].child, [id], false).value, lines[n].quantity));
    }
  }

  /** The line costs shown for a refreshed component add up to its unit cost, within 0.00005 a line and once more. */
  lemma {:induction false} LinesAddUp(t: Tables, id: Id)
    requires UnitCost(t, id, [], false).Ok?
    ensures var c := Costed(t, id);
            Abs(IngredientLineSum(c.ingredients) + ChildLineSum(c.children) - c.unitCost.value)
            <= Slack(|c.ingredients| + |c.children| + 1)
  {
    var b, c := t.components[id], Costed(t, id);
    assert [] + [id] == [id];
    IngredientLinesClose(t, b.ingredients, c.ingredients);
    ChildLinesClose(t, id, b.children, c.children);
    var own, below := IngredientTotal(t, b.ingredients).value, ChildTotal(t, b.children, [id], false).value;
    Triangle(IngredientLineSum(c.ingredients), own, Slack(|b.ingredients|), ChildLineSum(c.children), below,
             Slack(|b.children|));
    assert c.unitCost.value == Round4(own + below);
  }
}
