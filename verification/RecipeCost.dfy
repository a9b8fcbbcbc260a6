/**
 The cost of a menu component: a depth-first search over the recipe graph, with the path from
 the start as its stack (menu-components.service.ts, `computeComponentUnitCost`).

 Costs and quantities are exact reals; rounding to four decimals is the rounding the code
 performs at each node.
 */
module RecipeCost {
  import opened Common

  type Id = string

  datatype IngredientLine = IngredientLine(ingredient: Id, quantity: real, unitCost: Option<real>, cost: Option<real>)
  datatype ChildLine = ChildLine(child: Id, quantity: real, cost: Option<real>)
  datatype Component = Component(live: bool, ingredients: seq<IngredientLine>, children: seq<ChildLine>,
                                 unitCost: Option<real>)
  datatype Ingredient = Ingredient(live: bool, costPerRecipeUnit: Option<real>)
  datatype Tables = Tables(components: map<Id, Component>, ingredients: map<Id, Ingredient>)

  datatype Error =
    | Cycle(path: seq<Id>)
    | ComponentNotFound(id: Id)
    | IngredientNotFound(id: Id)
    | InvalidChildren
    | InvalidIngredients
    | DuplicateLine
    // A cost does not fit its column.
    | Overflow

  type Cost = Result<real, Error>

  /** `Math.round(x * 10000) / 10000`: halves round up, also below zero. */
  function Round4(x: real): (r: real)
    ensures x - 0.00005 < r <= x + 0.00005
  {
    (10000.0 * x + 0.5).Floor as real / 10000.0
  }

  /** With `exact`, the recipe cost as it would be without any rounding. */
  function Rounded(x: real, exact: bool): (r: real) {
    if exact then x else Round4(x)
  }

  /** `Number(line.unitCost || 0) || resolveIngredientUnitCost(line.ingredientId)`. */
  function EffectiveCost(t: Tables, line: IngredientLine): (r: Cost) {
    if line.unitCost.Some? && line.unitCost.value != 0.0 then Ok(line.unitCost.value)
    else if line.ingredient in t.ingredients && t.ingredients[line.ingredient].live then
      Ok(t.ingredients[line.ingredient].costPerRecipeUnit.GetOr(0.0))
    else Err(IngredientNotFound(line.ingredient))
  }

  function Times(cost: real, quantity: real): (r: real) {
    cost * quantity
  }

  /** `total += cost * quantity`; the first error ends the sum. */
  function Plus(total: Cost, cost: Cost, quantity: real): (r: Cost) {
    if total.Err? then total else if cost.Err? then cost else Ok(total.value + Times(cost.value, quantity))
  }

  function IngredientTotal(t: Tables, lines: seq<IngredientLine>): (r: Cost) {
    if lines == [] then Ok(0.0)
    else
      var n := |lines| - 1;
      Plus(IngredientTotal(t, lines[..n]), EffectiveCost(t, lines[n]), lines[n].quantity)
  }

  /** Components that are not yet on the stack: what makes the search end. */
  ghost function Room(t: Tables, stack: seq<Id>): (n: nat) {
    |t.components.Keys - (set x | x in stack)|
  }

  lemma {:induction false} RoomShrinks(t: Tables, stack: seq<Id>, id: Id)
    requires id in t.components && id !in stack
    ensures Room(t, stack + [id]) < Room(t, stack)
  {
    var before, after := t.components.Keys - (set x | x in stack), t.components.Keys - (set x | x in stack + [id]);
    assert id in stack + [id];
    assert after <= before - {id};
    var rest := before - {id} - after;
    assert before == {id} + after + rest;
  }

  function UnitCost(t: Tables, id: Id, stack: seq<Id>, exact: bool): (r: Cost)
    decreases Room(t, stack), 0, 0
  {
    if id in stack then Err(Cycle(stack + [id]))
    else if id !in t.components || !t.components[id].live then Err(ComponentNotFound(id))
    else
      var own := IngredientTotal(t, t.components[id].ingredients);
      if own.Err? then own
      else
        RoomShrinks(t, stack, id);
        var below := ChildTotal(t, t.components[id].children, stack + [id], exact);
        if below.Err? then below else Ok(Rounded(own.value + below.value, exact))
  }

  function ChildTotal(t: Tables, lines: seq<ChildLine>, stack: seq<Id>, exact: bool): (r: Cost)
    decreases Room(t, stack), 1, |lines|
  {
    if lines == [] then Ok(0.0)
    else
      var n := |lines| - 1;
      Plus(ChildTotal(t, lines[..n], stack, exact), UnitCost(t, lines[n].child, stack, exact), lines[n].quantity)
  }

  lemma {:induction false} ChildTotalOk(t: Tables, lines: seq<ChildLine>, stack: seq<Id>, exact: bool)
    ensures ChildTotal(t, lines, stack, exact).Ok? <==>
            forall l :: l in lines ==> UnitCost(t, l.child, stack, exact).Ok?
  {
    if lines != [] {
      var n := |lines| - 1;
      assert lines == lines[..n] + [lines[n]];
      ChildTotalOk(t, lines[..n], stack, exact);
    }
  }

  lemma {:induction false} IngredientTotalOk(t: Tables, lines: seq<IngredientLine>)
    ensures IngredientTotal(t, lines).Ok? <==> forall l :: l in lines ==> EffectiveCost(t, l).Ok?
  {
    if lines != [] {
      var n := |lines| - 1;
      assert lines == lines[..n] + [lines[n]];
      IngredientTotalOk(t, lines[..n]);
    }
  }

  // ----- The recipe graph -----------------------------------------------------------------

  predicate Live(t: Tables, id: Id) {
    id in t.components && t.components[id].live
  }

  /** The components a live component is made of. */
  function Children(t: Tables, id: Id): (s: set<Id>) {
    if Live(t, id) then set l | l in t.components[id].children :: l.child else {}
  }

  ghost predicate Path(t: Tables, p: seq<Id>) {
    p != [] && forall k :: 0 <= k < |p| - 1 ==> p[k + 1] in Children(t, p[k])
  }

  /** A live component all of whose ingredient lines can be priced. */
  ghost predicate Priceable(t: Tables, id: Id) {
    Live(t, id) && forall l :: l in t.components[id].ingredients ==> EffectiveCost(t, l).Ok?
  }

  /** `p` meets only priceable components, none of them twice and none on the stack. */
  ghost predicate Clean(t: Tables, p: seq<Id>, stack: seq<Id>) {
    (forall x :: x in p ==> Priceable(t, x) && x !in stack) && Distinct(p)
  }

  lemma {:induction false} SuccessCleansPaths(t: Tables, id: Id, stack: seq<Id>, exact: bool, p: seq<Id>)
    requires UnitCost(t, id, stack, exact).Ok?
    requires Path(t, p) && p[0] == id
    ensures Clean(t, p, stack)
    decreases |p|
  {
    IngredientTotalOk(t, t.components[id].ingredients);
    ChildTotalOk(t, t.components[id].children, stack + [id], exact);
    if |p| > 1 {
      assert p[1] in Children(t, p[0]);
      forall k | 0 <= k < |p[1..]| - 1 ensures p[1..][k + 1] in Children(t, p[1..][k]) {
        assert p[k + 1 + 1] in Children(t, p[k + 1]);
      }
      SuccessCleansPaths(t, p[1], stack + [id], exact, p[1..]);
      assert id in stack + [id];
      assert p == [id] + p[1..];
      forall k | 0 < k < |p| ensures p[k] != id {
        assert p[k] == p[1..][k - 1] && p[k] in p[1..];
      }
    }
  }

  lemma {:induction false} CleanPathsSucceed(t: Tables, id: Id, stack: seq<Id>, exact: bool)
    requires forall p :: Path(t, p) && p[0] == id ==> Clean(t, p, stack)
    ensures UnitCost(t, id, stack, exact).Ok?
    decreases Room(t, stack)
  {
    assert Path(t, [id]) && id in [id];
    IngredientTotalOk(t, t.components[id].ingredients);
    RoomShrinks(t, stack, id);
    forall l | l in t.components[id].children ensures UnitCost(t, l.child, stack + [id], exact).Ok? {
      forall q | Path(t, q) && q[0] == l.child ensures Clean(t, q, stack + [id]) {
        var p := [id] + q;
        forall k | 0 <= k < |p| - 1 ensures p[k + 1] in Children(t, p[k]) {
          if k > 0 {
            assert q[k - 1 + 1] in Children(t, q[k - 1]);
          }
        }
        assert Path(t, p) && p[0] == id;
        forall x | x in q ensures Priceable(t, x) && x !in stack + [id] {
          var k :| 0 <= k < |q| && q[k] == x;
          assert p[k + 1] == x && p[0] != p[k + 1] && x in p;
        }
        forall i, j | 0 <= i < j < |q| ensures q[i] != q[j] {
          assert p[i + 1] != p[j + 1];
        }
      }
      CleanPathsSucceed(t, l.child, stack + [id], exact);
    }
    ChildTotalOk(t, t.components[id].children, stack + [id], exact);
  }

  /**
   When costing succeeds: exactly when every path of the recipe graph from `id` meets only live
   components whose ingredient lines can be priced, never one twice, and never one on the stack.
   */
  lemma {:induction false} SucceedsIff(t: Tables, id: Id, stack: seq<Id>, exact: bool)
    ensures UnitCost(t, id, stack, exact).Ok? <==> forall p :: Path(t, p) && p[0] == id ==> Clean(t, p, stack)
  {
    if UnitCost(t, id, stack, exact).Ok? {
      forall p | Path(t, p) && p[0] == id ensures Clean(t, p, stack) {
        SuccessCleansPaths(t, id, stack, exact, p);
      }
    } else if forall p :: Path(t, p) && p[0] == id ==> Clean(t, p, stack) {
      CleanPathsSucceed(t, id, stack, exact);
    }
  }

  // ----- What a successful cost depends on ------------------------------------------------

  /** Same live components, same lines, same price for each ingredient line. */
  ghost predicate SameRecipes(t: Tables, u: Tables) {
    && t.components.Keys == u.components.Keys
    && forall c :: c in t.components ==> SameRecipe(t, u, t.components[c], u.components[c])
  }

  ghost predicate SameRecipe(t: Tables, u: Tables, c: Component, d: Component) {
    && c.live == d.live
    && |c.ingredients| == |d.ingredients|
    && (forall k :: 0 <= k < |c.ingredients| ==>
          && EffectiveCost(t, c.ingredients[k]) == EffectiveCost(u, d.ingredients[k])
          && c.ingredients[k].quantity == d.ingredients[k].quantity)
    && SameChildren(c.children, d.children)
  }

  ghost predicate SameChildren(ls: seq<ChildLine>, ms: seq<ChildLine>) {
    |ls| == |ms| && forall k :: 0 <= k < |ls| ==> ls[k].child == ms[k].child && ls[k].quantity == ms[k].quantity
  }

  lemma {:induction false} SameIngredientTotal(t: Tables, u: Tables, ls: seq<IngredientLine>, ms: seq<IngredientLine>)
    requires |ls| == |ms|
    requires forall k :: 0 <= k < |ls| ==>
                 EffectiveCost(t, ls[k]) == EffectiveCost(u, ms[k]) && ls[k].quantity == ms[k].quantity
    ensures IngredientTotal(t, ls) == IngredientTotal(u, ms)
  {
    if ls != [] {
      SameIngredientTotal(t, u, ls[..|ls| - 1], ms[..|ls| - 1]);
    }
  }

  lemma {:induction false} SameUnitCost(t: Tables, u: Tables, id: Id, stack: seq<Id>, exact: bool)
    requires SameRecipes(t, u)
    ensures UnitCost(t, id, stack, exact) == UnitCost(u, id, stack, exact)
    decreases Room(t, stack), 0, 0
  {
    if id in t.components {
      assert SameRecipe(t, u, t.components[id], u.components[id]);
      if id !in stack && Live(t, id) {
        RoomShrinks(t, stack, id);
        SameIngredientTotal(t, u, t.components[id].ingredients, u.components[id].ingredients);
        SameChildTotal(t, u, t.components[id].children, u.components[id].children, stack + [id], exact);
        SameNode(t, u, id, stack, exact);
      }
    }
  }

  lemma {:induction false} SameNode(t: Tables, u: Tables, id: Id, stack: seq<Id>, exact: bool)
    requires id !in stack && Live(t, id) && Live(u, id)
    requires IngredientTotal(t, t.components[id].ingredients) == IngredientTotal(u, u.components[id].ingredients)
    requires ChildTotal(t, t.components[id].children, stack + [id], exact) ==
             ChildTotal(u, u.components[id].children, stack + [id], exact)
    ensures UnitCost(t, id, stack, exact) == UnitCost(u, id, stack, exact)
  {
  }

  lemma {:induction false} SameChildTotal(t: Tables, u: Tables, ls: seq<ChildLine>, ms: seq<ChildLine>, stack: seq<Id>,
                                          exact: bool)
    requires SameRecipes(t, u) && SameChildren(ls, ms)
    ensures ChildTotal(t, ls, stack, exact) == ChildTotal(u, ms, stack, exact)
    decreases Room(t, stack), 1, |ls|
  {
    if ls != [] {
      var n := |ls| - 1;
      SameChildTotal(t, u, ls[..n], ms[..n], stack, exact);
      SameUnitCost(t, u, ls[n].child, stack, exact);
    }
  }

  /** A successful cost does not depend on the stack it was computed under. */
  lemma {:induction false} StackIrrelevant(t: Tables, id: Id, s1: seq<Id>, s2: seq<Id>, exact: bool)
    requires UnitCost(t, id, s1, exact).Ok? && UnitCost(t, id, s2, exact).Ok?
    ensures UnitCost(t, id, s1, exact) == UnitCost(t, id, s2, exact)
    decreases Room(t, s1), 0, 0
  {
    RoomShrinks(t, s1, id);
    StackIrrelevantBelow(t, t.components[id].children, s1 + [id], s2 + [id], exact);
  }

  lemma {:induction false} StackIrrelevantBelow(t: Tables, ls: seq<ChildLine>, s1: seq<Id>, s2: seq<Id>, exact: bool)
    requires ChildTotal(t, ls, s1, exact).Ok? && ChildTotal(t, ls, s2, exact).Ok?
    ensures ChildTotal(t, ls, s1, exact) == ChildTotal(t, ls, s2, exact)
    decreases Room(t, s1), 1, |ls|
  {
    if ls != [] {
      var n := |ls| - 1;
      StackIrrelevantBelow(t, ls[..n], s1, s2, exact);
      StackIrrelevant(t, ls[n].child, s1, s2, exact);
    }
  }

  /** A component that can be costed from scratch can be costed below any of its parents. */
  lemma {:induction false} ChildOfOk(t: Tables, id: Id, child: Id, exact: bool)
    requires UnitCost(t, id, [], exact).Ok? && child in Children(t, id)
    ensures UnitCost(t, child, [id], exact).Ok? && UnitCost(t, child, [], exact) == UnitCost(t, child, [id], exact)
  {
    ChildTotalOk(t, t.components[id].children, [] + [id], exact);
    assert [] + [id] == [id];
    forall p | Path(t, p) && p[0] == child ensures Clean(t, p, []) {
      SuccessCleansPaths(t, child, [id], exact, p);
    }
    CleanPathsSucceed(t, child, [], exact);
    StackIrrelevant(t, child, [], [id], exact);
  }

  // ----- The error of rounding at every node ----------------------------------------------

  function Abs(x: real): (r: real) {
    if x < 0.0 then -x else x
  }

  /** E(c) = 0.00005 + sum over the child lines of |quantity| * E(child). */
  function ErrorBound(t: Tables, id: Id, stack: seq<Id>): (e: real)
    ensures e >= 0.0
    decreases Room(t, stack), 0, 0
  {
    if id in stack || !Live(t, id) then 0.0
    else
      RoomShrinks(t, stack, id);
      0.00005 + ChildError(t, t.components[id].children, stack + [id])
  }

  function ChildError(t: Tables, lines: seq<ChildLine>, stack: seq<Id>): (e: real)
    ensures e >= 0.0
    decreases Room(t, stack), 1, |lines|
  {
    if lines == [] then 0.0
    else
      var n := |lines| - 1;
      PlusBound(ChildError(t, lines[..n], stack), ErrorBound(t, lines[n].child, stack), lines[n].quantity)
  }

  function PlusBound(total: real, e: real, quantity: real): (r: real)
    ensures total >= 0.0 && e >= 0.0 ==> r >= 0.0
  {
    total + Abs(quantity) * e
  }

  /** Adding `cost * quantity` to a total adds `|quantity|` times the error of `cost`. */
  lemma {:induction false} PlusError(total: Cost, total': Cost, d: real, cost: Cost, cost': Cost, e: real, q: real)
    requires (total.Ok? <==> total'.Ok?) && (total.Ok? ==> Abs(total.value - total'.value) <= d)
    requires (cost.Ok? <==> cost'.Ok?) && (cost.Ok? ==> Abs(cost.value - cost'.value) <= e)
    ensures var r, r' := Plus(total, cost, q), Plus(total', cost', q);
            (r.Ok? <==> r'.Ok?) && (r.Ok? ==> Abs(r.value - r'.value) <= PlusBound(d, e, q))
  {
    if total.Ok? && cost.Ok? {
      ScaledError(cost.value, cost'.value, e, q);
      Triangle(total.value, total'.value, d, cost.value * q, cost'.value * q, Abs(q) * e);
    }
  }

  lemma {:induction false} Triangle(a: real, b: real, d: real, x: real, y: real, e: real)
    requires Abs(a - b) <= d && Abs(x - y) <= e
    ensures Abs((a + x) - (b + y)) <= d + e
  {
  }

  /** Scaling two close values keeps them as close as the scale allows. */
  lemma {:induction false} ScaledError(a: real, b: real, e: real, q: real)
    requires Abs(a - b) <= e
    ensures Abs(a * q - b * q) <= Abs(q) * e
  {
    var d := a - b;
    assert a * q - b * q == d * q;
    if q >= 0.0 {
      assert -e * q <= d * q <= e * q;
    } else {
      assert -e * -q <= d * -q <= e * -q;
    }
  }

  /** Each computed cost is within E of the exact recipe cost, and fails exactly when that does. */
  lemma {:induction false} WithinBound(t: Tables, id: Id, stack: seq<Id>)
    ensures var c, x := UnitCost(t, id, stack, false), UnitCost(t, id, stack, true);
            && (c.Ok? <==> x.Ok?)
            && (c.Ok? ==> Abs(c.value - x.value) <= ErrorBound(t, id, stack))
    decreases Room(t, stack), 0, 0
  {
    if id !in stack && Live(t, id) && IngredientTotal(t, t.components[id].ingredients).Ok? {
      RoomShrinks(t, stack, id);
      WithinBoundBelow(t, t.components[id].children, stack + [id]);
    }
  }

  lemma {:induction false} WithinBoundBelow(t: Tables, lines: seq<ChildLine>, stack: seq<Id>)
    ensures var c, x := ChildTotal(t, lines, stack, false), ChildTotal(t, lines, stack, true);
            && (c.Ok? <==> x.Ok?)
            && (c.Ok? ==> Abs(c.value - x.value) <= ChildError(t, lines, stack))
    decreases Room(t, stack), 1, |lines|
  {
    if lines != [] {
      var n := |lines| - 1;
      WithinBoundBelow(t, lines[..n], stack);
      WithinBound(t, lines[n].child, stack);
      PlusError(ChildTotal(t, lines[..n], stack, false), ChildTotal(t, lines[..n], stack, true),
                ChildError(t, lines[..n], stack),
                UnitCost(t, lines[n].child, stack, false), UnitCost(t, lines[n].child, stack, true),
                ErrorBound(t, lines[n].child, stack), lines[n].quantity);
    }
  }

  /** The bound, too, is the same under every stack that lets the costing succeed. */
  lemma {:induction false} BoundStackIrrelevant(t: Tables, id: Id, s1: seq<Id>, s2: seq<Id>)
    requires UnitCost(t, id, s1, true).Ok? && UnitCost(t, id, s2, true).Ok?
    ensures ErrorBound(t, id, s1) == ErrorBound(t, id, s2)
    decreases Room(t, s1), 0, 0
  {
    RoomShrinks(t, s1, id);
    BoundStackIrrelevantBelow(t, t.components[id].children, s1 + [id], s2 + [id]);
  }

  lemma {:induction false} BoundStackIrrelevantBelow(t: Tables, ls: seq<ChildLine>, s1: seq<Id>, s2: seq<Id>)
    requires ChildTotal(t, ls, s1, true).Ok? && ChildTotal(t, ls, s2, true).Ok?
    ensures ChildError(t, ls, s1) == ChildError(t, ls, s2)
    decreases Room(t, s1), 1, |ls|
  {
    if ls != [] {
      var n := |ls| - 1;
      BoundStackIrrelevantBelow(t, ls[..n], s1, s2);
      BoundStackIrrelevant(t, ls[n].child, s1, s2);
    }
  }
}
