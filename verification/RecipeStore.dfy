/** The recipe tables and the service methods over them (menu-components.service.ts). */
module RecipeStore {
  import opened Common
  import opened RecipeCost
  import opened RecipeRefresh
  import opened RecipeColumns
  import opened RecipeEdits

  datatype Counts = Counts(updatedComponents: nat, updatedLines: nat)

  function LineCount(t: Tables, ids: seq<Id>): (n: nat) {
    if ids == [] then 0
    else
      var last := ids[|ids| - 1];
      LineCount(t, ids[..|ids| - 1]) +
      if last in t.components then |t.components[last].ingredients| + |t.components[last].children| else 0
  }

  /** The components `refreshCosts` selects: live, and among `componentIds` when some are given. */
  function Selected(t: Tables, componentIds: seq<Id>): (s: set<Id>) {
    set c | c in t.components && t.components[c].live && (componentIds == [] || c in componentIds)
  }

  /** The live components asked for, all of them when none are named, are costed; the others are as they were. */
  ghost predicate OnlyThese(t: Tables, u: Tables, componentIds: seq<Id>) {
    && u.ingredients == t.ingredients && u.components.Keys == t.components.Keys
    && forall x :: x in t.components && x in u.components ==>
         u.components[x] == if t.components[x].live && (componentIds == [] || x in componentIds) then Costed(t, x)
                            else t.components[x]
  }

  lemma {:induction false} SelectedAre(t: Tables, componentIds: seq<Id>)
    ensures OnlyThese(t, Refreshed(t, Selected(t, componentIds)), componentIds)
  {
  }

  /** The refresh stopped at entry `k` of the order, with the entries before it refreshed. */
  ghost predicate StoppedAt(t: Tables, u: Tables, order: seq<Id>, k: nat, e: Error)
    requires k < |order|
  {
    && AllRefresh(t, Members(order[..k])) && u == Refreshed(t, Members(order[..k]))
    && RefreshError(t, order[k]) == Some(e)
  }

  lemma {:induction false} NothingRefreshed(t: Tables)
    ensures Refreshed(t, {}) == t && forall ids: seq<Id> :: ids == [] ==> Members(ids) == {}
  {
  }

  /** What one more turn of the refresh loop meets, and what it makes of it. */
  lemma {:induction false} NextRefreshed(t: Tables, done: set<Id>, id: Id)
    requires AllCost(t, done) && id !in done && Live(t, id)
    ensures var u := Refreshed(t, done);
            && u.components[id] == t.components[id] && RefreshError(u, id) == RefreshError(t, id)
            && Refreshed(u, {id}) == Refreshed(t, done + {id})
  {
    RefreshErrorKept(t, done, id);
    RefreshParts(t, done, {id});
  }

  class Store {
    var components: map<Id, Component>
    var ingredients: map<Id, Ingredient>

    constructor (t: Tables)
      ensures View() == t
    {
      components, ingredients := t.components, t.ingredients;
    }

    function View(): (t: Tables)
      reads this
    {
      Tables(components, ingredients)
    }

    method ResolveIngredientUnitCost(id: Id) returns (r: Cost)
      ensures r == if id in ingredients && ingredients[id].live then Ok(ingredients[id].costPerRecipeUnit.GetOr(0.0))
                   else Err(IngredientNotFound(id))
    {
      if id !in ingredients || !ingredients[id].live {
        return Err(IngredientNotFound(id));
      }
      var cost := ingredients[id].costPerRecipeUnit;
      return Ok(if cost.Some? then cost.value else 0.0);
    }

    /** The loop over a component's ingredient lines: a line's own non-zero cost, else its ingredient's. */
    method SumIngredientLines(lines: seq<IngredientLine>) returns (r: Cost)
      ensures r == IngredientTotal(View(), lines)
    {
      var total := 0.0;
      for k := 0 to |lines|
        invariant IngredientTotal(View(), lines[..k]) == Ok(total)
      {
        var line := lines[k];
        assert lines[..k + 1][..k] == lines[..k];
        var unitCost := if line.unitCost.Some? then line.unitCost.value else 0.0;
        if unitCost == 0.0 {
          var resolved := ResolveIngredientUnitCost(line.ingredient);
          if resolved.Err? {
            IngredientTotalFails(View(), lines, k + 1);
            return resolved;
          }
          unitCost := resolved.value;
        }
        total := total + Times(unitCost, line.quantity);
      }
      assert lines[..|lines|] == lines;
      r := Ok(total);
    }

    /** The recursive search: it meets the specification function on every table and stack, and ends. */
    method ComputeComponentUnitCost(id: Id, stack: seq<Id>) returns (r: Cost)
      ensures r == UnitCost(View(), id, stack, false)
      decreases Room(View(), stack)
    {
      if id in stack {
        return Err(Cycle(stack + [id]));
      }
      if id !in components || !components[id].live {
        return Err(ComponentNotFound(id));
      }
      var component := components[id];
      RoomShrinks(View(), stack, id);
      var own := SumIngredientLines(component.ingredients);
      if own.Err? {
        return own;
      }
      var total := own.value;
      ghost var below := 0.0;
      for k := 0 to |component.children|
        invariant ChildTotal(View(), component.children[..k], stack + [id], false) == Ok(below)
        invariant total == own.value + below
      {
        var line := component.children[k];
        assert component.children[..k + 1][..k] == component.children[..k];
        var cost := ComputeComponentUnitCost(line.child, stack + [id]);
        if cost.Err? {
          ChildTotalFails(View(), component.children, stack + [id], k + 1);
          return cost;
        }
        total := total + Times(cost.value, line.quantity);
        below := below + Times(cost.value, line.quantity);
      }
      assert component.children[..|component.children|] == component.children;
      return Ok(Round4(total));
    }

    /** The updates of a component's ingredient lines, or the first error. */
    method CostIngredientLines(lines: seq<IngredientLine>) returns (r: Result<seq<IngredientLine>, Error>)
      ensures match r
              case Ok(costed) =>
                && IngredientTotal(View(), lines).Ok? && |costed| == |lines|
                && forall k :: 0 <= k < |lines| ==> costed[k] == CostedIngredient(View(), lines[k])
              case Err(e) => IngredientTotal(View(), lines) == Err(e)
    {
      var costed := [];
      for k := 0 to |lines|
        invariant |costed| == k && IngredientTotal(View(), lines[..k]).Ok?
        invariant forall j :: 0 <= j < k ==> costed[j] == CostedIngredient(View(), lines[j])
      {
        var line := lines[k];
        assert lines[..k + 1][..k] == lines[..k];
        var unitCost := if line.unitCost.Some? then line.unitCost.value else 0.0;
        if unitCost == 0.0 {
          var resolved := ResolveIngredientUnitCost(line.ingredient);
          if resolved.Err? {
            IngredientTotalFails(View(), lines, k + 1);
            return Err(resolved.error);
          }
          unitCost := resolved.value;
        }
        costed := costed + [line.(unitCost := Some(unitCost), cost := Some(Round4(Times(unitCost, line.quantity))))];
      }
      assert lines[..|lines|] == lines;
      return Ok(costed);
    }

    /** The updates of a component's child lines, each child costed below the component. */
    method CostChildLines(id: Id, lines: seq<ChildLine>) returns (r: Result<seq<ChildLine>, Error>)
      ensures match r
              case Ok(costed) =>
                && ChildTotal(View(), lines, [id], false).Ok? && |costed| == |lines|
                && forall k :: 0 <= k < |lines| ==> costed[k] == CostedChild(View(), id, lines[k])
              case Err(e) => ChildTotal(View(), lines, [id], false) == Err(e)
    {
      var costed := [];
      for k := 0 to |lines|
        invariant |costed| == k && ChildTotal(View(), lines[..k], [id], false).Ok?
        invariant forall j :: 0 <= j < k ==> costed[j] == CostedChild(View(), id, lines[j])
      {
        assert lines[..k + 1][..k] == lines[..k];
        var cost := ComputeComponentUnitCost(lines[k].child, [id]);
        if cost.Err? {
          ChildTotalFails(View(), lines, [id], k + 1);
          return Err(cost.error);
        }
        costed := costed + [lines[k].(cost := Some(Round4(Times(cost.value, lines[k].quantity))))];
      }
      assert lines[..|lines|] == lines;
      return Ok(costed);
    }

    /** The costs of one component, or the first error. */
    method CostComponent(id: Id, component: Component) returns (r: Result<Component, Error>)
      requires Live(View(), id) && component == components[id]
      ensures match r
              case Ok(costed) => UnitCost(View(), id, [], false).Ok? && costed == Costed(View(), id)
              case Err(e) => UnitCost(View(), id, [], false) == Err(e)
    {
      assert [] + [id] == [id];
      var ingredientLines := CostIngredientLines(component.ingredients);
      if ingredientLines.Err? {
        return Err(ingredientLines.error);
      }
      var childLines := CostChildLines(id, component.children);
      if childLines.Err? {
        return Err(childLines.error);
      }
      var unitCost := ComputeComponentUnitCost(id, []);
      var costed := Component(component.live, ingredientLines.value, childLines.value, Some(unitCost.value));
      assert costed == Costed(View(), id);
      return Ok(costed);
    }

    /** One turn of the refresh loop: all the component's updates in one transaction, or none. */
    method RefreshComponent(id: Id, component: Component) returns (r: Result<nat, Error>)
      requires Stored(View()) && Live(View(), id) && component == components[id]
      modifies this`components
      ensures Stored(View())
      ensures match r
              case Ok(n) =>
                && RefreshError(old(View()), id).None?
                && View() == Refreshed(old(View()), {id})
                && n == |component.ingredients| + |component.children|
              case Err(e) => RefreshError(old(View()), id) == Some(e) && View() == old(View())
    {
      ghost var t := View();
      var costed := CostComponent(id, component);
      if costed.Err? {
        return Err(costed.error);
      }
      if !CostsFit(costed.value) {
        return Err(Overflow);
      }
      CostedStored(t, id);
      StoredLines(costed.value.ingredients, costed.value.children);
      ColumnStored(costed.value.unitCost);
      components := components[id := Component(component.live, StoredIngredients(costed.value.ingredients),
                                               StoredChildren(costed.value.children), Column(costed.value.unitCost))];
      assert components == Refreshed(t, {id}).components;
      RefreshedStored(t, {id});
      return Ok(|component.ingredients| + |component.children|);
    }

    /**
     Refreshes the selected components in whatever order the query lists them. All of them succeed
     exactly when each can be costed in the tables as they were, at costs that fit their columns; the
     result is then the same for every order. Otherwise the components before the first one that fails
     have been refreshed, and its error is thrown.
     */
    method RefreshCosts(componentIds: seq<Id>, order: seq<Id>) returns (r: Result<Counts, Error>)
      requires Stored(View()) && Enumerates(order, Selected(View(), componentIds))
      modifies this`components
      ensures Stored(View())
      ensures r.Ok? <==> AllRefresh(old(View()), Selected(old(View()), componentIds))
      ensures r.Ok? ==> View() == Refreshed(old(View()), Selected(old(View()), componentIds))
      ensures r.Ok? ==> OnlyThese(old(View()), View(), componentIds)
      ensures r.Ok? ==> r.value == Counts(|order|, LineCount(old(View()), order))
      ensures r.Err? ==> exists k :: 0 <= k < |order| && StoppedAt(old(View()), View(), order, k, r.error)
    {
      ghost var t := View();
      var loaded := components;
      var counts := Counts(0, 0);
      NothingRefreshed(t);
      for k := 0 to |order|
        invariant AllRefresh(t, Members(order[..k])) && Stored(View())
        invariant View() == Refreshed(t, Members(order[..k]))
        invariant counts == Counts(k, LineCount(t, order[..k]))
      {
        var id := order[k];
        assert id in order;
        assert order[..k + 1][..k] == order[..k];
        NextMember(order, k);
        NextRefreshed(t, Members(order[..k]), id);
        var refreshed := RefreshComponent(id, loaded[id]);
        if refreshed.Err? {
          assert StoppedAt(t, View(), order, k, refreshed.error);
          return Err(refreshed.error);
        }
        counts := Counts(counts.updatedComponents + 1, counts.updatedLines + refreshed.value);
      }
      assert order[..|order|] == order;
      assert Members(order) == Selected(t, componentIds);
      SelectedAre(t, componentIds);
      return Ok(counts);
    }

    /** `refreshCosts` of one component, as the edits call it. */
    method RefreshOneComponent(id: Id) returns (error: Option<Error>)
      requires Stored(View())
      modifies this`components
      ensures Stored(View()) && Outcome(View(), error) == RefreshOne(old(View()), id)
    {
      ghost var t := View();
      var order := if id in components && components[id].live then [id] else [];
      var r := RefreshCosts([id], order);
      assert Selected(t, [id]) == if Live(t, id) then {id} else {};
      NothingRefreshed(t);
      if r.Err? {
        assert order[..0] == [];
        return Some(r.error);
      }
      return None;
    }

    /** Checks an edit and stores what it gives of a component, then refreshes it when lines were given. */
    method StoreComponent(id: Id, c: Component, ingredientLines: Option<seq<IngredientLine>>,
                          childLines: Option<seq<ChildLine>>, unitCost: Option<real>)
      returns (error: Option<Error>)
      requires Stored(View()) && ComponentStored(c)
      modifies this`components
      ensures Stored(View())
      ensures Outcome(View(), error) == RecipeEdits.Store(old(View()), id, c, ingredientLines, childLines, unitCost)
    {
      if !IngredientsExist(View(), ingredientLines.GetOr([])) {
        return Some(InvalidIngredients);
      }
      if !ChildrenExist(View(), childLines.GetOr([])) {
        return Some(InvalidChildren);
      }
      if !NoDuplicates(ingredientLines.GetOr([]), childLines.GetOr([])) {
        return Some(DuplicateLine);
      }
      if !LinesFit(ingredientLines.GetOr([]), childLines.GetOr([])) || !CostFits(unitCost) {
        return Some(Overflow);
      }
      WrittenStored(c, ingredientLines, childLines, unitCost);
      components := components[id := Written(c, ingredientLines, childLines, unitCost)];
      if ingredientLines.Some? || childLines.Some? {
        error := RefreshOneComponent(id);
      } else {
        error := None;
      }
    }

    method Create(id: Id, ingredientLines: Option<seq<IngredientLine>>, childLines: Option<seq<ChildLine>>,
                  unitCost: Option<real>)
      returns (error: Option<Error>)
      requires Stored(View()) && id !in components
      modifies this`components
      ensures Stored(View())
      ensures Outcome(View(), error) == Apply(old(View()), Edit.Create(id, ingredientLines, childLines, unitCost))
    {
      error := StoreComponent(id, Component(true, [], [], None), ingredientLines, childLines, unitCost);
    }

    method Update(id: Id, ingredientLines: Option<seq<IngredientLine>>, childLines: Option<seq<ChildLine>>,
                  unitCost: Option<real>)
      returns (error: Option<Error>)
      requires Stored(View())
      modifies this`components
      ensures Stored(View())
      ensures Outcome(View(), error) == Apply(old(View()), Edit.Update(id, ingredientLines, childLines, unitCost))
    {
      if !Live(View(), id) {
        return Some(ComponentNotFound(id));
      }
      error := StoreComponent(id, components[id], ingredientLines, childLines, unitCost);
    }

    method ReplaceIngredients(id: Id, lines: seq<IngredientLine>) returns (error: Option<Error>)
      requires Stored(View())
      modifies this`components
      ensures Stored(View())
      ensures Outcome(View(), error) == Apply(old(View()), Edit.ReplaceIngredients(id, lines))
    {
      if !Live(View(), id) {
        return Some(ComponentNotFound(id));
      }
      error := StoreComponent(id, components[id], Some(lines), None, None);
    }

    method ReplaceChildren(id: Id, lines: seq<ChildLine>) returns (error: Option<Error>)
      requires Stored(View())
      modifies this`components
      ensures Stored(View())
      ensures Outcome(View(), error) == Apply(old(View()), Edit.ReplaceChildren(id, lines))
    {
      if !Live(View(), id) {
        return Some(ComponentNotFound(id));
      }
      error := StoreComponent(id, components[id], None, Some(lines), None);
    }

    method Remove(id: Id) returns (error: Option<Error>)
      requires Stored(View())
      modifies this`components
      ensures Stored(View())
      ensures Outcome(View(), error) == Apply(old(View()), Edit.Remove(id))
    {
      if !Live(View(), id) {
        return Some(ComponentNotFound(id));
      }
      components := components[id := components[id].(live := false)];
      return None;
    }
  }

  /** An error in a prefix of the lines is the error of all of them. */
  lemma {:induction false} IngredientTotalFails(t: Tables, lines: seq<IngredientLine>, k: nat)
    requires k <= |lines| && IngredientTotal(t, lines[..k]).Err?
    ensures IngredientTotal(t, lines) == IngredientTotal(t, lines[..k])
    decreases |lines|
  {
    if k < |lines| {
      var n := |lines| - 1;
      assert lines[..n][..k] == lines[..k];
      IngredientTotalFails(t, lines[..n], k);
    } else {
      assert lines[..k] == lines;
    }
  }

  lemma {:induction false} ChildTotalFails(t: Tables, lines: seq<ChildLine>, stack: seq<Id>, k: nat)
    requires k <= |lines| && ChildTotal(t, lines[..k], stack, false).Err?
    ensures ChildTotal(t, lines, stack, false) == ChildTotal(t, lines[..k], stack, false)
    decreases |lines|
  {
    if k < |lines| {
      var n := |lines| - 1;
      assert lines[..n][..k] == lines[..k];
      ChildTotalFails(t, lines[..n], stack, k);
    } else {
      assert lines[..k] == lines;
    }
  }
}
