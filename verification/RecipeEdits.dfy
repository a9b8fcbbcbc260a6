/**
 Editing recipes (menu-components.service.ts, `create`, `update`, `replaceIngredients`,
 `replaceChildren`, `remove`). An edit checks that the referenced rows are live, stores the new
 lines, and only then refreshes the edited component; when that refresh throws, the stored lines
 stay.
 */
module RecipeEdits {
  import opened Common
  import opened RecipeCost
  import opened RecipeRefresh
  import opened RecipeColumns

  datatype Edit =
    // `id` is the generated id of the new component.
    | Create(id: Id, ingredients: Option<seq<IngredientLine>>, children: Option<seq<ChildLine>>, unitCost: Option<real>)
    | Update(id: Id, ingredients: Option<seq<IngredientLine>>, children: Option<seq<ChildLine>>, unitCost: Option<real>)
    | ReplaceIngredients(id: Id, ingredientLines: seq<IngredientLine>)
    | ReplaceChildren(id: Id, childLines: seq<ChildLine>)
    | Remove(id: Id)

  datatype Outcome = Outcome(tables: Tables, error: Option<Error>)

  predicate IngredientsExist(t: Tables, lines: seq<IngredientLine>) {
    forall l :: l in lines ==> l.ingredient in t.ingredients && t.ingredients[l.ingredient].live
  }

  predicate ChildrenExist(t: Tables, lines: seq<ChildLine>) {
    forall l :: l in lines ==> Live(t, l.child)
  }

  /** The unique constraints on (component, ingredient) and on (parent, child). */
  predicate NoDuplicates(ingredients: seq<IngredientLine>, children: seq<ChildLine>) {
    && (forall i, j :: 0 <= i < j < |ingredients| ==> ingredients[i].ingredient != ingredients[j].ingredient)
    && (forall i, j :: 0 <= i < j < |children| ==> children[i].child != children[j].child)
  }

  /** The edit passes its checks, and the database takes its lines and its unit cost. */
  predicate Accepted(t: Tables, ingredients: Option<seq<IngredientLine>>, children: Option<seq<ChildLine>>,
                     unitCost: Option<real>) {
    && IngredientsExist(t, ingredients.GetOr([])) && ChildrenExist(t, children.GetOr([]))
    && NoDuplicates(ingredients.GetOr([]), children.GetOr([]))
    && LinesFit(ingredients.GetOr([]), children.GetOr([])) && CostFits(unitCost)
  }

  /** `refreshCosts(tenantId, { componentIds: [id] })`. */
  function RefreshOne(t: Tables, id: Id): (o: Outcome) {
    if !Live(t, id) then Outcome(t, None)
    else if RefreshError(t, id).Some? then Outcome(t, RefreshError(t, id))
    else Outcome(Refreshed(t, {id}), None)
  }

  /** The component `c` once what is given of it has been written. */
  function Written(c: Component, ingredients: Option<seq<IngredientLine>>, children: Option<seq<ChildLine>>,
                   unitCost: Option<real>): (r: Component) {
    Component(c.live,
              if ingredients.Some? then StoredIngredients(ingredients.value) else c.ingredients,
              if children.Some? then StoredChildren(children.value) else c.children,
              if unitCost.Some? then Column(unitCost) else c.unitCost)
  }

  /** Stores what is given of component `id`, `c` until now, then refreshes it when lines were given. */
  function Store(t: Tables, id: Id, c: Component, ingredients: Option<seq<IngredientLine>>,
                 children: Option<seq<ChildLine>>, unitCost: Option<real>): (o: Outcome) {
    if !IngredientsExist(t, ingredients.GetOr([])) then Outcome(t, Some(InvalidIngredients))
    else if !ChildrenExist(t, children.GetOr([])) then Outcome(t, Some(InvalidChildren))
    else if !NoDuplicates(ingredients.GetOr([]), children.GetOr([])) then Outcome(t, Some(DuplicateLine))
    else if !Accepted(t, ingredients, children, unitCost) then Outcome(t, Some(Overflow))
    else
      var u := t.(components := t.components[id := Written(c, ingredients, children, unitCost)]);
      if ingredients.None? && children.None? then Outcome(u, None) else RefreshOne(u, id)
  }

  function Apply(t: Tables, e: Edit): (o: Outcome)
    requires e.Create? ==> e.id !in t.components
  {
    if e.Create? then Store(t, e.id, Component(true, [], [], None), e.ingredients, e.children, e.unitCost)
    else if !Live(t, e.id) then Outcome(t, Some(ComponentNotFound(e.id)))
    else
      var c := t.components[e.id];
      match e
      case Update(id, ingredients, children, unitCost) => Store(t, id, c, ingredients, children, unitCost)
      case ReplaceIngredients(id, lines) => Store(t, id, c, Some(lines), None, None)
      case ReplaceChildren(id, lines) => Store(t, id, c, None, Some(lines), None)
      case Remove(id) => Outcome(t.(components := t.components[id := c.(live := false)]), None)
  }

  // ----- The tables hold what columns can hold -------------------------------------------------------------

  lemma {:induction false} WrittenStored(c: Component, ingredients: Option<seq<IngredientLine>>,
                                         children: Option<seq<ChildLine>>, unitCost: Option<real>)
    requires ComponentStored(c) && LinesFit(ingredients.GetOr([]), children.GetOr([])) && CostFits(unitCost)
    ensures ComponentStored(Written(c, ingredients, children, unitCost))
  {
    StoredLines(ingredients.GetOr([]), children.GetOr([]));
    ColumnStored(unitCost);
  }

  lemma {:induction false} RefreshOneStored(t: Tables, id: Id)
    requires Stored(t)
    ensures Stored(RefreshOne(t, id).tables)
  {
    if Live(t, id) && RefreshError(t, id).None? {
      RefreshedStored(t, {id});
    }
  }

  lemma {:induction false} StoreStored(t: Tables, id: Id, c: Component, ingredients: Option<seq<IngredientLine>>,
                                       children: Option<seq<ChildLine>>, unitCost: Option<real>)
    requires Stored(t) && ComponentStored(c)
    ensures Stored(Store(t, id, c, ingredients, children, unitCost).tables)
  {
    if Accepted(t, ingredients, children, unitCost) {
      WrittenStored(c, ingredients, children, unitCost);
      var u := t.(components := t.components[id := Written(c, ingredients, children, unitCost)]);
      assert Stored(u);
      RefreshOneStored(u, id);
    }
  }

  /** Failed or not, an edit leaves in the tables what their columns can hold. */
  lemma {:induction false} ApplyStored(t: Tables, e: Edit)
    requires Stored(t) && (e.Create? ==> e.id !in t.components)
    ensures Stored(Apply(t, e).tables)
  {
    if e.Create? {
      StoreStored(t, e.id, Component(true, [], [], None), e.ingredients, e.children, e.unitCost);
    } else if Live(t, e.id) {
      var c := t.components[e.id];
      match e
      case Update(id, ingredients, children, unitCost) => StoreStored(t, id, c, ingredients, children, unitCost);
      case ReplaceIngredients(id, lines) => StoreStored(t, id, c, Some(lines), None, None);
      case ReplaceChildren(id, lines) => StoreStored(t, id, c, None, Some(lines), None);
      case Remove(id) =>
    }
  }

  // ----- The live recipe graph stays acyclic ----------------------------------------------

  ghost predicate LivePath(t: Tables, p: seq<Id>) {
    Path(t, p) && forall x :: x in p ==> Live(t, x)
  }

  /** No path through live components visits one of them twice. */
  ghost predicate Acyclic(t: Tables) {
    forall p :: LivePath(t, p) ==> Distinct(p)
  }

  /** Outside `id`, the graph of `u` has no live component and no edge that `t` lacks. */
  ghost predicate OnlyEdits(t: Tables, u: Tables, id: Id) {
    forall x :: x != id && Live(u, x) ==> Live(t, x) && Children(u, x) == Children(t, x)
  }

  /** A path that avoids the edited component was there before. */
  lemma {:induction false} OldPath(t: Tables, u: Tables, id: Id, p: seq<Id>)
    requires OnlyEdits(t, u, id) && LivePath(u, p) && id !in p
    ensures LivePath(t, p)
  {
  }

  /**
   A path that returns to its start through the edited component can be turned round so that it
   starts and ends there.
   */
  lemma {:induction false} TurnedRound(u: Tables, p: seq<Id>, i: nat, j: nat, k: nat)
    requires LivePath(u, p) && i <= k < j < |p| && p[i] == p[j]
    ensures var q := p[k..j] + p[i..k + 1]; LivePath(u, q) && q[0] == p[k] && !Distinct(q)
  {
    var q := p[k..j] + p[i..k + 1];
    forall m | 0 <= m < |q| - 1 ensures q[m + 1] in Children(u, q[m]) {
      if m < j - k - 1 {
        assert q[m] == p[k + m] && q[m + 1] == p[k + m + 1];
      } else if m == j - k - 1 {
        assert q[m] == p[j - 1] && q[m + 1] == p[i] && p[j - 1 + 1] in Children(u, p[j - 1]);
      } else {
        var n := i + (m - (j - k));
        assert q[m] == p[n] && q[m + 1] == p[n + 1];
      }
    }
    assert q[0] == p[k] && q[|q| - 1] == p[k];
  }

  /** A cycle that does not pass through the edited component was there before. */
  lemma {:induction false} OldLoop(t: Tables, u: Tables, id: Id, p: seq<Id>, i: nat, j: nat)
    requires OnlyEdits(t, u, id) && LivePath(u, p) && i < j < |p| && p[i] == p[j]
    requires forall k :: i <= k < j ==> p[k] != id
    ensures !Acyclic(t)
  {
    var loop := p[i..j + 1];
    forall m | 0 <= m < |loop| - 1 ensures loop[m + 1] in Children(u, loop[m]) {
      assert p[i + m + 1] in Children(u, p[i + m]);
    }
    assert id !in loop;
    OldPath(t, u, id, loop);
    assert loop[0] == loop[j - i];
  }

  /** Any cycle the edit has made passes through the edited component. */
  lemma {:induction false} NewCycleThroughEdit(t: Tables, u: Tables, id: Id)
    requires Acyclic(t) && OnlyEdits(t, u, id)
    requires forall q :: LivePath(u, q) && q[0] == id ==> Distinct(q)
    ensures Acyclic(u)
  {
    forall p | LivePath(u, p) ensures Distinct(p) {
      if i, j :| 0 <= i < j < |p| && p[i] == p[j] {
        if k :| i <= k < j && p[k] == id {
          TurnedRound(u, p, i, j, k);
        } else {
          OldLoop(t, u, id, p, i, j);
        }
      }
    }
  }

  /** Refreshing does not change the graph. */
  lemma {:induction false} RefreshKeepsGraph(t: Tables, done: set<Id>, x: Id)
    ensures Live(Refreshed(t, done), x) == Live(t, x) && Children(Refreshed(t, done), x) == Children(t, x)
  {
    if Live(t, x) {
      SameChildren(t.components[x].children, Refreshed(t, done).components[x].children);
    }
  }

  lemma {:induction false} SameChildren(ls: seq<ChildLine>, ms: seq<ChildLine>)
    requires |ls| == |ms| && forall k :: 0 <= k < |ls| ==> ms[k].child == ls[k].child
    ensures (set l | l in ls :: l.child) == (set l | l in ms :: l.child)
  {
  }

  lemma {:induction false} RefreshOneKeepsPaths(t: Tables, id: Id, p: seq<Id>)
    requires LivePath(RefreshOne(t, id).tables, p)
    ensures LivePath(t, p)
  {
  }

  /** Storing lines changes no child. */
  lemma {:induction false} StoredChildrenSame(t: Tables, lines: seq<ChildLine>, id: Id)
    ensures (set l | l in StoredChildren(lines) :: l.child) == (set l | l in lines :: l.child)
    ensures NoneLeadsBack(t, id, StoredChildren(lines)) <==> NoneLeadsBack(t, id, lines)
  {
    SameChildren(lines, StoredChildren(lines));
    assert forall k :: 0 <= k < |lines| ==> StoredChildren(lines)[k].child == lines[k].child;
  }

  /** Where a stored edit can have put a cycle, its refresh has looked. */
  lemma {:induction false} StoreKeepsAcyclic(t: Tables, id: Id, c: Component, ingredients: Option<seq<IngredientLine>>,
                                             children: Option<seq<ChildLine>>, unitCost: Option<real>)
    requires Acyclic(t) && c.live
    requires id in t.components ==> t.components[id].live && c.children == t.components[id].children
    requires id !in t.components ==> c.children == []
    requires Store(t, id, c, ingredients, children, unitCost).error.None?
    ensures Acyclic(Store(t, id, c, ingredients, children, unitCost).tables)
  {
    var u := t.(components := t.components[id := Written(c, ingredients, children, unitCost)]);
    assert OnlyEdits(t, u, id);
    if ingredients.None? && children.None? {
      forall q | LivePath(u, q) && q[0] == id ensures Distinct(q) {
        if id in t.components {
          forall x ensures Children(u, x) == Children(t, x) && Live(u, x) == Live(t, x) {}
          assert LivePath(t, q);
        } else {
          assert |q| > 1 ==> q[0 + 1] in Children(u, q[0]);
        }
      }
      NewCycleThroughEdit(t, u, id);
    } else {
      forall q | LivePath(u, q) && q[0] == id ensures Distinct(q) {
        SuccessCleansPaths(u, id, [], false, q);
      }
      NewCycleThroughEdit(t, u, id);
      forall p | LivePath(RefreshOne(u, id).tables, p) ensures Distinct(p) {
        RefreshOneKeepsPaths(u, id, p);
      }
    }
  }

  lemma {:induction false} RemoveKeepsAcyclic(t: Tables, id: Id)
    requires Acyclic(t) && Live(t, id)
    ensures Acyclic(t.(components := t.components[id := t.components[id].(live := false)]))
  {
  }

  lemma {:induction false} ApplyKeepsAcyclic(t: Tables, e: Edit)
    requires e.Create? ==> e.id !in t.components
    requires Acyclic(t) && Apply(t, e).error.None?
    ensures Acyclic(Apply(t, e).tables)
  {
    match e
    case Create(id, ingredients, children, unitCost) =>
      StoreKeepsAcyclic(t, id, Component(true, [], [], None), ingredients, children, unitCost);
    case Update(id, ingredients, children, unitCost) =>
      StoreKeepsAcyclic(t, id, t.components[id], ingredients, children, unitCost);
    case ReplaceIngredients(id, lines) => StoreKeepsAcyclic(t, id, t.components[id], Some(lines), None, None);
    case ReplaceChildren(id, lines) => StoreKeepsAcyclic(t, id, t.components[id], None, Some(lines), None);
    case Remove(id) => RemoveKeepsAcyclic(t, id);
  }

  /** A run of edits each of which returned without an error. */
  ghost predicate CleanRun(states: seq<Tables>, edits: seq<Edit>) {
    && |states| == |edits| + 1
    && forall k :: 0 <= k < |edits| ==>
         && (edits[k].Create? ==> edits[k].id !in states[k].components)
         && Apply(states[k], edits[k]) == Outcome(states[k + 1], None)
  }

  /** From an acyclic live recipe graph, every run of edits that return without error keeps it acyclic. */
  lemma {:induction false} RunKeepsAcyclic(states: seq<Tables>, edits: seq<Edit>)
    requires CleanRun(states, edits) && Acyclic(states[0])
    ensures Acyclic(states[|edits|])
  {
    if edits != [] {
      var n := |edits| - 1;
      RunKeepsAcyclic(states[..n + 1], edits[..n]);
      assert Apply(states[n], edits[n]) == Outcome(states[n + 1], None);
      ApplyKeepsAcyclic(states[n], edits[n]);
    }
  }

  // ----- A failed edit --------------------------------------------------------------------

  lemma {:induction false} RefreshOneGainsPaths(t: Tables, id: Id, p: seq<Id>)
    requires LivePath(t, p)
    ensures LivePath(RefreshOne(t, id).tables, p)
  {
    forall k | 0 <= k < |p| ensures Children(RefreshOne(t, id).tables, p[k]) == Children(t, p[k]) {
      RefreshKeepsGraph(t, {id}, p[k]);
    }
    forall x | x in p ensures Live(RefreshOne(t, id).tables, x) {
      RefreshKeepsGraph(t, {id}, x);
    }
  }

  /** `u` is `t` with `lines` as the child lines of `id`. */
  ghost predicate WithChildren(t: Tables, u: Tables, id: Id, lines: seq<ChildLine>) {
    && Live(t, id) && u.components.Keys == t.components.Keys && Live(u, id) && u.components[id].children == lines
    && OnlyEdits(t, u, id) && OnlyEdits(u, t, id)
  }

  lemma {:induction false} ClosesCycle(t: Tables, u: Tables, id: Id, lines: seq<ChildLine>, l: ChildLine, q: seq<Id>)
    requires WithChildren(t, u, id, lines) && Acyclic(t)
    requires LivePath(t, q) && q[|q| - 1] == id && l in lines && l.child == q[0]
    ensures LivePath(u, [id] + q) && !Distinct([id] + q)
  {
    var p := [id] + q;
    forall k | 0 <= k < |p| - 1 ensures p[k + 1] in Children(u, p[k]) {
      if k > 0 {
        assert q[k - 1 + 1] in Children(t, q[k - 1]) && q[k - 1] != id && q[k - 1] in q;
      }
    }
    assert p[0] == p[|p| - 1];
  }

  lemma {:induction false} NoReturn(t: Tables, u: Tables, id: Id, lines: seq<ChildLine>, p: seq<Id>)
    requires WithChildren(t, u, id, lines) && Acyclic(t)
    requires forall l, q :: l in lines && LivePath(t, q) && q[0] == l.child ==> q[|q| - 1] != id
    requires LivePath(u, p) && p[0] == id
    ensures Distinct(p)
  {
    if |p| > 1 {
      assert p[0 + 1] in Children(u, p[0]);
      var l :| l in lines && l.child == p[1];
      ChildNeverReturns(t, u, id, l, lines, p, |p| - 1);
      var rest := p[1..];
      forall k | 0 <= k < |rest| - 1 ensures rest[k + 1] in Children(u, rest[k]) {
        assert p[k + 1 + 1] in Children(u, p[k + 1]);
      }
      OldPath(t, u, id, rest);
      forall i, j | 0 <= i < j < |p| ensures p[i] != p[j] {
        if i > 0 {
          assert rest[i - 1] != rest[j - 1];
        }
      }
    }
  }

  lemma {:induction false} ChildNeverReturns(t: Tables, u: Tables, id: Id, l: ChildLine, lines: seq<ChildLine>,
                                             p: seq<Id>, n: nat)
    requires WithChildren(t, u, id, lines) && l in lines
    requires forall q :: LivePath(t, q) && q[0] == l.child ==> q[|q| - 1] != id
    requires LivePath(u, p) && n < |p| && |p| > 1 && p[1] == l.child
    ensures forall k :: 1 <= k <= n ==> p[k] != id
  {
    if n >= 1 {
      ChildNeverReturns(t, u, id, l, lines, p, n - 1);
      var q := p[1..n + 1];
      forall k | 0 <= k < |q| - 1 ensures q[k + 1] in Children(t, q[k]) {
        assert p[k + 1 + 1] in Children(u, p[k + 1]) && p[k + 1] in p;
      }
      forall x | x in q ensures Live(t, x) {
        assert x in p;
      }
      assert LivePath(t, q);
    }
  }

  /** None of the new children leads back to the component. */
  ghost predicate NoneLeadsBack(t: Tables, id: Id, lines: seq<ChildLine>) {
    forall l, q :: l in lines && LivePath(t, q) && q[0] == l.child ==> q[|q| - 1] != id
  }

  /**
   The lines of an edit that is accepted are stored whether or not the refresh throws; an edit that is not
   stores nothing.
   */
  lemma {:induction false} StoreAcyclicIff(t: Tables, id: Id, c: Component, ingredients: Option<seq<IngredientLine>>,
                                           lines: seq<ChildLine>, unitCost: Option<real>)
    requires Acyclic(t) && Live(t, id) && c.live
    ensures Acyclic(Store(t, id, c, ingredients, Some(lines), unitCost).tables) <==>
            !Accepted(t, ingredients, Some(lines), unitCost) || NoneLeadsBack(t, id, lines)
  {
    if Accepted(t, ingredients, Some(lines), unitCost) {
      var u := t.(components := t.components[id := Written(c, ingredients, Some(lines), unitCost)]);
      assert WithChildren(t, u, id, StoredChildren(lines));
      StoredChildrenSame(t, lines, id);
      RefreshedAcyclicIff(t, u, id, StoredChildren(lines));
    }
  }

  lemma {:induction false} RefreshedAcyclicIff(t: Tables, u: Tables, id: Id, lines: seq<ChildLine>)
    requires WithChildren(t, u, id, lines) && Acyclic(t)
    ensures Acyclic(RefreshOne(u, id).tables) <==> NoneLeadsBack(t, id, lines)
  {
    if l, q :| l in lines && LivePath(t, q) && q[0] == l.child && q[|q| - 1] == id {
      ClosesCycle(t, u, id, lines, l, q);
      RefreshOneGainsPaths(u, id, [id] + q);
    } else {
      forall p | LivePath(u, p) && p[0] == id ensures Distinct(p) {
        NoReturn(t, u, id, lines, p);
      }
      NewCycleThroughEdit(t, u, id);
      forall p | LivePath(RefreshOne(u, id).tables, p) ensures Distinct(p) {
        RefreshOneKeepsPaths(u, id, p);
      }
    }
  }

  /**
   What `replaceChildren` leaves behind, failed or not: the live graph stays acyclic exactly when the edit
   was not accepted or none of the new children leads back to the component.
   */
  lemma {:induction false} ReplaceChildrenAcyclicIff(t: Tables, id: Id, lines: seq<ChildLine>)
    requires Acyclic(t) && Live(t, id)
    ensures Acyclic(Apply(t, ReplaceChildren(id, lines)).tables) <==>
            !Accepted(t, None, Some(lines), None) || NoneLeadsBack(t, id, lines)
  {
    StoreAcyclicIff(t, id, t.components[id], None, lines, None);
  }

  /** So does an `update` with child lines, whatever else it changes. */
  lemma {:induction false} UpdateAcyclicIff(t: Tables, id: Id, ingredients: Option<seq<IngredientLine>>,
                                            lines: seq<ChildLine>, unitCost: Option<real>)
    requires Acyclic(t) && Live(t, id)
    ensures Acyclic(Apply(t, Update(id, ingredients, Some(lines), unitCost)).tables) <==>
            !Accepted(t, ingredients, Some(lines), unitCost) || NoneLeadsBack(t, id, lines)
  {
    StoreAcyclicIff(t, id, t.components[id], ingredients, lines, unitCost);
  }
}
