/** `saveMenuConfiguration` and `getMenuConfiguration` over the tables of a plan. */
module MenuStore {
  import opened Common
  import opened FloorPlan
  import opened MenuAssignments
  import opened PlanStore

  /** The part of a menu map given so far: the entries of the elements already done. */
  function Restricted(m: MenuMap, done: set<Id>): (r: MenuMap) {
    map e | e in m && e in done :: m[e]
  }

  /** The assignments while the items of `e` are upserted: those of `done` have their value. */
  function Upserted(menus: map<(Id, Id), bool>, e: Id, items: map<Id, bool>): (r: map<(Id, Id), bool>) {
    map k | k in menus.Keys + (set i | i in items :: (e, i)) :: if k.0 == e && k.1 in items then items[k.1]
        else menus[k]
  }

  lemma {:induction false} UpsertOne(menus: map<(Id, Id), bool>, e: Id, items: map<Id, bool>, i: Id, enabled: bool)
    ensures Upserted(menus, e, items)[(e, i) := enabled] == Upserted(menus, e, items[i := enabled])
  {
  }

  lemma {:induction false} UpsertNone(menus: map<(Id, Id), bool>, e: Id)
    ensures Upserted(menus, e, map[]) == menus
  {
  }

  /** Deletes the assignments of `e` outside its items. */
  function OnlyItems(menus: map<(Id, Id), bool>, e: Id, items: map<Id, bool>): (r: map<(Id, Id), bool>) {
    map k | k in menus && (k.0 == e ==> k.1 in items) :: menus[k]
  }

  /** What the outer loop makes of one element. */
  function ElementSaved(menus: map<(Id, Id), bool>, e: Id, items: map<Id, bool>): (r: map<(Id, Id), bool>) {
    if items == map[] then Upserted(menus, e, items) else OnlyItems(Upserted(menus, e, items), e, items)
  }

  lemma {:induction false} ElementSavedAt(menus: map<(Id, Id), bool>, e: Id, items: map<Id, bool>, x: Id, i: Id)
    ensures (x, i) in ElementSaved(menus, e, items) <==> if x == e && items != map[] then i in items
            else (x, i) in menus
    ensures (x, i) in ElementSaved(menus, e, items) ==>
              ElementSaved(menus, e, items)[(x, i)] == if x == e && items != map[] then items[i] else menus[(x, i)]
  {
  }

  /** Upserting the items of an element, then deleting its other assignments, gives the element its map. */
  lemma {:induction false} ElementDone(menus: map<(Id, Id), bool>, m: MenuMap, done: set<Id>, e: Id)
    requires e in m && e !in done
    ensures SavedMenus(menus, Restricted(m, done + {e})) ==
            ElementSaved(SavedMenus(menus, Restricted(m, done)), e, m[e])
  {
    var before, after := ElementSaved(SavedMenus(menus, Restricted(m, done)), e, m[e]),
        SavedMenus(menus, Restricted(m, done + {e}));
    forall k: (Id, Id)
      ensures k in before <==> k in after
      ensures k in before ==> before[k] == after[k]
    {
      ElementDoneAt(menus, m, done, e, k.0, k.1);
      assert k == (k.0, k.1);
    }
  }

  lemma {:induction false} ElementDoneAt(menus: map<(Id, Id), bool>, m: MenuMap, done: set<Id>, e: Id, x: Id, i: Id)
    requires e in m && e !in done
    ensures var before, after := ElementSaved(SavedMenus(menus, Restricted(m, done)), e, m[e]),
            SavedMenus(menus, Restricted(m, done + {e}));
            ((x, i) in before <==> (x, i) in after) && ((x, i) in before ==> before[(x, i)] == after[(x, i)])
  {
    ElementSavedAt(SavedMenus(menus, Restricted(m, done)), e, m[e], x, i);
    SavedMenuAt(menus, Restricted(m, done), x, i);
    SavedMenuAt(menus, Restricted(m, done + {e}), x, i);
    GivenIn(m, done, x);
    GivenIn(m, done + {e}, x);
  }

  lemma {:induction false} GivenIn(m: MenuMap, done: set<Id>, x: Id)
    ensures Given(Restricted(m, done), x) <==> x in done && Given(m, x)
    ensures Given(Restricted(m, done), x) ==> Restricted(m, done)[x] == m[x]
  {
  }

  lemma {:induction false} NothingSaved(menus: map<(Id, Id), bool>)
    ensures SavedMenus(menus, map[]) == menus
  {
  }

  /** The inner loop: one upsert for each item of an element. */
  method UpsertItems(store: Store, e: Id, items: map<Id, bool>)
    modifies store`menus
    ensures store.menus == Upserted(old(store.menus), e, items)
  {
    var left: set<Id>, upserted := items.Keys, map[];
    UpsertNone(store.menus, e);
    while left != {}
      invariant left <= items.Keys && upserted == items - left
      invariant store.menus == Upserted(old(store.menus), e, upserted)
      decreases left
    {
      var i :| i in left;
      UpsertOne(old(store.menus), e, upserted, i, items[i]);
      store.menus := store.menus[(e, i) := items[i]];
      left, upserted := left - {i}, upserted[i := items[i]];
    }
    assert upserted == items;
  }

  /** The upserts of one element, then the deletion of its other assignments unless it is given none. */
  method SaveElement(store: Store, e: Id, items: map<Id, bool>)
    modifies store`menus
    ensures store.menus == ElementSaved(old(store.menus), e, items)
  {
    UpsertItems(store, e, items);
    if items != map[] {
      store.menus := OnlyItems(store.menus, e, items);
    }
  }

  /** `saveMenuConfiguration`; the transaction aborts when a given element or one of its items does not exist. */
  method SaveMenuConfiguration(store: Store, catalog: set<Id>, m: MenuMap) returns (ok: bool)
    modifies store`menus
    ensures ok <==> References(store.Contents(), catalog, m)
    ensures store.menus == if ok then SavedMenus(old(store.menus), m) else old(store.menus)
  {
    var before := store.menus;
    var left: set<Id>, done := m.Keys, {};
    assert Restricted(m, {}) == map[];
    NothingSaved(before);
    while left != {}
      invariant left <= m.Keys && done == m.Keys - left
      invariant store.menus == SavedMenus(before, Restricted(m, done))
      invariant forall e :: e in done && m[e] != map[] ==> e in store.elements && m[e].Keys <= catalog
      decreases left
    {
      var e :| e in left;
      if m[e] != map[] && (e !in store.elements || !(m[e].Keys <= catalog)) {
        store.menus := before;
        return false;
      }
      SaveElement(store, e, m[e]);
      ElementDone(before, m, done, e);
      left, done := left - {e}, done + {e};
    }
    assert Restricted(m, done) == m;
    ok := true;
  }

  function MenusOf(menus: map<(Id, Id), bool>, els: set<Id>): (r: MenuMap) {
    map e | e in els && MenuOf(menus, e) != map[] :: MenuOf(menus, e)
  }

  lemma {:induction false} MenusOfStep(menus: map<(Id, Id), bool>, els: set<Id>, e: Id)
    ensures MenusOf(menus, els + {e}) == if MenuOf(menus, e) != map[] then MenusOf(menus, els)[e := MenuOf(menus, e)]
            else MenusOf(menus, els)
  {
  }

  /** `getMenuConfiguration`. */
  method GetMenuConfiguration(store: Store, c: Id) returns (loaded: MenuMap)
    ensures loaded == LoadedMenus(store.Contents(), c)
  {
    var left, existing := Existing(store.Contents(), c), Existing(store.Contents(), c);
    loaded := map[];
    while left != {}
      invariant left <= existing && loaded == MenusOf(store.menus, existing - left)
      decreases left
    {
      var e :| e in left;
      MenusOfStep(store.menus, existing - left, e);
      assert existing - (left - {e}) == existing - left + {e};
      if MenuOf(store.menus, e) != map[] {
        loaded := loaded[e := MenuOf(store.menus, e)];
      }
      left := left - {e};
    }
  }
}
