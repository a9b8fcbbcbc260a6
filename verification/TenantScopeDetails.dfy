/**
 What a scoped action does, read off the query as the caller wrote it: the rows it sees, the tenant its new rows get,
 and a `tenantId` the caller gave itself, which is left as it is.
 */
module TenantScopeDetails {
  import opened Common
  import opened TenantScope

  /**
   The rows seen: those the filter passes, of the tenant; or of the tenant named in the filter. A `tenantId` key
   without a value leaves the query open to the rows of all.
   */
  predicate Sees(where: Option<Where>, t: Tenant, id: Id, row: Row) {
    match where
    case None => row.tenant == t
    case Some(w) =>
      && w.test(id, row)
      && match w.tenant
         case NoKey => row.tenant == t
         case NoValue => true
         case Is(u) => row.tenant == u
  }

  function Seen(table: Table, where: Option<Where>, t: Tenant): (m: Table)
    ensures m.Keys <= table.Keys
  {
    map id | id in table && Sees(where, t, id, table[id]) :: table[id]
  }

  predicate Reads(action: Action) {
    Filters(action) && !Writes(action) && !action.Delete? && !action.DeleteMany?
  }

  predicate FailsOnNone(action: Action) {
    action.FindUniqueOrThrow? || action.FindFirstOrThrow? || action.Update? || action.Delete?
  }

  lemma {:induction false} SeenIsMatched(table: Table, t: Tenant, action: Action, args: Args)
    requires Filters(action)
    ensures Matched(table, Scoped(action, args, t).where) == Seen(table, args.where, t)
    ensures forall id :: id in table ==>
              (Matches(Scoped(action, args, t).where, id, table[id]) <==> Sees(args.where, t, id, table[id]))
  {
  }

  /** A reading action answers with the rows it sees and changes none. */
  lemma {:induction false} ReadIs(table: Table, t: Tenant, action: Action, args: Args, keys: Keys)
    requires Reads(action)
    ensures var o, seen := Issue(table, t, action, args, keys), Seen(table, args.where, t);
            && o.table == table
            && o.answer == if seen == map[] && FailsOnNone(action) then Failed(NotFound) else Rows(seen)
  {
    SeenIsMatched(table, t, action, args);
  }

  /** A deleting action removes the rows it sees, and no other. */
  lemma {:induction false} DeleteIs(table: Table, t: Tenant, action: Action, args: Args, keys: Keys)
    requires action.Delete? || action.DeleteMany?
    ensures var o, seen := Issue(table, t, action, args, keys), Seen(table, args.where, t);
            && (forall id :: id in o.table <==> id in table && id !in seen)
            && (forall id :: id in o.table ==> o.table[id] == table[id])
            && o.answer == if seen == map[] && FailsOnNone(action) then Failed(NotFound) else Rows(seen)
  {
    SeenIsMatched(table, t, action, args);
  }

  // ----- Updating -------------------------------------------------------------------------------------------------

  /** The row once changed: the fields given, and its tenant's unless the change names one. */
  predicate ChangedRow(was: Row, c: Change, now: Row) {
    && now.tenant == (match c.tenant case Of(u) => u case _ => was.tenant)
    && now.fields.Keys == was.fields.Keys + c.fields.Keys
    && forall f :: f in now.fields ==> now.fields[f] == if f in c.fields then c.fields[f] else was.fields[f]
  }

  /** The rows seen are changed, and the others as they were. */
  ghost predicate SeenChanged(table: Table, seen: Table, c: Change, after: Table) {
    && after.Keys == table.Keys
    && forall id :: id in table ==> if id in seen then ChangedRow(table[id], c, after[id]) else after[id] == table[id]
  }

  /** No row written shares a unique key with any other. */
  ghost predicate NoneShared(after: Table, written: set<Id>, keys: Keys)
    requires written <= after.Keys
  {
    forall i, j :: i in written && j in after && i != j ==> !Share(keys, i, after[i], j, after[j])
  }

  /**
   What a statement comes to: the table it leads to, and the rows written as its answer; or, when one of them would
   share a unique key, an error and no change.
   */
  ghost predicate Writing(table: Table, after: Table, written: set<Id>, keys: Keys, o: Outcome)
    requires written <= after.Keys
  {
    if NoneShared(after, written, keys)
    then o.table == after && o.answer.Rows? && o.answer.rows.Keys == written
         && forall id :: id in written ==> o.answer.rows[id] == after[id]
    else o == Outcome(table, Failed(UniqueViolation))
  }

  lemma {:induction false} WritingIs(table: Table, next: Table, written: Table, keys: Keys)
    requires written.Keys <= next.Keys && forall id :: id in written ==> written[id] == next[id]
    ensures Writing(table, next, written.Keys, keys, WriteRows(table, next, written, keys))
  {
    assert NoneShared(next, written.Keys, keys) <==> !KeyTaken(next, written, keys);
  }

  /** The rows seen are changed, all, or none where a unique key is taken. */
  ghost predicate Updating(table: Table, seen: Table, c: Change, keys: Keys, o: Outcome)
    requires seen.Keys <= table.Keys
  {
    exists after :: SeenChanged(table, seen, c, after) && Writing(table, after, seen.Keys, keys, o)
  }

  lemma {:induction false} RowsChanged(table: Table, w: Option<Where>, c: Change)
    ensures var next, seen := Updated(table, w, c), Matched(table, w);
            && SeenChanged(table, seen, c, next)
            && forall id :: id in seen ==> next[id] == Changed(table[id], c)
  {
  }

  lemma {:induction false} UpdatingIs(table: Table, w: Option<Where>, c: Change, keys: Keys)
    ensures Updating(table, Matched(table, w), c, keys, UpdateRows(table, w, c, keys))
  {
    var after, seen := Updated(table, w, c), Matched(table, w);
    RowsChanged(table, w, c);
    WritingIs(table, after, map id | id in seen :: Changed(table[id], c), keys);
    assert (map id | id in seen :: Changed(table[id], c)).Keys == seen.Keys;
  }

  /** An updating action changes the rows it sees. */
  lemma {:induction false} UpdateIs(table: Table, t: Tenant, action: Action, args: Args, keys: Keys)
    requires action.Update? || action.UpdateMany?
    ensures var o, seen := Issue(table, t, action, args, keys), Seen(table, args.where, t);
            if seen == map[] && FailsOnNone(action) then o == Outcome(table, Failed(NotFound))
            else Updating(table, seen, args.change, keys, o)
  {
    var a := Scoped(action, args, t);
    SeenIsMatched(table, t, action, args);
    UpdatingIs(table, a.where, args.change, keys);
    UpdateExecuted(table, action, a, keys);
  }

  lemma {:induction false} UpdateExecuted(table: Table, action: Action, a: Args, keys: Keys)
    requires action.Update? || action.UpdateMany?
    ensures Execute(table, action, a, keys) == if action.Update? && Matched(table, a.where) == map[]
                                               then Outcome(table, Failed(NotFound))
                                               else UpdateRows(table, a.where, a.change, keys)
  {
  }

  // ----- Creating -------------------------------------------------------------------------------------------------

  /** The tenant of a new row: the one it names, else the caller's. A null is nobody's, unless the row is upserted. */
  function OwnerOf(n: NewRow, t: Tenant, upserted: bool): (o: Option<Tenant>) {
    match n.tenant
    case Of(u) => Some(u)
    case Unset => Some(t)
    case Null => if upserted then Some(t) else None
  }

  ghost predicate AllOwned(news: seq<NewRow>, t: Tenant, upserted: bool) {
    forall n :: n in news ==> OwnerOf(n, t, upserted).Some?
  }

  /** The rows there were, and the new ones. */
  ghost predicate RowsAdded(table: Table, news: seq<NewRow>, t: Tenant, upserted: bool, after: Table) {
    && after.Keys == table.Keys + IdsOf(news)
    && (forall id :: id in table ==> after[id] == table[id])
    && forall n :: n in news ==> Some(after[n.id].tenant) == OwnerOf(n, t, upserted) && after[n.id].fields == n.fields
  }

  ghost predicate Creating(table: Table, news: seq<NewRow>, t: Tenant, upserted: bool, keys: Keys, o: Outcome) {
    if !AllOwned(news, t, upserted) then o == Outcome(table, Failed(Invalid))
    else if RepeatsId(news) || (exists n :: n in news && n.id in table)
    then o == Outcome(table, Failed(UniqueViolation))
    else exists after :: RowsAdded(table, news, t, upserted, after) && Writing(table, after, IdsOf(news), keys, o)
  }

  lemma {:induction false} FreshAt(news: seq<NewRow>)
    requires Insertable(news) && !RepeatsId(news)
    ensures Fresh(news).Keys == IdsOf(news)
    ensures forall n :: n in news ==> Fresh(news)[n.id] == Row(n.tenant.tenant, n.fields)
  {
    if news != [] {
      var n := |news| - 1;
      assert news == news[..n] + [news[n]];
      FreshAt(news[..n]);
      assert IdsOf(news) == IdsOf(news[..n]) + {news[n].id};
      forall m | m in news[..n] ensures m.id != news[n].id {
        var i :| 0 <= i < n && news[..n][i] == m;
      }
    }
  }

  /** `scoped` is `news` with the tenants the rows get. */
  ghost predicate WithOwners(news: seq<NewRow>, scoped: seq<NewRow>, t: Tenant, upserted: bool) {
    && |scoped| == |news|
    && forall i :: 0 <= i < |news| ==>
         && scoped[i].id == news[i].id && scoped[i].fields == news[i].fields
         && (scoped[i].tenant.Of? <==> OwnerOf(news[i], t, upserted).Some?)
         && (scoped[i].tenant.Of? ==> Some(scoped[i].tenant.tenant) == OwnerOf(news[i], t, upserted))
  }

  lemma {:induction false} SameIds(news: seq<NewRow>, scoped: seq<NewRow>, t: Tenant, upserted: bool)
    requires WithOwners(news, scoped, t, upserted)
    ensures IdsOf(scoped) == IdsOf(news) && (RepeatsId(scoped) <==> RepeatsId(news))
    ensures Insertable(scoped) <==> AllOwned(news, t, upserted)
  {
    forall id: Id ensures id in IdsOf(scoped) <==> id in IdsOf(news) {
      if n :| n in news && n.id == id {
        var i :| 0 <= i < |news| && news[i] == n;
        assert scoped[i] in scoped;
      }
      if n :| n in scoped && n.id == id {
        var i :| 0 <= i < |scoped| && scoped[i] == n;
        assert news[i] in news;
      }
    }
    forall i | 0 <= i < |news| ensures scoped[i] in scoped && news[i] in news {
    }
  }

  lemma {:induction false} AddedAre(table: Table, news: seq<NewRow>, scoped: seq<NewRow>, t: Tenant, upserted: bool)
    requires WithOwners(news, scoped, t, upserted) && Insertable(scoped) && !RepeatsId(scoped)
    requires IdsOf(scoped) * table.Keys == {}
    ensures RowsAdded(table, news, t, upserted, table + Fresh(scoped)) && Fresh(scoped).Keys == IdsOf(news)
  {
    SameIds(news, scoped, t, upserted);
    FreshAt(scoped);
    forall id | id in table ensures id !in Fresh(scoped) {
      assert id in Fresh(scoped) ==> id in IdsOf(scoped) * table.Keys;
    }
    forall n | n in news
      ensures n.id in Fresh(scoped) && Some(Fresh(scoped)[n.id].tenant) == OwnerOf(n, t, upserted)
              && Fresh(scoped)[n.id].fields == n.fields
    {
      var i :| 0 <= i < |news| && news[i] == n;
      assert scoped[i] in scoped;
    }
  }

  lemma {:induction false} InsertIs(table: Table, news: seq<NewRow>, scoped: seq<NewRow>, t: Tenant, upserted: bool,
                                    keys: Keys)
    requires WithOwners(news, scoped, t, upserted)
    ensures Creating(table, news, t, upserted, keys, InsertRows(table, scoped, keys))
  {
    SameIds(news, scoped, t, upserted);
    IdsFree(table, news);
    if AllOwned(news, t, upserted) && !RepeatsId(news) && IdsOf(news) * table.Keys == {} {
      AddedAre(table, news, scoped, t, upserted);
      WritingIs(table, table + Fresh(scoped), Fresh(scoped), keys);
    }
  }

  lemma {:induction false} IdsFree(table: Table, news: seq<NewRow>)
    ensures IdsOf(news) * table.Keys == {} <==> forall n :: n in news ==> n.id !in table
  {
    forall n | n in news ensures n.id in IdsOf(news) {
    }
    if n :| n in news && n.id in table {
      assert n.id in IdsOf(news) * table.Keys;
    }
  }

  /** A creating action adds the rows given, each to the tenant it names or else the caller's; all, or none. */
  lemma {:induction false} CreateIs(table: Table, t: Tenant, action: Action, args: Args, keys: Keys)
    requires action.Create? || action.CreateMany?
    ensures Creating(table, args.data, t, false, keys, Issue(table, t, action, args, keys))
  {
    InsertIs(table, args.data, Scoped(action, args, t).data, t, false, keys);
  }

  /** An upsert changes the rows it sees; only where it sees none does it add one. */
  lemma {:induction false} UpsertIs(table: Table, t: Tenant, args: Args, keys: Keys)
    ensures var o, seen := Issue(table, t, Upsert, args, keys), Seen(table, args.where, t);
            if seen != map[]
            then Updating(table, seen, args.change, keys, o)
            else if args.create.None? then o == Outcome(table, Failed(Invalid))
            else Creating(table, [args.create.value], t, true, keys, o)
  {
    var a := Scoped(Upsert, args, t);
    SeenIsMatched(table, t, Upsert, args);
    UpsertExecuted(table, a, keys);
    if Seen(table, args.where, t) != map[] {
      UpdatingIs(table, a.where, args.change, keys);
    } else if args.create.Some? {
      InsertIs(table, [args.create.value], [a.create.value], t, true, keys);
    }
  }

  lemma {:induction false} UpsertExecuted(table: Table, a: Args, keys: Keys)
    ensures Execute(table, Upsert, a, keys) == if Matched(table, a.where) != map[]
                                               then UpdateRows(table, a.where, a.change, keys)
                                               else if a.create.None? then Outcome(table, Failed(Invalid))
                                               else InsertRows(table, [a.create.value], keys)
  {
  }
}
