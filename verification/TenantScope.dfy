/**
 Automatic tenant scoping (tenant-scope.util.ts) as non-interference: a scoped action of one tenant
 neither sees nor changes the rows of another.

 The table is that of one scoped model. The rest of a filter is any test of a single row, and every
 reading action is represented by the rows it matches, of which its answer is a function. Besides its
 id a row has any number of unique keys, which no other row of the table may have, whoever's it is.
 */
module TenantScope {
  import opened Common

  type Id = string
  type Tenant = string
  datatype Row = Row(tenant: Tenant, fields: map<string, string>)
  type Table = map<Id, Row>

  // ----- Which models are scoped -----------------------------------------------------------------

  datatype Field = Field(name: string, isRequired: bool, isList: bool, isScalar: bool)
  datatype Model = Model(name: string, fields: seq<Field>)

  predicate TenantField(f: Field) {
    f.name == "tenantId" && f.isRequired && !f.isList && f.isScalar
  }

  predicate CarriesTenant(m: Model) {
    exists f :: f in m.fields && TenantField(f)
  }

  method BuildTenantScopedModelSet(models: seq<Model>) returns (names: set<string>)
    ensures forall n :: n in names <==> exists m :: m in models && m.name == n && CarriesTenant(m)
  {
    names := {};
    for k := 0 to |models|
      invariant forall n :: n in names <==> exists m :: m in models[..k] && m.name == n && CarriesTenant(m)
    {
      assert models[..k + 1] == models[..k] + [models[k]];
      if CarriesTenant(models[k]) {
        names := names + {models[k].name};
      }
    }
    assert models[..|models|] == models;
  }

  // ----- Queries and their scoping ----------------------------------------------------------------

  datatype Action =
    | FindUnique | FindUniqueOrThrow | FindFirst | FindFirstOrThrow | FindMany | Count | Aggregate | GroupBy
    | Update | UpdateMany | Delete | DeleteMany | Upsert | Create | CreateMany | Other

  /** The `tenantId` key of a filter: missing, there without a value, or there. */
  datatype TenantKey = NoKey | NoValue | Is(tenant: Tenant)
  datatype Where = Where(tenant: TenantKey, test: (Id, Row) -> bool)
  datatype TenantValue = Unset | Null | Of(tenant: Tenant)
  datatype NewRow = NewRow(id: Id, tenant: TenantValue, fields: map<string, string>)
  datatype Change = Change(tenant: TenantValue, fields: map<string, string>)
  datatype Args = Args(where: Option<Where>, data: seq<NewRow>, create: Option<NewRow>, change: Change)

  predicate Filters(action: Action) {
    !action.Create? && !action.CreateMany? && !action.Other?
  }

  /** Adds the tenant to the filter unless it has a `tenantId` key already. */
  function MergeTenantWhere(where: Option<Where>, t: Tenant): (w: Where) {
    if where.None? then Where(Is(t), (_: Id, _: Row) => true)
    else if where.value.tenant.NoKey? then where.value.(tenant := Is(t)) else where.value
  }

  function SetTenant(row: NewRow, t: Tenant): (r: NewRow) {
    if row.tenant.Unset? then row.(tenant := Of(t)) else row
  }

  /** An upsert's new row also gets the tenant in place of a null. */
  function SetTenantOnUpsert(row: NewRow, t: Tenant): (r: NewRow) {
    if row.tenant.Of? then row else row.(tenant := Of(t))
  }

  function Scoped(action: Action, args: Args, t: Tenant): (r: Args) {
    if action.Create? || action.CreateMany?
        then args.(data := seq(|args.data|, i requires 0 <= i < |args.data| => SetTenant(args.data[i], t)))
    else if action.Other? then args
    else
      var a := args.(where := Some(MergeTenantWhere(args.where, t)));
      if action.Upsert? && a.create.Some? then a.(create := Some(SetTenantOnUpsert(a.create.value, t))) else a
  }

  /** Scoping what is scoped already, for whatever tenant, changes nothing. */
  lemma {:induction false} ScopingTwice(action: Action, args: Args, t: Tenant, u: Tenant)
    ensures Scoped(action, Scoped(action, args, t), u) == Scoped(action, args, t)
  {
  }

  class Params {
    const action: Action
    var args: Args

    constructor (action: Action, args: Args)
      ensures this.action == action && this.args == args
    {
      this.action, this.args := action, args;
    }

    /** `applyTenantScope`, in place. */
    method ApplyTenantScope(t: Tenant)
      modifies this
      ensures args == Scoped(action, old(args), t)
    {
      match action
      case Create | CreateMany =>
        var data := args.data;
        for k := 0 to |data|
          invariant |data| == |old(args).data| && args == old(args)
          invariant forall i :: 0 <= i < |data| ==> data[i] == if i < k then SetTenant(old(args).data[i], t)
                    else old(args).data[i]
        {
          if data[k].tenant.Unset? {
            data := data[k := data[k].(tenant := Of(t))];
          }
        }
        args := args.(data := data);
      case Upsert =>
        args := args.(where := Some(MergeTenantWhere(args.where, t)));
        if args.create.Some? && !args.create.value.tenant.Of? {
          args := args.(create := Some(args.create.value.(tenant := Of(t))));
        }
      case Other =>
      case _ =>
        args := args.(where := Some(MergeTenantWhere(args.where, t)));
    }
  }

  // ----- What the database does with a query ---------------------------------------------------------

  datatype Error = NotFound | UniqueViolation | Invalid
  datatype Answer = Rows(rows: Table) | Failed(error: Error)
  datatype Outcome = Outcome(table: Table, answer: Answer)

  predicate Matches(w: Option<Where>, id: Id, row: Row) {
    w.Some? ==> (w.value.tenant.Is? ==> row.tenant == w.value.tenant.tenant) && w.value.test(id, row)
  }

  function Matched(table: Table, w: Option<Where>): (m: Table) {
    map id | id in table && Matches(w, id, table[id]) :: table[id]
  }

  function Changed(row: Row, c: Change): (r: Row) {
    Row(if c.tenant.Of? then c.tenant.tenant else row.tenant, row.fields + c.fields)
  }

  /** The values of a row under the unique constraints of its model. */
  type Keys = (Id, Row) -> set<string>

  predicate Share(keys: Keys, i: Id, a: Row, j: Id, b: Row) {
    keys(i, a) * keys(j, b) != {}
  }

  /** A written row has a unique key of some other row. */
  predicate KeyTaken(table: Table, written: Table, keys: Keys) {
    exists i, j :: i in written && j in table && i != j && Share(keys, i, written[i], j, table[j])
  }

  /** The statement that turns `table` into `next`, unless it breaks a unique constraint. */
  function WriteRows(table: Table, next: Table, written: Table, keys: Keys): (o: Outcome) {
    if KeyTaken(next, written, keys) then Outcome(table, Failed(UniqueViolation)) else Outcome(next, Rows(written))
  }

  function Updated(table: Table, w: Option<Where>, c: Change): (next: Table) {
    map id | id in table :: if Matches(w, id, table[id]) then Changed(table[id], c) else table[id]
  }

  function UpdateRows(table: Table, w: Option<Where>, c: Change, keys: Keys): (o: Outcome) {
    WriteRows(table, Updated(table, w, c), map id | id in Matched(table, w) :: Changed(table[id], c), keys)
  }

  function IdsOf(news: seq<NewRow>): (s: set<Id>) {
    set n | n in news :: n.id
  }

  predicate Insertable(news: seq<NewRow>) {
    forall n :: n in news ==> n.tenant.Of?
  }

  function Fresh(news: seq<NewRow>): (m: Table)
    requires Insertable(news)
  {
    if news == [] then map[]
    else
      assert forall n :: n in news[..|news| - 1] ==> n in news;
      Fresh(news[..|news| - 1])[news[|news| - 1].id := Row(news[|news| - 1].tenant.tenant, news[|news| - 1].fields)]
  }

  predicate RepeatsId(news: seq<NewRow>) {
    exists i, j :: 0 <= i < j < |news| && news[i].id == news[j].id
  }

  function InsertRows(table: Table, news: seq<NewRow>, keys: Keys): (o: Outcome) {
    if !Insertable(news) then Outcome(table, Failed(Invalid))
    else if RepeatsId(news) || IdsOf(news) * table.Keys != {} then Outcome(table, Failed(UniqueViolation))
    else WriteRows(table, table + Fresh(news), Fresh(news), keys)
  }

  function DeleteRows(table: Table, w: Option<Where>): (o: Outcome) {
    Outcome(table - Matched(table, w).Keys, Rows(Matched(table, w)))
  }

  function Execute(table: Table, action: Action, a: Args, keys: Keys): (o: Outcome) {
    var none := Matched(table, a.where) == map[];
    match action
    case Create | CreateMany => InsertRows(table, a.data, keys)
    case Update => if none then Outcome(table, Failed(NotFound)) else UpdateRows(table, a.where, a.change, keys)
    case UpdateMany => UpdateRows(table, a.where, a.change, keys)
    case Delete => if none then Outcome(table, Failed(NotFound)) else DeleteRows(table, a.where)
    case DeleteMany => DeleteRows(table, a.where)
    case Upsert =>
      if !none then UpdateRows(table, a.where, a.change, keys)
      else if a.create.None? then Outcome(table, Failed(Invalid)) else InsertRows(table, [a.create.value], keys)
    case FindUniqueOrThrow | FindFirstOrThrow => Outcome(table, if none then Failed(NotFound)
                                                         else Rows(Matched(table, a.where)))
    case _ => Outcome(table, Rows(Matched(table, a.where)))
  }

  // ----- Non-interference of one action -----------------------------------------------------------------

  function View(table: Table, t: Tenant): (v: Table) {
    map id | id in table && table[id].tenant == t :: table[id]
  }

  /** The caller gives no `tenantId` of its own. */
  predicate Plain(args: Args) {
    && (args.where.Some? ==> args.where.value.tenant.NoKey?)
    && (forall n :: n in args.data ==> n.tenant.Unset?)
    && (args.create.Some? ==> !args.create.value.tenant.Of?)
    && args.change.tenant.Unset?
  }

  /** What a handled action amounts to when issued for tenant `t`. */
  function Issue(table: Table, t: Tenant, action: Action, args: Args, keys: Keys): (o: Outcome) {
    Execute(table, action, Scoped(action, args, t), keys)
  }

  predicate Writes(action: Action) {
    action.Create? || action.CreateMany? || action.Update? || action.UpdateMany? || action.Upsert?
  }

  /** A row of another tenant has the id or a unique key of one of these. */
  predicate HeldElsewhere(table: Table, t: Tenant, written: Table, keys: Keys) {
    exists i, j :: i in written && j in table && table[j].tenant != t
        && (i == j || Share(keys, i, written[i], j, table[j]))
  }

  /**
   On the rows of `t` alone the action would write a row whose id or unique key a row of another tenant
   has: the only trace other rows leave.
   */
  predicate Collides(table: Table, t: Tenant, action: Action, args: Args, keys: Keys) {
    var local := Issue(View(table, t), t, action, args, keys);
    Writes(action) && local.answer.Rows? && HeldElsewhere(table, t, local.answer.rows, keys)
  }

  ghost predicate Isolated(table: Table, t: Tenant, full: Outcome, local: Outcome, collides: bool) {
    && ((full.answer == local.answer && View(full.table, t) == local.table) <==> !collides)
    && forall u :: u != t ==> View(full.table, u) == View(table, u)
  }

  /** `next` differs from `table` in rows of `t` alone. */
  ghost predicate OthersSame(table: Table, next: Table, t: Tenant) {
    forall id :: (id in table && table[id].tenant != t) || (id in next && next[id].tenant != t) ==>
      id in table && id in next && next[id] == table[id]
  }

  lemma {:induction false} OthersViews(table: Table, next: Table, t: Tenant)
    requires OthersSame(table, next, t)
    ensures forall u :: u != t ==> View(next, u) == View(table, u)
  {
  }

  /** A row of the whole table is a row of `t` or of another tenant. */
  lemma {:induction false} KeyTakenSplits(table: Table, next: Table, t: Tenant, written: Table, keys: Keys)
    requires OthersSame(table, next, t)
    requires forall i :: i in written ==> i in next && next[i] == written[i] && written[i].tenant == t
    ensures KeyTaken(next, written, keys) <==>
                KeyTaken(View(next, t), written, keys) || HeldElsewhere(table, t, written, keys)
  {
    if i, j :| i in written && j in next && i != j && Share(keys, i, written[i], j, next[j]) {
      if next[j].tenant == t {
        assert j in View(next, t) && View(next, t)[j] == next[j];
      } else {
        assert j in table && table[j] == next[j];
      }
    }
    if i, j :| i in written && j in table && table[j].tenant != t
               && (i == j || Share(keys, i, written[i], j, table[j])) {
      assert j in next && next[j] == table[j];
    }
    if i, j :| i in written && j in View(next, t) && i != j && Share(keys, i, written[i], j, View(next, t)[j]) {
      assert j in next && next[j] == View(next, t)[j];
    }
  }

  lemma {:induction false} WriteIsolated(table: Table, t: Tenant, next: Table, written: Table, keys: Keys)
    requires OthersSame(table, next, t)
    requires forall i :: i in written ==> i in next && next[i] == written[i] && written[i].tenant == t
    ensures var local := WriteRows(View(table, t), View(next, t), written, keys);
            Isolated(table, t, WriteRows(table, next, written, keys), local,
                     local.answer.Rows? && HeldElsewhere(table, t, written, keys))
  {
    KeyTakenSplits(table, next, t, written, keys);
    OthersViews(table, next, t);
  }

  lemma {:induction false} MatchedInView(table: Table, t: Tenant, w: Option<Where>)
    requires w.Some? && w.value.tenant == Is(t)
    ensures Matched(table, w) == Matched(View(table, t), w)
  {
  }

  predicate Hits(o: Outcome, table: Table, t: Tenant, keys: Keys) {
    o.answer.Rows? && HeldElsewhere(table, t, o.answer.rows, keys)
  }

  lemma {:induction false} UpdateIsolated(table: Table, t: Tenant, w: Option<Where>, c: Change, keys: Keys)
    requires w.Some? && w.value.tenant == Is(t) && c.tenant.Unset?
    ensures var local := UpdateRows(View(table, t), w, c, keys);
            Isolated(table, t, UpdateRows(table, w, c, keys), local, Hits(local, table, t, keys))
  {
    var next := Updated(table, w, c);
    var written := map id | id in Matched(table, w) :: Changed(table[id], c);
    assert View(next, t) == Updated(View(table, t), w, c);
    MatchedInView(table, t, w);
    assert written == map id | id in Matched(View(table, t), w) :: Changed(View(table, t)[id], c);
    WriteIsolated(table, t, next, written, keys);
  }

  lemma {:induction false} DeleteIsolated(table: Table, t: Tenant, w: Option<Where>)
    requires w.Some? && w.value.tenant == Is(t)
    ensures Isolated(table, t, DeleteRows(table, w), DeleteRows(View(table, t), w), false)
  {
    MatchedInView(table, t, w);
  }

  lemma {:induction false} FreshRows(news: seq<NewRow>, t: Tenant)
    requires forall n :: n in news ==> n.tenant == Of(t)
    ensures Fresh(news).Keys == IdsOf(news) && forall id :: id in Fresh(news) ==> Fresh(news)[id].tenant == t
  {
    if news != [] {
      var n := |news| - 1;
      assert news == news[..n] + [news[n]];
      FreshRows(news[..n], t);
      assert IdsOf(news) == IdsOf(news[..n]) + {news[n].id};
    }
  }

  lemma {:induction false} AddedToView(table: Table, t: Tenant, more: Table)
    requires table.Keys * more.Keys == {} && forall id :: id in more ==> more[id].tenant == t
    ensures View(table + more, t) == View(table, t) + more && OthersSame(table, table + more, t)
  {
    forall id | id in table ensures id !in more {
      assert id in more ==> id in table.Keys * more.Keys;
    }
  }

  lemma {:induction false} InsertIsolated(table: Table, t: Tenant, news: seq<NewRow>, keys: Keys)
    requires forall n :: n in news ==> n.tenant == Of(t)
    ensures var local := InsertRows(View(table, t), news, keys);
            Isolated(table, t, InsertRows(table, news, keys), local, Hits(local, table, t, keys))
  {
    var written := Fresh(news);
    FreshRows(news, t);
    if IdsOf(news) * table.Keys == {} {
      AddedToView(table, t, written);
      WriteIsolated(table, t, table + written, written, keys);
    } else {
      IdTaken(table, t, written, keys);
    }
  }

  /** A taken id is one of `t` or of another tenant. */
  lemma {:induction false} IdTaken(table: Table, t: Tenant, written: Table, keys: Keys)
    requires written.Keys * table.Keys != {}
    ensures written.Keys * View(table, t).Keys != {} || HeldElsewhere(table, t, written, keys)
  {
    var id :| id in written.Keys * table.Keys;
    assert id in written && id in table;
    if table[id].tenant == t {
      assert id in written.Keys * View(table, t).Keys;
    }
  }

  lemma {:induction false} UpdatesIsolated(table: Table, t: Tenant, action: Action, a: Args, keys: Keys)
    requires (action.Update? || action.UpdateMany?) && a.where.Some? && a.where.value.tenant == Is(t)
             && a.change.tenant.Unset?
    ensures var local := Execute(View(table, t), action, a, keys);
            Isolated(table, t, Execute(table, action, a, keys), local, Hits(local, table, t, keys))
  {
    MatchedInView(table, t, a.where);
    UpdateIsolated(table, t, a.where, a.change, keys);
  }

  lemma {:induction false} DeletesIsolated(table: Table, t: Tenant, action: Action, a: Args, keys: Keys)
    requires (action.Delete? || action.DeleteMany?) && a.where.Some? && a.where.value.tenant == Is(t)
    ensures var local := Execute(View(table, t), action, a, keys);
            Isolated(table, t, Execute(table, action, a, keys), local, false)
  {
    MatchedInView(table, t, a.where);
    DeleteIsolated(table, t, a.where);
  }

  lemma {:induction false} ReadsIsolated(table: Table, t: Tenant, action: Action, a: Args, keys: Keys)
    requires Filters(action) && !Writes(action) && !action.Delete? && !action.DeleteMany?
    requires a.where.Some? && a.where.value.tenant == Is(t)
    ensures var local := Execute(View(table, t), action, a, keys);
            Isolated(table, t, Execute(table, action, a, keys), local, false)
  {
    MatchedInView(table, t, a.where);
  }

  lemma {:induction false} UpsertIsolated(table: Table, t: Tenant, a: Args, keys: Keys)
    requires a.where.Some? && a.where.value.tenant == Is(t) && a.change.tenant.Unset?
    requires a.create.Some? ==> a.create.value.tenant == Of(t)
    ensures var local := Execute(View(table, t), Upsert, a, keys);
            Isolated(table, t, Execute(table, Upsert, a, keys), local, Hits(local, table, t, keys))
  {
    MatchedInView(table, t, a.where);
    UpdateIsolated(table, t, a.where, a.change, keys);
    if a.create.Some? {
      InsertIsolated(table, t, [a.create.value], keys);
    }
  }

  /**
   One handled action of tenant `t`: other tenants' rows stay as they are; and its answer and its
   effect on the rows of `t` are those it has on the rows of `t` alone, exactly when no row it would
   write has the id or a unique key of a row of another tenant.
   */
  lemma {:induction false} ActionIsolated(table: Table, t: Tenant, action: Action, args: Args, keys: Keys)
    requires !action.Other? && Plain(args)
    ensures var full, local := Issue(table, t, action, args, keys), Issue(View(table, t), t, action, args, keys);
            (full.answer == local.answer && View(full.table, t) == local.table) <==>
                !Collides(table, t, action, args, keys)
    ensures forall u :: u != t ==> View(Issue(table, t, action, args, keys).table, u) == View(table, u)
  {
    var a := Scoped(action, args, t);
    if action.Create? || action.CreateMany? {
      InsertIsolated(table, t, a.data, keys);
    } else if action.Upsert? {
      UpsertIsolated(table, t, a, keys);
    } else if action.Update? || action.UpdateMany? {
      UpdatesIsolated(table, t, action, a, keys);
    } else if action.Delete? || action.DeleteMany? {
      DeletesIsolated(table, t, action, a, keys);
    } else {
      ReadsIsolated(table, t, action, a, keys);
    }
  }

  /** One unique column, `code`. */
  function ByCode(id: Id, row: Row): (keys: set<string>) {
    if "code" in row.fields then {row.fields["code"]} else {}
  }

  /** The arguments of a creation by `t`, scoped. */
  function OneRow(id: Id, tenant: TenantValue, code: string): (a: Args) {
    Args(None, [NewRow(id, tenant, map["code" := code])], None, Change(Unset, map[]))
  }

  lemma {:induction false} FreshOne(id: Id, t: Tenant, code: string)
    ensures var news := OneRow(id, Of(t), code).data;
            && Insertable(news) && !RepeatsId(news) && IdsOf(news) == {id}
            && Fresh(news) == map[id := Row(t, map["code" := code])]
    ensures Scoped(Create, OneRow(id, Unset, code), t).data == OneRow(id, Of(t), code).data
  {
    var news := OneRow(id, Of(t), code).data;
    assert news[..0] == [];
  }

  /** A fresh id does not help: a unique key that another tenant's row has makes the insert fail. */
  lemma {:induction false} KeyOfAnotherTenant(id: Id, other: Id, t: Tenant, u: Tenant, code: string)
    requires t != u && id != other
    ensures var table := map[other := Row(u, map["code" := code])];
            && Issue(table, t, Create, OneRow(id, Unset, code), ByCode).answer == Failed(UniqueViolation)
            && Issue(View(table, t), t, Create, OneRow(id, Unset, code), ByCode).answer
               == Rows(map[id := Row(t, map["code" := code])])
  {
    var table := map[other := Row(u, map["code" := code])];
    var written := map[id := Row(t, map["code" := code])];
    FreshOne(id, t, code);
    assert code in ByCode(id, written[id]) * ByCode(other, (table + written)[other]);
    assert Share(ByCode, id, written[id], other, (table + written)[other]);
    assert View(table, t) == map[];
    var none: Table := map[];
    assert none + written == written;
  }

  // ----- Non-interference of whole runs -------------------------------------------------------------------

  datatype Request = Request(tenant: Tenant, action: Action, args: Args)
  datatype Trace = Trace(table: Table, answers: seq<Answer>)

  function Run(table: Table, rs: seq<Request>, keys: Keys): (r: Trace)
    ensures |r.answers| == |rs|
  {
    if rs == [] then Trace(table, [])
    else
      var before, last := Run(table, rs[..|rs| - 1], keys), rs[|rs| - 1];
      var o := Issue(before.table, last.tenant, last.action, last.args, keys);
      Trace(o.table, before.answers + [o.answer])
  }

  function OnlyOf(rs: seq<Request>, t: Tenant): (r: seq<Request>) {
    if rs == [] then []
    else
      var last := rs[|rs| - 1];
      OnlyOf(rs[..|rs| - 1], t) + if last.tenant == t then [last] else []
  }

  function AnswersTo(rs: seq<Request>, answers: seq<Answer>, t: Tenant): (r: seq<Answer>)
    requires |rs| == |answers|
  {
    if rs == [] then []
    else
      var n := |rs| - 1;
      AnswersTo(rs[..n], answers[..n], t) + if rs[n].tenant == t then [answers[n]] else []
  }

  /**
   Handled actions without a `tenantId` of their own; no action of `t` would write an id or a unique key
   another tenant holds.
   */
  ghost predicate PlainRun(table: Table, rs: seq<Request>, t: Tenant, keys: Keys) {
    forall k :: 0 <= k < |rs| ==>
      !rs[k].action.Other? && Plain(rs[k].args) &&
      (rs[k].tenant == t ==> !Collides(Run(table, rs[..k], keys).table, t, rs[k].action, rs[k].args, keys))
  }

  /**
   However the actions of the tenants interleave, the answers to `t` and the rows of `t` are those of
   running its own actions alone on its own rows.
   */
  lemma {:induction false} RunIsolated(table: Table, rs: seq<Request>, t: Tenant, keys: Keys)
    requires PlainRun(table, rs, t, keys)
    ensures var full, alone := Run(table, rs, keys), Run(View(table, t), OnlyOf(rs, t), keys);
            View(full.table, t) == alone.table && AnswersTo(rs, full.answers, t) == alone.answers
  {
    if rs != [] {
      var n := |rs| - 1;
      PrefixPlain(table, rs, t, keys);
      RunIsolated(table, rs[..n], t, keys);
      var before, last := Run(table, rs[..n], keys), rs[n];
      ActionIsolated(before.table, last.tenant, last.action, last.args, keys);
      assert Run(table, rs, keys).answers[..n] == before.answers;
      if last.tenant == t {
        RunSnoc(View(table, t), OnlyOf(rs[..n], t), last, keys);
      } else {
        assert OnlyOf(rs, t) == OnlyOf(rs[..n], t);
      }
    }
  }

  lemma {:induction false} RunSnoc(table: Table, rs: seq<Request>, r: Request, keys: Keys)
    ensures var before := Run(table, rs, keys);
            var o := Issue(before.table, r.tenant, r.action, r.args, keys);
            Run(table, rs + [r], keys) == Trace(o.table, before.answers + [o.answer])
  {
  }

  lemma {:induction false} PrefixPlain(table: Table, rs: seq<Request>, t: Tenant, keys: Keys)
    requires rs != [] && PlainRun(table, rs, t, keys)
    ensures PlainRun(table, rs[..|rs| - 1], t, keys)
  {
    forall k | 0 <= k < |rs| - 1 ensures rs[..|rs| - 1][..k] == rs[..k] {
    }
  }

  /** A run of actions of `t` leaves the rows of every other tenant as they are. */
  lemma {:induction false} OthersUnchanged(table: Table, rs: seq<Request>, t: Tenant, u: Tenant, keys: Keys)
    requires u != t && forall k :: 0 <= k < |rs| ==> rs[k].tenant == t && !rs[k].action.Other? && Plain(rs[k].args)
    ensures View(Run(table, rs, keys).table, u) == View(table, u)
  {
    if rs != [] {
      var n := |rs| - 1;
      OthersUnchanged(table, rs[..n], t, u, keys);
      ActionIsolated(Run(table, rs[..n], keys).table, t, rs[n].action, rs[n].args, keys);
    }
  }
}
