/** The relational repository's statements on a table with a primary key, on values. Each is atomic. */
module RelationalTable {
  import opened Wrappers
  import opened Criteria
  import opened SqlCompiler

  /** A stored row. `creator` is the tenant whose scope created it, for the theorems; no statement reads it. */
  datatype Row = Row(values: Entity, creator: string)

  type Table = seq<Row>

  datatype SortSpec = SortSpec(field: string, descending: bool)

  /** What the database fixes: LIKE, and ORDER BY. */
  datatype Backend = Backend(like: (Value, Value) -> bool, arrange: (seq<SortSpec>, seq<Entity>) -> seq<Entity>)

  datatype Error = RecordNotFound | IntegrityViolation | BadArgument | BadPage | TenantContextMissing | CrossTenantAccess

  function Key(r: Row): Value { Get(r.values, "id") }

  function KeyFilter(id: Value): FieldFilter { FieldFilter("id", EQ, id) }

  predicate HasKey(t: Table, id: Value) {
    t != [] && (Key(t[0]) == id || HasKey(t[1..], id))
  }

  predicate KeysDistinct(t: Table) {
    t == [] || (!HasKey(t[1..], Key(t[0])) && KeysDistinct(t[1..]))
  }

  predicate Hit(k: Backend, chain: seq<Condition>, r: Row) { Selects(k.like, r.values, chain) }

  function Selected(k: Backend, chain: seq<Condition>, t: Table): Table {
    if t == [] then [] else
    var rest := Selected(k, chain, t[1..]);
    if Hit(k, chain, t[0]) then [t[0]] + rest else rest
  }

  function Kept(k: Backend, chain: seq<Condition>, t: Table): Table {
    if t == [] then [] else
    var rest := Kept(k, chain, t[1..]);
    if Hit(k, chain, t[0]) then rest else [t[0]] + rest
  }

  function Updated(k: Backend, chain: seq<Condition>, changes: Entity, t: Table): Table {
    if t == [] then [] else
    [if Hit(k, chain, t[0]) then t[0].(values := t[0].values + changes) else t[0]] + Updated(k, chain, changes, t[1..])
  }

  function Values(t: Table): seq<Entity> {
    if t == [] then [] else [t[0].values] + Values(t[1..])
  }

  function GetById(t: Table, id: Value): Option<Entity> {
    if t == [] then None else if Key(t[0]) == id then Some(t[0].values) else GetById(t[1..], id)
  }

  function Insert(t: Table, values: Entity, creator: string): (Table, Result<Entity, Error>) {
    if HasKey(t, Get(values, "id")) then (t, Err(IntegrityViolation)) else (t + [Row(values, creator)], Ok(values))
  }

  /** `update`: writes, then reads back by the id it was given. */
  function Update(k: Backend, t: Table, id: Value, changes: Entity, extra: seq<FieldFilter>): (Table, Result<Entity, Error>) {
    var chain := Chain([KeyFilter(id)] + extra);
    if chain.Err? then (t, Err(BadArgument)) else
    var after := Updated(k, chain.value, changes, t);
    if !KeysDistinct(after) then (t, Err(IntegrityViolation))
    else if Selected(k, chain.value, t) == [] then (t, Err(RecordNotFound))
    else
      var row := GetById(after, id);
      (after, if row.Some? then Ok(row.value) else Err(RecordNotFound))
  }

  /** DELETE with the rows it removed counted. */
  function DeleteWhere(k: Backend, t: Table, filters: seq<FieldFilter>): (Table, Result<nat, Error>) {
    var chain := Chain(filters);
    if chain.Err? then (t, Err(BadArgument)) else (Kept(k, chain.value, t), Ok(|Selected(k, chain.value, t)|))
  }

  function BulkDelete(k: Backend, t: Table, ids: seq<Value>, extra: seq<FieldFilter>): (Table, Result<nat, Error>) {
    if ids == [] then (t, Ok(0)) else DeleteWhere(k, t, [FieldFilter("id", IN, Many(ids))] + extra)
  }

  datatype Page = Page(items: seq<Entity>, total: nat)

  function Slice(s: seq<Entity>, offset: nat, limit: nat): seq<Entity> {
    var from := if offset < |s| then s[offset..] else [];
    if limit < |from| then from[..limit] else from
  }

  function Find(k: Backend, t: Table, filters: seq<FieldFilter>, limit: int, offset: int, sort: seq<SortSpec>): Result<Page, Error> {
    if limit <= 0 || offset < 0 then Err(BadPage) else
    var chain := Chain(filters);
    if chain.Err? then Err(BadArgument) else
    var found := Values(Selected(k, chain.value, t));
    Ok(Page(Slice(k.arrange(sort, found), offset, limit), |found|))
  }

  function Count(k: Backend, t: Table, filters: seq<FieldFilter>): Result<nat, Error> {
    var chain := Chain(filters);
    if chain.Err? then Err(BadArgument) else Ok(|Selected(k, chain.value, t)|)
  }

  /** Per-item outcomes; `raised` when the whole call raised instead. */
  datatype BulkResult = BulkResult(succeeded: seq<Entity>, failed: set<nat>, raised: Option<Error>)

  function BulkCreate(t: Table, entities: seq<Entity>, creator: string): (Table, BulkResult) {
    if entities == [] then (t, BulkResult([], {}, None)) else
    var n := |entities| - 1;
    var (before, r) := BulkCreate(t, entities[..n], creator);
    var (after, outcome) := Insert(before, entities[n], creator);
    (after, if outcome.Ok? then r.(succeeded := r.succeeded + [entities[n]]) else r.(failed := r.failed + {n}))
  }

  /** Each update is its own statement; a bad criterion is no database error, so it ends the call. */
  function BulkUpdate(k: Backend, t: Table, updates: seq<(Value, Entity)>, extra: seq<FieldFilter>): (Table, BulkResult) {
    if updates == [] then (t, BulkResult([], {}, None)) else
    var n := |updates| - 1;
    var (before, r) := BulkUpdate(k, t, updates[..n], extra);
    if r.raised.Some? then (before, r) else
    var (after, outcome) := Update(k, before, updates[n].0, updates[n].1, extra);
    (after, Recorded(r, n, outcome))
  }

  function Recorded(r: BulkResult, n: nat, outcome: Result<Entity, Error>): BulkResult {
    match outcome
    case Ok(e) => r.(succeeded := r.succeeded + [e])
    case Err(BadArgument) => r.(raised := Some(BadArgument))
    case Err(_) => r.(failed := r.failed + {n})
  }
}

/** The tenant wrapper over it. */
module TenantScope {
  import opened Wrappers
  import opened Criteria
  import opened SqlCompiler
  import opened RelationalTable

  datatype Operation =
    | Get(id: Value)
    | Create(entity: Entity)
    | Update(id: Value, changes: Entity, extra: seq<FieldFilter>)
    | Delete(id: Value, extra: seq<FieldFilter>)
    | Find(criteria: CriteriaArgument, limit: int, offset: int, sort: seq<SortSpec>)
    | Count(criteria: CriteriaArgument)
    | BulkCreate(entities: seq<Entity>)
    | BulkUpdate(updates: seq<(Value, Entity)>, extra: seq<FieldFilter>)
    | BulkDelete(ids: seq<Value>, extra: seq<FieldFilter>)

  datatype Reply =
    | Found(entity: Option<Entity>)
    | Saved(saved: Entity)
    | Removed(removed: bool)
    | Listed(page: Page)
    | Counted(count: nat)
    | Bulk(result: BulkResult)
    | Failed(error: Error)

  function TenantOf(e: Entity): Value { Criteria.Get(e, "tenant_id") }

  function TenantFilter(tenant: string): FieldFilter { FieldFilter("tenant_id", EQ, Text(tenant)) }

  function ScopedCriteria(criteria: CriteriaArgument, tenant: string): seq<FieldFilter> {
    Normalize(criteria) + [TenantFilter(tenant)]
  }

  /** `_reject_tenant_id_reassignment` */
  predicate Reassigns(changes: Entity, tenant: string) {
    "tenant_id" in changes && changes["tenant_id"] != Text(tenant)
  }

  predicate ForeignStamp(e: Entity, tenant: string) {
    TenantOf(e) != Null && TenantOf(e) != Text(tenant)
  }

  function Stamped(e: Entity, tenant: string): Entity { e["tenant_id" := Text(tenant)] }

  function StampedAll(entities: seq<Entity>, tenant: string): (r: seq<Entity>)
    ensures |r| == |entities|
  {
    seq(|entities|, i requires 0 <= i < |entities| => Stamped(entities[i], tenant))
  }

  function CountReply(r: Result<nat, Error>): Reply {
    match r case Ok(n) => Counted(n) case Err(e) => Failed(e)
  }

  /** One call through the wrapper; `scope` is the ambient tenant. */
  function Perform(k: Backend, t: Table, scope: Option<string>, op: Operation): (Table, Reply) {
    if op.Get? then
      var row := GetById(t, op.id);
      (t, if row.None? then Found(None)
          else if scope.None? then Failed(TenantContextMissing)
          else Found(if TenantOf(row.value) == Text(scope.value) then row else None))
    else if scope.None? then (t, Failed(TenantContextMissing)) else
    var tenant := scope.value;
    match op
    case Create(e) =>
      if ForeignStamp(e, tenant) then (t, Failed(CrossTenantAccess)) else
      var (after, r) := Insert(t, Stamped(e, tenant), tenant);
      (after, match r case Ok(saved) => Saved(saved) case Err(error) => Failed(error))
    case Update(id, changes, extra) =>
      if Reassigns(changes, tenant) then (t, Failed(CrossTenantAccess)) else
      var (after, r) := RelationalTable.Update(k, t, id, changes, [TenantFilter(tenant)] + extra);
      (after, match r case Ok(saved) => Saved(saved) case Err(error) => Failed(error))
    case Delete(id, extra) =>
      var (after, r) := DeleteWhere(k, t, [KeyFilter(id)] + ([TenantFilter(tenant)] + extra));
      (after, match r case Ok(n) => Removed(n > 0) case Err(error) => Failed(error))
    case Find(criteria, limit, offset, sort) =>
      (t, match RelationalTable.Find(k, t, ScopedCriteria(criteria, tenant), limit, offset, sort)
          case Ok(page) => Listed(page) case Err(error) => Failed(error))
    case Count(criteria) => (t, CountReply(RelationalTable.Count(k, t, ScopedCriteria(criteria, tenant))))
    case BulkCreate(entities) =>
      if exists i :: 0 <= i < |entities| && ForeignStamp(entities[i], tenant) then (t, Failed(CrossTenantAccess)) else
      var (after, r) := RelationalTable.BulkCreate(t, StampedAll(entities, tenant), tenant);
      (after, Bulk(r))
    case BulkUpdate(updates, extra) =>
      if exists i :: 0 <= i < |updates| && Reassigns(updates[i].1, tenant) then (t, Failed(CrossTenantAccess)) else
      var (after, r) := RelationalTable.BulkUpdate(k, t, updates, [TenantFilter(tenant)] + extra);
      (after, Bulk(r))
    case BulkDelete(ids, extra) =>
      var (after, r) := RelationalTable.BulkDelete(k, t, ids, [TenantFilter(tenant)] + extra);
      (after, CountReply(r))
    case Get(_) => (t, Found(None))
  }

  // ---------------------------------------------------------------- the rows of one tenant and of the others

  predicate Owned(r: Row, tenant: string) { TenantOf(r.values) == Text(tenant) }

  function Own(t: Table, tenant: string): Table {
    if t == [] then [] else
    var rest := Own(t[1..], tenant);
    if Owned(t[0], tenant) then [t[0]] + rest else rest
  }

  function Others(t: Table, tenant: string): Table {
    if t == [] then [] else
    var rest := Others(t[1..], tenant);
    if Owned(t[0], tenant) then rest else [t[0]] + rest
  }

  /** A WHERE chain that selects rows of `tenant` only. */
  ghost predicate SelectsOnly(k: Backend, chain: seq<Condition>, tenant: string) {
    forall r: Row :: Hit(k, chain, r) ==> Owned(r, tenant)
  }

  lemma {:induction false} FilterIsEnforced(k: Backend, filters: seq<FieldFilter>, i: nat, r: Row)
    requires Chain(filters).Ok? && i < |filters| && Hit(k, Chain(filters).value, r)
    ensures ConditionFor(filters[i]).Ok? && Truth3(k.like, r.values, ConditionFor(filters[i]).value).True?
  {
    var n := |filters| - 1;
    var before := Chain(filters[..n]).value;
    assert Chain(filters).value == before + [ConditionFor(filters[n]).value];
    assert (before + [ConditionFor(filters[n]).value])[..|before|] == before;
    if i < n {
      FilterIsEnforced(k, filters[..n], i, r);
    }
  }

  /** A statement that carries the tenant filter selects the tenant's rows only. */
  lemma {:induction false} ScopedChainSelectsOnlyOwn(k: Backend, filters: seq<FieldFilter>, i: nat, tenant: string)
    requires Chain(filters).Ok? && i < |filters| && filters[i] == TenantFilter(tenant)
    ensures SelectsOnly(k, Chain(filters).value, tenant)
  {
    forall r: Row | Hit(k, Chain(filters).value, r) ensures Owned(r, tenant) {
      FilterIsEnforced(k, filters, i, r);
    }
  }

  lemma {:induction false} SelectedIsOwn(k: Backend, chain: seq<Condition>, t: Table, tenant: string)
    requires SelectsOnly(k, chain, tenant)
    ensures Selected(k, chain, t) == Selected(k, chain, Own(t, tenant))
  {
    if t != [] {
      SelectedIsOwn(k, chain, t[1..], tenant);
    }
  }

  lemma {:induction false} KeptSplits(k: Backend, chain: seq<Condition>, t: Table, tenant: string)
    requires SelectsOnly(k, chain, tenant)
    ensures Own(Kept(k, chain, t), tenant) == Kept(k, chain, Own(t, tenant))
    ensures Others(Kept(k, chain, t), tenant) == Others(t, tenant)
  {
    if t != [] {
      KeptSplits(k, chain, t[1..], tenant);
    }
  }

  lemma {:induction false} UpdatedSplits(k: Backend, chain: seq<Condition>, changes: Entity, t: Table, tenant: string)
    requires SelectsOnly(k, chain, tenant) && !Reassigns(changes, tenant)
    ensures Own(Updated(k, chain, changes, t), tenant) == Updated(k, chain, changes, Own(t, tenant))
    ensures Others(Updated(k, chain, changes, t), tenant) == Others(t, tenant)
  {
    if t != [] {
      UpdatedSplits(k, chain, changes, t[1..], tenant);
    }
  }

  lemma {:induction false} AppendSplits(t: Table, r: Row, tenant: string)
    ensures Others(t + [r], tenant) == Others(t, tenant) + if Owned(r, tenant) then [] else [r]
    ensures Own(t + [r], tenant) == Own(t, tenant) + if Owned(r, tenant) then [r] else []
  {
    if t != [] {
      AppendSplits(t[1..], r, tenant);
      assert (t + [r])[1..] == t[1..] + [r];
    } else {
      assert t + [r] == [r] && [r][1..] == [];
    }
  }

  // ---------------------------------------------------------------- integrity: other tenants' rows

  lemma {:induction false} UpdateSparesOthers(k: Backend, t: Table, id: Value, changes: Entity, extra: seq<FieldFilter>, tenant: string)
    requires !Reassigns(changes, tenant)
    ensures Others(RelationalTable.Update(k, t, id, changes, [TenantFilter(tenant)] + extra).0, tenant) == Others(t, tenant)
  {
    var filters := [KeyFilter(id)] + ([TenantFilter(tenant)] + extra);
    if Chain(filters).Ok? {
      ScopedChainSelectsOnlyOwn(k, filters, 1, tenant);
      UpdatedSplits(k, Chain(filters).value, changes, t, tenant);
    }
  }

  lemma {:induction false} DeleteSparesOthers(k: Backend, t: Table, first: FieldFilter, extra: seq<FieldFilter>, tenant: string)
    ensures Others(DeleteWhere(k, t, [first] + ([TenantFilter(tenant)] + extra)).0, tenant) == Others(t, tenant)
  {
    var filters := [first] + ([TenantFilter(tenant)] + extra);
    if Chain(filters).Ok? {
      ScopedChainSelectsOnlyOwn(k, filters, 1, tenant);
      KeptSplits(k, Chain(filters).value, t, tenant);
    }
  }

  lemma {:induction false} BulkCreateSparesOthers(t: Table, entities: seq<Entity>, tenant: string)
    requires forall i :: 0 <= i < |entities| ==> TenantOf(entities[i]) == Text(tenant)
    ensures Others(RelationalTable.BulkCreate(t, entities, tenant).0, tenant) == Others(t, tenant)
  {
    if entities != [] {
      var n := |entities| - 1;
      BulkCreateSparesOthers(t, entities[..n], tenant);
      AppendSplits(RelationalTable.BulkCreate(t, entities[..n], tenant).0, Row(entities[n], tenant), tenant);
    }
  }

  lemma {:induction false} BulkUpdateSparesOthers(k: Backend, t: Table, updates: seq<(Value, Entity)>, extra: seq<FieldFilter>, tenant: string)
    requires forall i :: 0 <= i < |updates| ==> !Reassigns(updates[i].1, tenant)
    ensures Others(RelationalTable.BulkUpdate(k, t, updates, [TenantFilter(tenant)] + extra).0, tenant) == Others(t, tenant)
  {
    if updates != [] {
      var n := |updates| - 1;
      BulkUpdateSparesOthers(k, t, updates[..n], extra, tenant);
      var before := RelationalTable.BulkUpdate(k, t, updates[..n], [TenantFilter(tenant)] + extra).0;
      UpdateSparesOthers(k, before, updates[n].0, updates[n].1, extra, tenant);
    }
  }

  /** No operation in a tenant's scope changes, removes or adds a row of anyone else. */
  lemma {:induction false} OthersUntouched(k: Backend, t: Table, tenant: string, op: Operation)
    ensures Others(Perform(k, t, Some(tenant), op).0, tenant) == Others(t, tenant)
  {
    match op
    case Get(_) =>
    case Find(_, _, _, _) =>
    case Count(_) =>
    case Create(e) => AppendSplits(t, Row(Stamped(e, tenant), tenant), tenant);
    case Update(id, changes, extra) =>
      if !Reassigns(changes, tenant) {
        UpdateSparesOthers(k, t, id, changes, extra, tenant);
      }
    case Delete(id, extra) => DeleteSparesOthers(k, t, KeyFilter(id), extra, tenant);
    case BulkCreate(entities) => BulkCreateSparesOthers(t, StampedAll(entities, tenant), tenant);
    case BulkUpdate(updates, extra) =>
      if !exists i :: 0 <= i < |updates| && Reassigns(updates[i].1, tenant) {
        BulkUpdateSparesOthers(k, t, updates, extra, tenant);
      }
    case BulkDelete(ids, extra) =>
      if ids != [] {
        DeleteSparesOthers(k, t, FieldFilter("id", IN, Many(ids)), extra, tenant);
      }
  }

  // ---------------------------------------------------------------- the primary key

  lemma {:induction false} GetByIdFinds(t: Table, id: Value)
    ensures GetById(t, id).Some? <==> HasKey(t, id)
  {
    if t != [] {
      GetByIdFinds(t[1..], id);
    }
  }

  lemma {:induction false} OwnKeys(t: Table, tenant: string)
    ensures forall id :: HasKey(t, id) <==> HasKey(Own(t, tenant), id) || HasKey(Others(t, tenant), id)
    ensures KeysDistinct(t) ==> KeysDistinct(Own(t, tenant))
  {
    if t != [] {
      OwnKeys(t[1..], tenant);
    }
  }

  lemma {:induction false} AppendKeys(t: Table, r: Row)
    ensures forall id :: HasKey(t + [r], id) <==> HasKey(t, id) || id == Key(r)
    ensures KeysDistinct(t + [r]) <==> KeysDistinct(t) && !HasKey(t, Key(r))
  {
    if t == [] {
      assert t + [r] == [r] && [r][1..] == [];
    } else {
      AppendKeys(t[1..], r);
      assert (t + [r])[1..] == t[1..] + [r];
    }
  }

  lemma {:induction false} KeptKeys(k: Backend, chain: seq<Condition>, t: Table)
    ensures forall id :: HasKey(Kept(k, chain, t), id) ==> HasKey(t, id)
    ensures KeysDistinct(t) ==> KeysDistinct(Kept(k, chain, t))
  {
    if t != [] {
      KeptKeys(k, chain, t[1..]);
    }
  }

  lemma {:induction false} BulkCreateKeys(t: Table, entities: seq<Entity>, creator: string)
    requires KeysDistinct(t)
    ensures KeysDistinct(RelationalTable.BulkCreate(t, entities, creator).0)
  {
    if entities != [] {
      var n := |entities| - 1;
      BulkCreateKeys(t, entities[..n], creator);
      AppendKeys(RelationalTable.BulkCreate(t, entities[..n], creator).0, Row(entities[n], creator));
    }
  }

  lemma {:induction false} BulkUpdateKeys(k: Backend, t: Table, updates: seq<(Value, Entity)>, extra: seq<FieldFilter>)
    requires KeysDistinct(t)
    ensures KeysDistinct(RelationalTable.BulkUpdate(k, t, updates, extra).0)
  {
    if updates != [] {
      BulkUpdateKeys(k, t, updates[..|updates| - 1], extra);
    }
  }

  lemma {:induction false} KeysStayDistinct(k: Backend, t: Table, scope: Option<string>, op: Operation)
    requires KeysDistinct(t)
    ensures KeysDistinct(Perform(k, t, scope, op).0)
  {
    if scope.Some? {
      match op
      case Create(e) => AppendKeys(t, Row(Stamped(e, scope.value), scope.value));
      case BulkCreate(entities) => BulkCreateKeys(t, StampedAll(entities, scope.value), scope.value);
      case BulkUpdate(updates, extra) => BulkUpdateKeys(k, t, updates, [TenantFilter(scope.value)] + extra);
      case Delete(id, extra) =>
        var chain := Chain([KeyFilter(id)] + ([TenantFilter(scope.value)] + extra));
        if chain.Ok? {
          KeptKeys(k, chain.value, t);
        }
      case BulkDelete(ids, extra) =>
        var chain := Chain([FieldFilter("id", IN, Many(ids))] + ([TenantFilter(scope.value)] + extra));
        if chain.Ok? {
          KeptKeys(k, chain.value, t);
        }
      case _ =>
    }
  }

  /** A chain that selects only the row with key `id`. */
  ghost predicate SelectsKey(k: Backend, chain: seq<Condition>, id: Value) {
    forall r: Row :: Hit(k, chain, r) ==> Key(r) == id
  }

  lemma {:induction false} KeyedChainSelectsKey(k: Backend, id: Value, rest: seq<FieldFilter>)
    requires Chain([KeyFilter(id)] + rest).Ok?
    ensures SelectsKey(k, Chain([KeyFilter(id)] + rest).value, id)
  {
    var filters := [KeyFilter(id)] + rest;
    forall r: Row | Hit(k, Chain(filters).value, r) ensures Key(r) == id {
      FilterIsEnforced(k, filters, 0, r);
    }
  }

  /** The key a changed row ends with. */
  function NewKey(id: Value, changes: Entity): Value { if "id" in changes then changes["id"] else id }

  lemma {:induction false} UpdatedKeys(k: Backend, chain: seq<Condition>, changes: Entity, t: Table, id: Value)
    requires SelectsKey(k, chain, id)
    ensures Selected(k, chain, t) == [] ==> Updated(k, chain, changes, t) == t
    ensures Selected(k, chain, t) != [] ==> HasKey(t, id) && HasKey(Updated(k, chain, changes, t), NewKey(id, changes))
    ensures forall x :: x != NewKey(id, changes) && HasKey(Updated(k, chain, changes, t), x) ==> HasKey(t, x)
    ensures NewKey(id, changes) == id ==> forall x :: HasKey(Updated(k, chain, changes, t), x) <==> HasKey(t, x)
  {
    if t != [] {
      UpdatedKeys(k, chain, changes, t[1..], id);
      assert Updated(k, chain, changes, t)[1..] == Updated(k, chain, changes, t[1..]);
    }
  }

  /** Updating one row keeps the keys distinct unless it takes a key that another row has. */
  lemma {:induction false} UpdatedKeysDistinctIff(k: Backend, chain: seq<Condition>, changes: Entity, t: Table, id: Value)
    requires SelectsKey(k, chain, id) && KeysDistinct(t)
    ensures KeysDistinct(Updated(k, chain, changes, t)) <==>
      Selected(k, chain, t) == [] || NewKey(id, changes) == id || !HasKey(t, NewKey(id, changes))
  {
    if t != [] {
      var rest := t[1..];
      UpdatedKeysDistinctIff(k, chain, changes, rest, id);
      UpdatedKeys(k, chain, changes, rest, id);
      assert Updated(k, chain, changes, t)[1..] == Updated(k, chain, changes, rest);
    }
  }

  // ---------------------------------------------------------------- confidentiality: replies depend on own rows only

  lemma {:induction false} GetByIdOwn(t: Table, id: Value, tenant: string)
    requires KeysDistinct(t)
    ensures var r := GetById(t, id);
      GetById(Own(t, tenant), id) == if r.Some? && TenantOf(r.value) == Text(tenant) then r else None
  {
    if t != [] {
      GetByIdOwn(t[1..], id, tenant);
      OwnKeys(t[1..], tenant);
      GetByIdFinds(t[1..], id);
      assert Owned(t[0], tenant) ==> Own(t, tenant)[1..] == Own(t[1..], tenant);
    }
  }

  lemma {:induction false} OwnTwice(t: Table, tenant: string)
    ensures Own(Own(t, tenant), tenant) == Own(t, tenant)
  {
    if t != [] {
      OwnTwice(t[1..], tenant);
    }
  }

  /** The update moves a row of the tenant to a key that somebody else has. */
  predicate Clashes(k: Backend, t: Table, id: Value, changes: Entity, extra: seq<FieldFilter>, tenant: string) {
    var chain := Chain([KeyFilter(id)] + ([TenantFilter(tenant)] + extra));
    chain.Ok? && NewKey(id, changes) != id && Selected(k, chain.value, Own(t, tenant)) != []
    && HasKey(Others(t, tenant), NewKey(id, changes))
  }

  lemma {:induction false} OwnOrOthers(t: Table, tenant: string, id: Value)
    requires KeysDistinct(t)
    ensures !(HasKey(Own(t, tenant), id) && HasKey(Others(t, tenant), id))
  {
    if t != [] {
      OwnOrOthers(t[1..], tenant, id);
      OwnKeys(t[1..], tenant);
      assert Owned(t[0], tenant) ==> Own(t, tenant)[1..] == Own(t[1..], tenant);
      assert !Owned(t[0], tenant) ==> Others(t, tenant)[1..] == Others(t[1..], tenant);
    }
  }

  /** An update acts on the tenant's rows as if they were the whole table, unless it moves one to a key that somebody
      else has. That it tells apart. */
  lemma {:induction false} UpdateIsLocalIff(k: Backend, t: Table, id: Value, changes: Entity, extra: seq<FieldFilter>, tenant: string)
    requires KeysDistinct(t) && !Reassigns(changes, tenant)
    ensures var filters := [TenantFilter(tenant)] + extra;
      var (after, reply) := RelationalTable.Update(k, t, id, changes, filters);
      var (alone, expected) := RelationalTable.Update(k, Own(t, tenant), id, changes, filters);
      reply == expected && Own(after, tenant) == alone <==> !Clashes(k, t, id, changes, extra, tenant)
  {
    var filters := [KeyFilter(id)] + ([TenantFilter(tenant)] + extra);
    OwnTwice(t, tenant);
    if Chain(filters).Ok? {
      var chain := Chain(filters).value;
      ScopedChainSelectsOnlyOwn(k, filters, 1, tenant);
      KeyedChainSelectsKey(k, id, [TenantFilter(tenant)] + extra);
      SelectedIsOwn(k, chain, t, tenant);
      UpdatedSplits(k, chain, changes, t, tenant);
      OwnKeys(t, tenant);
      OwnOrOthers(t, tenant, NewKey(id, changes));
      UpdatedKeysDistinctIff(k, chain, changes, t, id);
      UpdatedKeysDistinctIff(k, chain, changes, Own(t, tenant), id);
      UpdatedKeys(k, chain, changes, Own(t, tenant), id);
      var after := Updated(k, chain, changes, t);
      if KeysDistinct(after) && Selected(k, chain, t) != [] {
        UpdatedReadback(k, chain, changes, t, id, tenant);
      }
    }
  }

  /** Reading back by the old id finds the tenant's changed row, or nothing when the row moved. */
  lemma {:induction false} UpdatedReadback(k: Backend, chain: seq<Condition>, changes: Entity, t: Table, id: Value, tenant: string)
    requires SelectsOnly(k, chain, tenant) && SelectsKey(k, chain, id) && !Reassigns(changes, tenant)
    requires KeysDistinct(t) && KeysDistinct(Updated(k, chain, changes, t)) && Selected(k, chain, t) != []
    ensures GetById(Updated(k, chain, changes, t), id) == GetById(Updated(k, chain, changes, Own(t, tenant)), id)
  {
    var after, alone := Updated(k, chain, changes, t), Updated(k, chain, changes, Own(t, tenant));
    UpdatedSplits(k, chain, changes, t, tenant);
    SelectedIsOwn(k, chain, t, tenant);
    GetByIdOwn(after, id, tenant);
    GetByIdFinds(after, id);
    GetByIdFinds(alone, id);
    if NewKey(id, changes) == id {
      UpdatedKeys(k, chain, changes, Own(t, tenant), id);
    } else {
      MovedAway(k, chain, changes, t, id);
    }
  }

  lemma {:induction false} MovedAway(k: Backend, chain: seq<Condition>, changes: Entity, t: Table, id: Value)
    requires SelectsKey(k, chain, id) && NewKey(id, changes) != id && KeysDistinct(t) && Selected(k, chain, t) != []
    ensures !HasKey(Updated(k, chain, changes, t), id)
  {
    UpdatedKeys(k, chain, changes, t[1..], id);
    assert Updated(k, chain, changes, t)[1..] == Updated(k, chain, changes, t[1..]);
    if !Hit(k, chain, t[0]) {
      MovedAway(k, chain, changes, t[1..], id);
    }
  }

  /** `update` writes and yet replies that there is no such record exactly when it moves the row it selects to another
      key, one that is free: it reads back by the old key. */
  lemma {:induction false} MovedRowIsReportedMissingIff(k: Backend, t: Table, id: Value, changes: Entity, extra: seq<FieldFilter>)
    requires KeysDistinct(t)
    ensures var (after, reply) := RelationalTable.Update(k, t, id, changes, extra);
      var chain := Chain([KeyFilter(id)] + extra);
      after != t && reply == Err(RecordNotFound) <==>
        chain.Ok? && Selected(k, chain.value, t) != [] && NewKey(id, changes) != id && !HasKey(t, NewKey(id, changes))
  {
    var chain := Chain([KeyFilter(id)] + extra);
    if chain.Ok? {
      KeyedChainSelectsKey(k, id, extra);
      UpdatedKeysDistinctIff(k, chain.value, changes, t, id);
      UpdatedKeys(k, chain.value, changes, t, id);
      GetByIdFinds(Updated(k, chain.value, changes, t), id);
      if Selected(k, chain.value, t) != [] && NewKey(id, changes) != id {
        MovedAway(k, chain.value, changes, t, id);
      }
    }
  }

  /** The key the row has after the change is not one that somebody else has. */
  predicate KeyIsFree(t: Table, tenant: string, id: Value, changes: Entity) {
    NewKey(id, changes) == id || !HasKey(Others(t, tenant), NewKey(id, changes))
  }

  /** No key the operation gives to a row is one that somebody else has. */
  predicate NoClash(t: Table, tenant: string, op: Operation) {
    match op
    case Create(e) => !HasKey(Others(t, tenant), Criteria.Get(Stamped(e, tenant), "id"))
    case BulkCreate(entities) => KeysAreFree(t, tenant, StampedAll(entities, tenant))
    case Update(id, changes, _) => KeyIsFree(t, tenant, id, changes)
    case BulkUpdate(updates, _) => forall i :: 0 <= i < |updates| ==> KeyIsFree(t, tenant, updates[i].0, updates[i].1)
    case _ => true
  }

  predicate KeysAreFree(t: Table, tenant: string, entities: seq<Entity>) {
    forall i :: 0 <= i < |entities| ==> !HasKey(Others(t, tenant), Criteria.Get(entities[i], "id"))
  }

  /** Acts on the tenant's rows as on the whole table. */
  predicate Local(k: Backend, t: Table, tenant: string, op: Operation) {
    && Perform(k, t, Some(tenant), op).1 == Perform(k, Own(t, tenant), Some(tenant), op).1
    && Own(Perform(k, t, Some(tenant), op).0, tenant) == Perform(k, Own(t, tenant), Some(tenant), op).0
  }

  lemma {:induction false} DeleteIsLocal(k: Backend, t: Table, first: FieldFilter, extra: seq<FieldFilter>, tenant: string)
    ensures var filters := [first] + ([TenantFilter(tenant)] + extra);
      && DeleteWhere(k, t, filters).1 == DeleteWhere(k, Own(t, tenant), filters).1
      && Own(DeleteWhere(k, t, filters).0, tenant) == DeleteWhere(k, Own(t, tenant), filters).0
  {
    var filters := [first] + ([TenantFilter(tenant)] + extra);
    OwnTwice(t, tenant);
    if Chain(filters).Ok? {
      ScopedChainSelectsOnlyOwn(k, filters, 1, tenant);
      SelectedIsOwn(k, Chain(filters).value, t, tenant);
      KeptSplits(k, Chain(filters).value, t, tenant);
    }
  }

  lemma {:induction false} QueryIsLocal(k: Backend, t: Table, criteria: CriteriaArgument, tenant: string)
    ensures var chain := Chain(ScopedCriteria(criteria, tenant));
      chain.Ok? ==> Selected(k, chain.value, t) == Selected(k, chain.value, Own(t, tenant))
  {
    var filters := ScopedCriteria(criteria, tenant);
    if Chain(filters).Ok? {
      ScopedChainSelectsOnlyOwn(k, filters, |filters| - 1, tenant);
      SelectedIsOwn(k, Chain(filters).value, t, tenant);
    }
  }

  /** The updates, as one call, act on the tenant's rows as on the whole table. */
  predicate UpdatesLocally(k: Backend, t: Table, updates: seq<(Value, Entity)>, extra: seq<FieldFilter>, tenant: string) {
    var filters := [TenantFilter(tenant)] + extra;
    var (after, r) := RelationalTable.BulkUpdate(k, t, updates, filters);
    (Own(after, tenant), r) == RelationalTable.BulkUpdate(k, Own(t, tenant), updates, filters)
  }

  /** The call gets to its `i`-th update, and that one clashes with the table as it is by then. */
  predicate StepClashes(k: Backend, t: Table, updates: seq<(Value, Entity)>, extra: seq<FieldFilter>, tenant: string, i: nat)
    requires i < |updates|
  {
    var (before, r) := RelationalTable.BulkUpdate(k, t, updates[..i], [TenantFilter(tenant)] + extra);
    r.raised.None? && Clashes(k, before, updates[i].0, updates[i].1, extra, tenant)
  }

  /** One more update after ones that were local. */
  lemma {:induction false} NextUpdateIsLocalIff(k: Backend, t: Table, updates: seq<(Value, Entity)>, extra: seq<FieldFilter>, tenant: string, n: nat)
    requires KeysDistinct(t) && |updates| == n + 1 && forall i :: 0 <= i <= n ==> !Reassigns(updates[i].1, tenant)
    requires UpdatesLocally(k, t, updates[..n], extra, tenant)
    ensures UpdatesLocally(k, t, updates, extra, tenant) <==> !StepClashes(k, t, updates, extra, tenant, n)
  {
    var filters := [TenantFilter(tenant)] + extra;
    var before := RelationalTable.BulkUpdate(k, t, updates[..n], filters).0;
    BulkUpdateKeys(k, t, updates[..n], filters);
    UpdateIsLocalIff(k, before, updates[n].0, updates[n].1, extra, tenant);
    if Clashes(k, before, updates[n].0, updates[n].1, extra, tenant) {
      ClashWritesAlone(k, before, updates[n].0, updates[n].1, extra, tenant);
    }
  }

  /** On the whole table a clashing update fails; on the tenant's rows alone it is written. */
  lemma {:induction false} ClashWritesAlone(k: Backend, t: Table, id: Value, changes: Entity, extra: seq<FieldFilter>, tenant: string)
    requires KeysDistinct(t) && !Reassigns(changes, tenant) && Clashes(k, t, id, changes, extra, tenant)
    ensures var filters := [TenantFilter(tenant)] + extra;
      && RelationalTable.Update(k, t, id, changes, filters).0 == t
      && RelationalTable.Update(k, Own(t, tenant), id, changes, filters).0 != Own(t, tenant)
  {
    var filters := [KeyFilter(id)] + ([TenantFilter(tenant)] + extra);
    ScopedChainSelectsOnlyOwn(k, filters, 1, tenant);
    KeyedChainSelectsKey(k, id, [TenantFilter(tenant)] + extra);
    SelectedIsOwn(k, Chain(filters).value, t, tenant);
    OwnKeys(t, tenant);
    OwnOrOthers(t, tenant, NewKey(id, changes));
    UpdatedKeysDistinctIff(k, Chain(filters).value, changes, t, id);
    MovedRowIsReportedMissingIff(k, Own(t, tenant), id, changes, [TenantFilter(tenant)] + extra);
  }

  lemma {:induction false} PrefixWithoutClash(k: Backend, t: Table, updates: seq<(Value, Entity)>, extra: seq<FieldFilter>, tenant: string, n: nat)
    requires n <= |updates| && forall i :: 0 <= i < |updates| ==> !StepClashes(k, t, updates, extra, tenant, i)
    ensures forall i :: 0 <= i < n ==> !StepClashes(k, t, updates[..n], extra, tenant, i)
  {
    forall i | 0 <= i < n ensures !StepClashes(k, t, updates[..n], extra, tenant, i) {
      assert updates[..n][..i] == updates[..i];
      assert !StepClashes(k, t, updates, extra, tenant, i);
    }
  }

  lemma {:induction false} UpdatesWithoutClash(k: Backend, t: Table, updates: seq<(Value, Entity)>, extra: seq<FieldFilter>, tenant: string)
    requires KeysDistinct(t) && forall i :: 0 <= i < |updates| ==> !Reassigns(updates[i].1, tenant)
    requires forall i :: 0 <= i < |updates| ==> !StepClashes(k, t, updates, extra, tenant, i)
    ensures UpdatesLocally(k, t, updates, extra, tenant)
  {
    if updates != [] {
      var n := |updates| - 1;
      PrefixWithoutClash(k, t, updates, extra, tenant, n);
      UpdatesWithoutClash(k, t, updates[..n], extra, tenant);
      NextUpdateIsLocalIff(k, t, updates, extra, tenant, n);
    }
  }

  /** `bulk_update` is local after each of its updates exactly when none of them moves a row to a key that somebody else
      has by then. */
  lemma {:induction false} BulkUpdateIsLocalIff(k: Backend, t: Table, updates: seq<(Value, Entity)>, extra: seq<FieldFilter>, tenant: string)
    requires KeysDistinct(t) && forall i :: 0 <= i < |updates| ==> !Reassigns(updates[i].1, tenant)
    ensures (forall n :: 0 <= n <= |updates| ==> UpdatesLocally(k, t, updates[..n], extra, tenant))
      <==> (forall i :: 0 <= i < |updates| ==> !StepClashes(k, t, updates, extra, tenant, i))
  {
    forall i | 0 <= i < |updates|
      ensures StepClashes(k, t, updates[..i + 1], extra, tenant, i) <==> StepClashes(k, t, updates, extra, tenant, i)
    {
      assert updates[..i + 1][..i] == updates[..i];
    }
    if forall i :: 0 <= i < |updates| ==> !StepClashes(k, t, updates, extra, tenant, i) {
      forall n | 0 <= n <= |updates| ensures UpdatesLocally(k, t, updates[..n], extra, tenant) {
        PrefixWithoutClash(k, t, updates, extra, tenant, n);
        UpdatesWithoutClash(k, t, updates[..n], extra, tenant);
      }
    } else {
      var i :| 0 <= i < |updates| && StepClashes(k, t, updates, extra, tenant, i);
      if UpdatesLocally(k, t, updates[..i], extra, tenant) {
        assert updates[..i + 1][..i] == updates[..i];
        NextUpdateIsLocalIff(k, t, updates[..i + 1], extra, tenant, i);
      }
    }
  }

  /** Keys that nobody else has at the start cannot clash later: nobody else's rows change meanwhile. */
  lemma {:induction false} FreeKeysDoNotClash(k: Backend, t: Table, updates: seq<(Value, Entity)>, extra: seq<FieldFilter>, tenant: string, i: nat)
    requires i < |updates| && KeyIsFree(t, tenant, updates[i].0, updates[i].1)
    requires forall j :: 0 <= j < |updates| ==> !Reassigns(updates[j].1, tenant)
    ensures !StepClashes(k, t, updates, extra, tenant, i)
  {
    BulkUpdateSparesOthers(k, t, updates[..i], extra, tenant);
  }

  lemma {:induction false} InsertIsLocal(t: Table, values: Entity, tenant: string)
    requires TenantOf(values) == Text(tenant) && !HasKey(Others(t, tenant), Criteria.Get(values, "id"))
    ensures Insert(t, values, tenant).1 == Insert(Own(t, tenant), values, tenant).1
    ensures Own(Insert(t, values, tenant).0, tenant) == Insert(Own(t, tenant), values, tenant).0
  {
    OwnKeys(t, tenant);
    AppendSplits(t, Row(values, tenant), tenant);
  }

  lemma {:induction false} BulkCreateIsLocal(t: Table, entities: seq<Entity>, tenant: string)
    requires forall i :: 0 <= i < |entities| ==> TenantOf(entities[i]) == Text(tenant)
    requires KeysAreFree(t, tenant, entities)
    ensures RelationalTable.BulkCreate(t, entities, tenant).1 == RelationalTable.BulkCreate(Own(t, tenant), entities, tenant).1
    ensures Own(RelationalTable.BulkCreate(t, entities, tenant).0, tenant) == RelationalTable.BulkCreate(Own(t, tenant), entities, tenant).0
  {
    if entities != [] {
      var n := |entities| - 1;
      assert KeysAreFree(t, tenant, entities[..n]);
      BulkCreateIsLocal(t, entities[..n], tenant);
      BulkCreateSparesOthers(t, entities[..n], tenant);
      InsertIsLocal(RelationalTable.BulkCreate(t, entities[..n], tenant).0, entities[n], tenant);
    }
  }

  lemma {:induction false} FindIsLocal(k: Backend, t: Table, tenant: string, criteria: CriteriaArgument, limit: int, offset: int, sort: seq<SortSpec>)
    ensures Local(k, t, tenant, Find(criteria, limit, offset, sort))
  {
    QueryIsLocal(k, t, criteria, tenant);
  }

  lemma {:induction false} UpdateIsLocal(k: Backend, t: Table, tenant: string, id: Value, changes: Entity, extra: seq<FieldFilter>)
    requires KeysDistinct(t) && KeyIsFree(t, tenant, id, changes)
    ensures Local(k, t, tenant, Update(id, changes, extra))
  {
    if !Reassigns(changes, tenant) {
      UpdateIsLocalIff(k, t, id, changes, extra, tenant);
    }
  }

  lemma {:induction false} BulkUpdateCallIsLocal(k: Backend, t: Table, tenant: string, updates: seq<(Value, Entity)>, extra: seq<FieldFilter>)
    requires KeysDistinct(t) && NoClash(t, tenant, BulkUpdate(updates, extra))
    ensures Local(k, t, tenant, BulkUpdate(updates, extra))
  {
    if !exists i :: 0 <= i < |updates| && Reassigns(updates[i].1, tenant) {
      forall i | 0 <= i < |updates| ensures !StepClashes(k, t, updates, extra, tenant, i) {
        assert KeyIsFree(t, tenant, updates[i].0, updates[i].1);
        FreeKeysDoNotClash(k, t, updates, extra, tenant, i);
      }
      UpdatesWithoutClash(k, t, updates, extra, tenant);
    }
  }

  lemma {:induction false} CreateCallsAreLocal(k: Backend, t: Table, tenant: string, op: Operation)
    requires NoClash(t, tenant, op) && (op.Create? || op.BulkCreate?)
    ensures Local(k, t, tenant, op)
  {
    match op
    case Create(e) => InsertIsLocal(t, Stamped(e, tenant), tenant);
    case BulkCreate(entities) => BulkCreateIsLocal(t, StampedAll(entities, tenant), tenant);
  }

  lemma {:induction false} DeleteCallIsLocal(k: Backend, t: Table, tenant: string, id: Value, extra: seq<FieldFilter>)
    ensures Local(k, t, tenant, Delete(id, extra))
  {
    DeleteIsLocal(k, t, KeyFilter(id), extra, tenant);
  }

  lemma {:induction false} BulkDeleteCallIsLocal(k: Backend, t: Table, tenant: string, ids: seq<Value>, extra: seq<FieldFilter>)
    ensures Local(k, t, tenant, BulkDelete(ids, extra))
  {
    DeleteIsLocal(k, t, FieldFilter("id", IN, Many(ids)), extra, tenant);
  }

  lemma {:induction false} ReadIsLocal(k: Backend, t: Table, tenant: string, op: Operation)
    requires KeysDistinct(t) && (op.Get? || op.Count?)
    ensures Local(k, t, tenant, op)
  {
    if op.Get? {
      GetByIdOwn(t, op.id, tenant);
    } else {
      QueryIsLocal(k, t, op.criteria, tenant);
    }
  }

  /** Replies and effects on the tenant's rows depend on the tenant's rows only, as long as no key clashes. */
  lemma {:induction false} RepliesAreLocal(k: Backend, t: Table, tenant: string, op: Operation)
    requires KeysDistinct(t) && NoClash(t, tenant, op)
    ensures Local(k, t, tenant, op)
  {
    match op
    case Create(_) => CreateCallsAreLocal(k, t, tenant, op);
    case BulkCreate(_) => CreateCallsAreLocal(k, t, tenant, op);
    case Get(_) => ReadIsLocal(k, t, tenant, op);
    case Count(_) => ReadIsLocal(k, t, tenant, op);
    case Find(criteria, limit, offset, sort) => FindIsLocal(k, t, tenant, criteria, limit, offset, sort);
    case Update(id, changes, extra) => UpdateIsLocal(k, t, tenant, id, changes, extra);
    case Delete(id, extra) => DeleteCallIsLocal(k, t, tenant, id, extra);
    case BulkUpdate(updates, extra) => BulkUpdateCallIsLocal(k, t, tenant, updates, extra);
    case BulkDelete(ids, extra) => BulkDeleteCallIsLocal(k, t, tenant, ids, extra);
  }

  /** `create` is not local: its reply tells exactly whether somebody else holds the key. */
  lemma {:induction false} CreateIsLocalIff(k: Backend, t: Table, tenant: string, entity: Entity)
    requires !ForeignStamp(entity, tenant)
    ensures var key := Criteria.Get(Stamped(entity, tenant), "id");
      Perform(k, t, Some(tenant), Create(entity)).1 == Perform(k, Own(t, tenant), Some(tenant), Create(entity)).1
      <==> !(HasKey(Others(t, tenant), key) && !HasKey(Own(t, tenant), key))
  {
    OwnKeys(t, tenant);
  }

  lemma {:induction false} FailuresStay(t: Table, entities: seq<Entity>, creator: string, n: nat)
    requires n <= |entities|
    ensures forall i :: 0 <= i < n ==>
      (i in RelationalTable.BulkCreate(t, entities, creator).1.failed <==> i in RelationalTable.BulkCreate(t, entities[..n], creator).1.failed)
  {
    if n < |entities| {
      var last := |entities| - 1;
      FailuresStay(t, entities[..last], creator, n);
      assert entities[..last][..n] == entities[..n];
    } else {
      assert entities[..n] == entities;
    }
  }

  lemma {:induction false} FailuresAreItems(t: Table, entities: seq<Entity>, creator: string)
    ensures forall i :: i in RelationalTable.BulkCreate(t, entities, creator).1.failed ==> i < |entities|
  {
    if entities != [] {
      FailuresAreItems(t, entities[..|entities| - 1], creator);
    }
  }

  /** An item fails exactly when its key is taken by then. */
  lemma {:induction false} FailsAtIff(t: Table, entities: seq<Entity>, creator: string, i: nat)
    requires i < |entities|
    ensures i in RelationalTable.BulkCreate(t, entities, creator).1.failed
      <==> HasKey(RelationalTable.BulkCreate(t, entities[..i], creator).0, Criteria.Get(entities[i], "id"))
  {
    FailuresStay(t, entities, creator, i + 1);
    FailuresAreItems(t, entities[..i], creator);
    assert entities[..i + 1][..i] == entities[..i];
  }

  /** The first item whose key somebody else has. */
  lemma {:induction false} FirstClash(t: Table, tenant: string, entities: seq<Entity>) returns (i: nat)
    requires !KeysAreFree(t, tenant, entities)
    ensures i < |entities| && KeysAreFree(t, tenant, entities[..i])
    ensures HasKey(Others(t, tenant), Criteria.Get(entities[i], "id"))
  {
    var n := |entities| - 1;
    if KeysAreFree(t, tenant, entities[..n]) {
      i := n;
    } else {
      i := FirstClash(t, tenant, entities[..n]);
      assert entities[..n][..i] == entities[..i];
    }
  }

  /** `bulk_create` is local exactly when nobody else holds the key of any of its items. */
  lemma {:induction false} BulkCreateIsLocalIff(k: Backend, t: Table, tenant: string, entities: seq<Entity>)
    requires KeysDistinct(t) && forall i :: 0 <= i < |entities| ==> !ForeignStamp(entities[i], tenant)
    ensures Local(k, t, tenant, BulkCreate(entities)) <==> NoClash(t, tenant, BulkCreate(entities))
  {
    if NoClash(t, tenant, BulkCreate(entities)) {
      CreateCallsAreLocal(k, t, tenant, BulkCreate(entities));
    } else {
      var stamped := StampedAll(entities, tenant);
      var i := FirstClash(t, tenant, stamped);
      ClashTells(t, stamped, tenant, i);
    }
  }

  lemma {:induction false} ClashTells(t: Table, entities: seq<Entity>, tenant: string, i: nat)
    requires KeysDistinct(t) && forall j :: 0 <= j < |entities| ==> TenantOf(entities[j]) == Text(tenant)
    requires i < |entities| && KeysAreFree(t, tenant, entities[..i])
    requires HasKey(Others(t, tenant), Criteria.Get(entities[i], "id"))
    ensures RelationalTable.BulkCreate(t, entities, tenant).1 != RelationalTable.BulkCreate(Own(t, tenant), entities, tenant).1
  {
    var before := RelationalTable.BulkCreate(t, entities[..i], tenant).0;
    BulkCreateIsLocal(t, entities[..i], tenant);
    BulkCreateSparesOthers(t, entities[..i], tenant);
    BulkCreateKeys(t, entities[..i], tenant);
    OwnKeys(before, tenant);
    OwnOrOthers(before, tenant, Criteria.Get(entities[i], "id"));
    FailsAtIff(t, entities, tenant, i);
    FailsAtIff(Own(t, tenant), entities, tenant, i);
  }

  // ---------------------------------------------------------------- whole runs

  datatype Call = Call(tenant: string, op: Operation)

  function Run(k: Backend, t: Table, calls: seq<Call>): Table
    decreases |calls|
  {
    if calls == [] then t else Run(k, Perform(k, t, Some(calls[0].tenant), calls[0].op).0, calls[1..])
  }

  /** The replies `tenant` gets in a run. */
  function Replies(k: Backend, t: Table, calls: seq<Call>, tenant: string): seq<Reply>
    decreases |calls|
  {
    if calls == [] then [] else
    var (after, reply) := Perform(k, t, Some(calls[0].tenant), calls[0].op);
    var rest := Replies(k, after, calls[1..], tenant);
    if calls[0].tenant == tenant then [reply] + rest else rest
  }

  function CallsOf(calls: seq<Call>, tenant: string): seq<Call> {
    if calls == [] then [] else
    var rest := CallsOf(calls[1..], tenant);
    if calls[0].tenant == tenant then [calls[0]] + rest else rest
  }

  lemma {:induction false} OwnAmongOthers(t: Table, tenant: string, other: string)
    requires tenant != other
    ensures Own(Others(t, other), tenant) == Own(t, tenant)
  {
    if t != [] {
      OwnAmongOthers(t[1..], tenant, other);
    }
  }

  /** In this run the tenant never asks for a key that somebody else has at that moment. */
  predicate NeverClashes(k: Backend, t: Table, calls: seq<Call>, tenant: string)
    decreases |calls|
  {
    calls == [] ||
    ((calls[0].tenant == tenant ==> NoClash(t, tenant, calls[0].op))
     && NeverClashes(k, Perform(k, t, Some(calls[0].tenant), calls[0].op).0, calls[1..], tenant))
  }

  /** Noninterference: in any interleaving with any other tenants' calls, a tenant whose keys never clash gets the
      replies, and ends with the rows, of running alone on its own rows. */
  lemma {:induction false} Noninterference(k: Backend, t: Table, calls: seq<Call>, tenant: string)
    requires KeysDistinct(t) && NeverClashes(k, t, calls, tenant)
    ensures Replies(k, t, calls, tenant) == Replies(k, Own(t, tenant), CallsOf(calls, tenant), tenant)
    ensures Own(Run(k, t, calls), tenant) == Run(k, Own(t, tenant), CallsOf(calls, tenant))
    decreases |calls|
  {
    if calls != [] {
      var c := calls[0];
      var after := Perform(k, t, Some(c.tenant), c.op).0;
      KeysStayDistinct(k, t, Some(c.tenant), c.op);
      Noninterference(k, after, calls[1..], tenant);
      if c.tenant == tenant {
        RepliesAreLocal(k, t, tenant, c.op);
        assert CallsOf(calls, tenant)[1..] == CallsOf(calls[1..], tenant);
      } else {
        OthersUntouched(k, t, c.tenant, c.op);
        OwnAmongOthers(t, tenant, c.tenant);
        OwnAmongOthers(after, tenant, c.tenant);
      }
    }
  }

  /** Every row carries the tenant whose scope created it. */
  predicate CreatorsHold(t: Table) {
    t == [] || (TenantOf(t[0].values) == Text(t[0].creator) && CreatorsHold(t[1..]))
  }

  lemma {:induction false} CreatorsAppend(t: Table, r: Row)
    ensures CreatorsHold(t + [r]) <==>
      CreatorsHold(t) && TenantOf(r.values) == Text(r.creator)
  {
    if t == [] {
      assert t + [r] == [r] && [r][1..] == [];
    } else {
      CreatorsAppend(t[1..], r);
      assert (t + [r])[1..] == t[1..] + [r];
    }
  }

  lemma {:induction false} CreatorsUpdated(k: Backend, chain: seq<Condition>, changes: Entity, t: Table, tenant: string)
    requires CreatorsHold(t) && SelectsOnly(k, chain, tenant) && !Reassigns(changes, tenant)
    ensures CreatorsHold(Updated(k, chain, changes, t))
  {
    if t != [] {
      CreatorsUpdated(k, chain, changes, t[1..], tenant);
    }
  }

  lemma {:induction false} CreatorsKept(k: Backend, chain: seq<Condition>, t: Table)
    requires CreatorsHold(t)
    ensures CreatorsHold(Kept(k, chain, t))
  {
    if t != [] {
      CreatorsKept(k, chain, t[1..]);
    }
  }

  lemma {:induction false} CreatorsBulkCreate(t: Table, entities: seq<Entity>, tenant: string)
    requires CreatorsHold(t) && forall i :: 0 <= i < |entities| ==> TenantOf(entities[i]) == Text(tenant)
    ensures CreatorsHold(RelationalTable.BulkCreate(t, entities, tenant).0)
  {
    if entities != [] {
      var n := |entities| - 1;
      CreatorsBulkCreate(t, entities[..n], tenant);
      CreatorsAppend(RelationalTable.BulkCreate(t, entities[..n], tenant).0, Row(entities[n], tenant));
    }
  }

  lemma {:induction false} CreatorsUpdate(k: Backend, t: Table, id: Value, changes: Entity, extra: seq<FieldFilter>, tenant: string)
    requires CreatorsHold(t) && !Reassigns(changes, tenant)
    ensures CreatorsHold(RelationalTable.Update(k, t, id, changes, [TenantFilter(tenant)] + extra).0)
  {
    var filters := [KeyFilter(id)] + ([TenantFilter(tenant)] + extra);
    if Chain(filters).Ok? {
      ScopedChainSelectsOnlyOwn(k, filters, 1, tenant);
      CreatorsUpdated(k, Chain(filters).value, changes, t, tenant);
    }
  }

  lemma {:induction false} CreatorsBulkUpdate(k: Backend, t: Table, updates: seq<(Value, Entity)>, extra: seq<FieldFilter>, tenant: string)
    requires CreatorsHold(t) && forall i :: 0 <= i < |updates| ==> !Reassigns(updates[i].1, tenant)
    ensures CreatorsHold(RelationalTable.BulkUpdate(k, t, updates, [TenantFilter(tenant)] + extra).0)
  {
    if updates != [] {
      var n := |updates| - 1;
      var filters := [TenantFilter(tenant)] + extra;
      CreatorsBulkUpdate(k, t, updates[..n], extra, tenant);
      CreatorsUpdate(k, RelationalTable.BulkUpdate(k, t, updates[..n], filters).0, updates[n].0, updates[n].1, extra, tenant);
    }
  }

  lemma {:induction false} CreatorsStep(k: Backend, t: Table, tenant: string, op: Operation)
    requires CreatorsHold(t)
    ensures CreatorsHold(Perform(k, t, Some(tenant), op).0)
  {
    match op
    case Create(e) => CreatorsAppend(t, Row(Stamped(e, tenant), tenant));
    case BulkCreate(entities) => CreatorsBulkCreate(t, StampedAll(entities, tenant), tenant);
    case Update(id, changes, extra) =>
      if !Reassigns(changes, tenant) {
        CreatorsUpdate(k, t, id, changes, extra, tenant);
      }
    case BulkUpdate(updates, extra) =>
      if !exists i :: 0 <= i < |updates| && Reassigns(updates[i].1, tenant) {
        CreatorsBulkUpdate(k, t, updates, extra, tenant);
      }
    case Delete(id, extra) =>
      var chain := Chain([KeyFilter(id)] + ([TenantFilter(tenant)] + extra));
      if chain.Ok? {
        CreatorsKept(k, chain.value, t);
      }
    case BulkDelete(ids, extra) =>
      var chain := Chain([FieldFilter("id", IN, Many(ids))] + ([TenantFilter(tenant)] + extra));
      if chain.Ok? {
        CreatorsKept(k, chain.value, t);
      }
    case _ =>
  }

  /** In every run, rows keep the tenant of the scope that created them for as long as they exist. */
  lemma {:induction false} CreatorsForever(k: Backend, t: Table, calls: seq<Call>)
    requires CreatorsHold(t)
    ensures CreatorsHold(Run(k, t, calls))
    decreases |calls|
  {
    if calls != [] {
      CreatorsStep(k, t, calls[0].tenant, calls[0].op);
      CreatorsForever(k, Perform(k, t, Some(calls[0].tenant), calls[0].op).0, calls[1..]);
    }
  }
}

/** The repository on a table it changes, and the wrapper that scopes it. */
module ScopedRepositories {
  import opened Wrappers
  import opened Criteria
  import opened RelationalTable
  import SqlCompiler
  import TenantScope

  class SQLAlchemyRepository {
    const backend: Backend
    var rows: Table

    constructor (backend: Backend, rows: Table)
      ensures this.backend == backend && this.rows == rows
    {
      this.backend, this.rows := backend, rows;
    }

    method Create(values: Entity, creator: string) returns (r: Result<Entity, Error>)
      modifies this
      ensures (rows, r) == Insert(old(rows), values, creator)
    {
      var inserted := Insert(rows, values, creator);
      rows, r := inserted.0, inserted.1;
    }

    method Update(id: Value, changes: Entity, extra: seq<FieldFilter>) returns (r: Result<Entity, Error>)
      modifies this
      ensures (rows, r) == RelationalTable.Update(backend, old(rows), id, changes, extra)
    {
      var chain := SqlCompiler.Chain([KeyFilter(id)] + extra);
      if chain.Err? {
        return Err(BadArgument);
      }
      var after := Updated(backend, chain.value, changes, rows);
      if !KeysDistinct(after) {
        return Err(IntegrityViolation);
      }
      if Selected(backend, chain.value, rows) == [] {
        return Err(RecordNotFound);
      }
      rows := after;
      var row := GetById(rows, id);
      return if row.Some? then Ok(row.value) else Err(RecordNotFound);
    }

    method DeleteWhere(filters: seq<FieldFilter>) returns (r: Result<nat, Error>)
      modifies this
      ensures (rows, r) == RelationalTable.DeleteWhere(backend, old(rows), filters)
    {
      var chain := SqlCompiler.Chain(filters);
      if chain.Err? {
        return Err(BadArgument);
      }
      r := Ok(|Selected(backend, chain.value, rows)|);
      rows := Kept(backend, chain.value, rows);
    }

    method BulkCreate(entities: seq<Entity>, creator: string) returns (r: BulkResult)
      modifies this
      ensures (rows, r) == RelationalTable.BulkCreate(old(rows), entities, creator)
    {
      r := BulkResult([], {}, None);
      var i := 0;
      while i < |entities|
        invariant 0 <= i <= |entities|
        invariant (rows, r) == RelationalTable.BulkCreate(old(rows), entities[..i], creator)
      {
        var outcome := Create(entities[i], creator);
        r := if outcome.Ok? then r.(succeeded := r.succeeded + [entities[i]]) else r.(failed := r.failed + {i});
        i := i + 1;
        assert entities[..i][..i - 1] == entities[..i - 1];
      }
      assert entities[..i] == entities;
    }

    method BulkUpdate(updates: seq<(Value, Entity)>, extra: seq<FieldFilter>) returns (r: BulkResult)
      modifies this
      ensures (rows, r) == RelationalTable.BulkUpdate(backend, old(rows), updates, extra)
    {
      r := BulkResult([], {}, None);
      var i := 0;
      while i < |updates|
        invariant 0 <= i <= |updates| && r.raised.None?
        invariant (rows, r) == RelationalTable.BulkUpdate(backend, old(rows), updates[..i], extra)
        decreases |updates| - i
      {
        ghost var before := rows;
        var outcome := Update(updates[i].0, updates[i].1, extra);
        BulkUpdateStep(backend, old(rows), updates, extra, i, before, r);
        r := Recorded(r, i, outcome);
        if r.raised.Some? {
          RaisedEndsBulkUpdate(backend, old(rows), updates, extra, i + 1);
          return;
        }
        i := i + 1;
      }
      assert updates[..i] == updates;
    }
  }

  lemma {:induction false} BulkUpdateStep(k: Backend, t: Table, updates: seq<(Value, Entity)>, extra: seq<FieldFilter>, i: nat, before: Table, r: BulkResult)
    requires i < |updates| && r.raised.None? && (before, r) == RelationalTable.BulkUpdate(k, t, updates[..i], extra)
    ensures var (after, outcome) := RelationalTable.Update(k, before, updates[i].0, updates[i].1, extra);
      RelationalTable.BulkUpdate(k, t, updates[..i + 1], extra) == (after, Recorded(r, i, outcome))
  {
    assert updates[..i + 1][..i] == updates[..i];
  }

  lemma {:induction false} RaisedEndsBulkUpdate(k: Backend, t: Table, updates: seq<(Value, Entity)>, extra: seq<FieldFilter>, n: nat)
    requires n <= |updates| && RelationalTable.BulkUpdate(k, t, updates[..n], extra).1.raised.Some?
    ensures RelationalTable.BulkUpdate(k, t, updates, extra) == RelationalTable.BulkUpdate(k, t, updates[..n], extra)
  {
    if n < |updates| {
      assert updates[..|updates| - 1][..n] == updates[..n];
      RaisedEndsBulkUpdate(k, t, updates[..|updates| - 1], extra, n);
    } else {
      assert updates[..n] == updates;
    }
  }

  class TenantScopedRepository {
    const inner: SQLAlchemyRepository

    constructor (inner: SQLAlchemyRepository)
      ensures this.inner == inner
    {
      this.inner := inner;
    }

    method Create(scope: Option<string>, entity: Entity) returns (r: TenantScope.Reply)
      modifies inner
      ensures (inner.rows, r) == TenantScope.Perform(inner.backend, old(inner.rows), scope, TenantScope.Create(entity))
    {
      if scope.None? {
        return TenantScope.Failed(TenantContextMissing);
      }
      if TenantScope.ForeignStamp(entity, scope.value) {
        return TenantScope.Failed(CrossTenantAccess);
      }
      var saved := inner.Create(TenantScope.Stamped(entity, scope.value), scope.value);
      return match saved case Ok(e) => TenantScope.Saved(e) case Err(error) => TenantScope.Failed(error);
    }

    method Update(scope: Option<string>, id: Value, changes: Entity, extra: seq<FieldFilter>) returns (r: TenantScope.Reply)
      modifies inner
      ensures (inner.rows, r)
           == TenantScope.Perform(inner.backend, old(inner.rows), scope, TenantScope.Update(id, changes, extra))
    {
      if scope.None? {
        return TenantScope.Failed(TenantContextMissing);
      }
      if TenantScope.Reassigns(changes, scope.value) {
        return TenantScope.Failed(CrossTenantAccess);
      }
      var saved := inner.Update(id, changes, [TenantScope.TenantFilter(scope.value)] + extra);
      return match saved case Ok(e) => TenantScope.Saved(e) case Err(error) => TenantScope.Failed(error);
    }

    method Delete(scope: Option<string>, id: Value, extra: seq<FieldFilter>) returns (r: TenantScope.Reply)
      modifies inner
      ensures (inner.rows, r) == TenantScope.Perform(inner.backend, old(inner.rows), scope, TenantScope.Delete(id, extra))
    {
      if scope.None? {
        return TenantScope.Failed(TenantContextMissing);
      }
      var deleted := inner.DeleteWhere([KeyFilter(id)] + ([TenantScope.TenantFilter(scope.value)] + extra));
      return match deleted case Ok(n) => TenantScope.Removed(n > 0) case Err(error) => TenantScope.Failed(error);
    }

    method BulkCreate(scope: Option<string>, entities: seq<Entity>) returns (r: TenantScope.Reply)
      modifies inner
      ensures (inner.rows, r)
           == TenantScope.Perform(inner.backend, old(inner.rows), scope, TenantScope.BulkCreate(entities))
    {
      if scope.None? {
        return TenantScope.Failed(TenantContextMissing);
      }
      if exists i :: 0 <= i < |entities| && TenantScope.ForeignStamp(entities[i], scope.value) {
        return TenantScope.Failed(CrossTenantAccess);
      }
      var result := inner.BulkCreate(TenantScope.StampedAll(entities, scope.value), scope.value);
      return TenantScope.Bulk(result);
    }

    method BulkUpdate(scope: Option<string>, updates: seq<(Value, Entity)>, extra: seq<FieldFilter>) returns (r: TenantScope.Reply)
      modifies inner
      ensures (inner.rows, r)
           == TenantScope.Perform(inner.backend, old(inner.rows), scope, TenantScope.BulkUpdate(updates, extra))
    {
      if scope.None? {
        return TenantScope.Failed(TenantContextMissing);
      }
      if exists i :: 0 <= i < |updates| && TenantScope.Reassigns(updates[i].1, scope.value) {
        return TenantScope.Failed(CrossTenantAccess);
      }
      var result := inner.BulkUpdate(updates, [TenantScope.TenantFilter(scope.value)] + extra);
      return TenantScope.Bulk(result);
    }

    method BulkDelete(scope: Option<string>, ids: seq<Value>, extra: seq<FieldFilter>) returns (r: TenantScope.Reply)
      modifies inner
      ensures (inner.rows, r)
           == TenantScope.Perform(inner.backend, old(inner.rows), scope, TenantScope.BulkDelete(ids, extra))
    {
      if scope.None? {
        return TenantScope.Failed(TenantContextMissing);
      }
      if ids == [] {
        return TenantScope.Counted(0);
      }
      var deleted := inner.DeleteWhere([FieldFilter("id", IN, Many(ids))] + ([TenantScope.TenantFilter(scope.value)] + extra));
      return TenantScope.CountReply(deleted);
    }
  }
}
