/** What each tenant-scoped operation does to the table and what it replies, row by row and filter by filter. */
module ScopedOperations {
  import opened Wrappers
  import opened Criteria
  import opened SqlCompiler
  import opened RelationalTable
  import opened TenantScope

  // ---------------------------------------------------------------- rows

  /** The rows that satisfy `keep`, in their order. */
  function Filter(t: Table, keep: Row -> bool): Table {
    if t == [] then [] else (if keep(t[0]) then [t[0]] else []) + Filter(t[1..], keep)
  }

  /** Each row changed by `f`, in place. */
  function Map(t: Table, f: Row -> Row): (r: Table)
    ensures |r| == |t|
  {
    seq(|t|, i requires 0 <= i < |t| => f(t[i]))
  }

  lemma {:induction false} FilterHas(t: Table, keep: Row -> bool)
    ensures forall r :: r in Filter(t, keep) <==> r in t && keep(r)
  {
    if t != [] {
      FilterHas(t[1..], keep);
      assert t == [t[0]] + t[1..];
    }
  }

  lemma {:induction false} FilterSplits(t: Table, keep: Row -> bool)
    ensures |Filter(t, keep)| + |Filter(t, r => !keep(r))| == |t|
  {
    if t != [] {
      FilterSplits(t[1..], keep);
    }
  }

  lemma {:induction false} FilterSame(t: Table, keep: Row -> bool, other: Row -> bool)
    requires forall r :: r in t ==> keep(r) == other(r)
    ensures Filter(t, keep) == Filter(t, other)
  {
    if t != [] {
      assert t == [t[0]] + t[1..];
      FilterSame(t[1..], keep, other);
    }
  }

  lemma {:induction false} HasKeyMeaning(t: Table, id: Value)
    ensures HasKey(t, id) <==> exists i :: 0 <= i < |t| && Key(t[i]) == id
  {
    if t != [] {
      HasKeyMeaning(t[1..], id);
      if HasKey(t[1..], id) {
        var i :| 0 <= i < |t| - 1 && Key(t[1..][i]) == id;
        assert Key(t[i + 1]) == id;
      } else if exists i :: 0 <= i < |t| && Key(t[i]) == id {
        var i :| 0 <= i < |t| && Key(t[i]) == id;
        assert i > 0 ==> t[1..][i - 1] == t[i];
      }
    }
  }

  // ---------------------------------------------------------------- what a chain selects

  /** The filter has a condition, and the row satisfies it. */
  predicate Satisfies(k: Backend, r: Row, f: FieldFilter) {
    ConditionFor(f).Ok? && Truth3(k.like, r.values, ConditionFor(f).value).True?
  }

  predicate SatisfiesAll(k: Backend, r: Row, filters: seq<FieldFilter>) {
    forall i :: 0 <= i < |filters| ==> Satisfies(k, r, filters[i])
  }

  predicate Compile(filters: seq<FieldFilter>) {
    forall i :: 0 <= i < |filters| ==> ConditionFor(filters[i]).Ok?
  }

  lemma {:induction false} ChainMeans(k: Backend, filters: seq<FieldFilter>)
    ensures Chain(filters).Ok? <==> Compile(filters)
    ensures Chain(filters).Ok? ==> forall r: Row :: Hit(k, Chain(filters).value, r) <==> SatisfiesAll(k, r, filters)
  {
    ChainIsPointwise(filters);
    if Chain(filters).Ok? {
      forall r: Row ensures Hit(k, Chain(filters).value, r) <==> SatisfiesAll(k, r, filters) {
        ChainMeansAt(k, filters, r);
      }
    }
  }

  lemma {:induction false} ChainMeansAt(k: Backend, filters: seq<FieldFilter>, r: Row)
    requires Chain(filters).Ok?
    ensures Hit(k, Chain(filters).value, r) <==> SatisfiesAll(k, r, filters)
  {
    ChainIsPointwise(filters);
    SelectsWhenAllTrue(k.like, r.values, Chain(filters).value);
    var chain := Chain(filters).value;
    if SatisfiesAll(k, r, filters) {
      forall i | 0 <= i < |chain| ensures Truth3(k.like, r.values, chain[i]).True? {
        assert Satisfies(k, r, filters[i]);
      }
    }
  }

  lemma {:induction false} SatisfiesFirst(k: Backend, r: Row, f: FieldFilter, g: FieldFilter, more: seq<FieldFilter>)
    ensures SatisfiesAll(k, r, [f] + ([g] + more)) <==> Satisfies(k, r, f) && Satisfies(k, r, g) && SatisfiesAll(k, r, more)
    ensures Compile([f] + ([g] + more)) <==> ConditionFor(f).Ok? && ConditionFor(g).Ok? && Compile(more)
  {
    var all := [f] + ([g] + more);
    assert all[0] == f && all[1] == g && forall i :: 0 <= i < |more| ==> all[i + 2] == more[i];
    assert forall i :: 1 < i < |all| ==> all[i] == more[i - 2];
  }

  lemma {:induction false} InListMeans(a: Value, items: seq<Value>)
    ensures InTruth(a, items).True? <==> !a.Null? && a in items
  {
    if items != [] {
      InListMeans(a, items[1..]);
    }
  }

  /** What the tenant filter and the key filters ask for; a null key is in no list. */
  lemma {:induction false} OwnFiltersMean(k: Backend, r: Row, tenant: string, id: Value, ids: seq<Value>)
    ensures Satisfies(k, r, TenantFilter(tenant)) <==> Owned(r, tenant)
    ensures Satisfies(k, r, KeyFilter(id)) <==> Key(r) == id
    ensures Satisfies(k, r, FieldFilter("id", IN, Many(ids))) <==> !Key(r).Null? && Key(r) in ids
    ensures ConditionFor(TenantFilter(tenant)).Ok? && ConditionFor(KeyFilter(id)).Ok?
    ensures ConditionFor(FieldFilter("id", IN, Many(ids))).Ok?
  {
    InListMeans(Key(r), ids);
  }

  /** The tenant's row with that key, if it satisfies the caller's criteria too. */
  predicate Targeted(k: Backend, r: Row, tenant: string, id: Value, extra: seq<FieldFilter>) {
    Owned(r, tenant) && Key(r) == id && SatisfiesAll(k, r, extra)
  }

  /** One of the tenant's rows with these keys, if it satisfies the caller's criteria too. */
  predicate TargetedIn(k: Backend, r: Row, tenant: string, ids: seq<Value>, extra: seq<FieldFilter>) {
    Owned(r, tenant) && !Key(r).Null? && Key(r) in ids && SatisfiesAll(k, r, extra)
  }

  lemma {:induction false} KeyChainMeans(k: Backend, tenant: string, id: Value, extra: seq<FieldFilter>)
    ensures var chain := Chain([KeyFilter(id)] + ([TenantFilter(tenant)] + extra));
      && (chain.Ok? <==> Compile(extra))
      && (chain.Ok? ==> forall r: Row :: Hit(k, chain.value, r) <==> Targeted(k, r, tenant, id, extra))
  {
    var filters := [KeyFilter(id)] + ([TenantFilter(tenant)] + extra);
    ChainMeans(k, filters);
    forall r: Row
      ensures SatisfiesAll(k, r, filters) <==> Targeted(k, r, tenant, id, extra)
      ensures Compile(filters) <==> Compile(extra)
    {
      SatisfiesFirst(k, r, KeyFilter(id), TenantFilter(tenant), extra);
      OwnFiltersMean(k, r, tenant, id, []);
    }
    SatisfiesFirst(k, Row(map[], ""), KeyFilter(id), TenantFilter(tenant), extra);
  }

  lemma {:induction false} ListChainMeans(k: Backend, tenant: string, ids: seq<Value>, extra: seq<FieldFilter>)
    ensures var chain := Chain([FieldFilter("id", IN, Many(ids))] + ([TenantFilter(tenant)] + extra));
      && (chain.Ok? <==> Compile(extra))
      && (chain.Ok? ==> forall r: Row :: Hit(k, chain.value, r) <==> TargetedIn(k, r, tenant, ids, extra))
  {
    var listed := FieldFilter("id", IN, Many(ids));
    var filters := [listed] + ([TenantFilter(tenant)] + extra);
    ChainMeans(k, filters);
    forall r: Row
      ensures SatisfiesAll(k, r, filters) <==> TargetedIn(k, r, tenant, ids, extra)
      ensures Compile(filters) <==> Compile(extra)
    {
      SatisfiesFirst(k, r, listed, TenantFilter(tenant), extra);
      OwnFiltersMean(k, r, tenant, Null, ids);
    }
    SatisfiesFirst(k, Row(map[], ""), listed, TenantFilter(tenant), extra);
  }

  /** Criteria with the tenant filter behind them. */
  lemma {:induction false} QueryChainMeans(k: Backend, tenant: string, criteria: CriteriaArgument)
    ensures var filters, chain := Normalize(criteria), Chain(ScopedCriteria(criteria, tenant));
      && (chain.Ok? <==> Compile(filters))
      && (chain.Ok? ==> forall r: Row :: Hit(k, chain.value, r) <==> Owned(r, tenant) && SatisfiesAll(k, r, filters))
  {
    var filters, all := Normalize(criteria), ScopedCriteria(criteria, tenant);
    var n := |filters|;
    ChainMeans(k, all);
    assert all[n] == TenantFilter(tenant) && forall i :: 0 <= i < n ==> all[i] == filters[i];
    forall r: Row ensures SatisfiesAll(k, r, all) <==> Owned(r, tenant) && SatisfiesAll(k, r, filters) {
      OwnFiltersMean(k, r, tenant, Null, []);
      SatisfiesLast(k, r, filters, TenantFilter(tenant));
    }
  }

  lemma {:induction false} SatisfiesLast(k: Backend, r: Row, filters: seq<FieldFilter>, last: FieldFilter)
    ensures SatisfiesAll(k, r, filters + [last]) <==> SatisfiesAll(k, r, filters) && Satisfies(k, r, last)
  {
    var all, n := filters + [last], |filters|;
    assert all[n] == last && forall i :: 0 <= i < n ==> all[i] == filters[i];
    assert SatisfiesAll(k, r, all) ==> forall i :: 0 <= i < n ==> Satisfies(k, r, all[i]);
  }

  // ---------------------------------------------------------------- what statements with such a chain do

  lemma {:induction false} SelectedRows(k: Backend, chain: seq<Condition>, t: Table, target: Row -> bool)
    requires forall r: Row :: Hit(k, chain, r) <==> target(r)
    ensures Selected(k, chain, t) == Filter(t, target)
  {
    if t != [] {
      SelectedRows(k, chain, t[1..], target);
    }
  }

  lemma {:induction false} KeptRows(k: Backend, chain: seq<Condition>, t: Table, target: Row -> bool)
    requires forall r: Row :: Hit(k, chain, r) <==> target(r)
    ensures Kept(k, chain, t) == Filter(t, r => !target(r))
  {
    if t != [] {
      KeptRows(k, chain, t[1..], target);
    }
  }

  lemma {:induction false} UpdatedRows(k: Backend, chain: seq<Condition>, changes: Entity, t: Table, target: Row -> bool)
    requires forall r: Row :: Hit(k, chain, r) <==> target(r)
    ensures Updated(k, chain, changes, t) == Map(t, r => if target(r) then r.(values := r.values + changes) else r)
  {
    if t != [] {
      UpdatedRows(k, chain, changes, t[1..], target);
    }
  }

  lemma {:induction false} RowsOfValues(t: Table)
    ensures |Values(t)| == |t| && forall i :: 0 <= i < |t| ==> Values(t)[i] == t[i].values
  {
    if t != [] {
      RowsOfValues(t[1..]);
    }
  }

  // ---------------------------------------------------------------- theorems

  /** Outside a tenant's scope every operation fails and none changes anything, except that `get_by_id` of a key that no row
      has finds nothing. */
  lemma {:induction false} NoScopeNoAccess(k: Backend, t: Table, op: Operation)
    ensures Perform(k, t, None, op).0 == t
    ensures Perform(k, t, None, op).1
      == if op.Get? && !SomeHasKey(t, op.id) then Found(None) else Failed(TenantContextMissing)
  {
    if op.Get? {
      GetByIdFinds(t, op.id);
      HasKeyMeaning(t, op.id);
    }
  }

  /** `get_by_id` finds the row with the key if it is the tenant's. */
  lemma {:induction false} GetMeans(k: Backend, t: Table, tenant: string, id: Value)
    requires KeysDistinct(t)
    ensures var (after, reply) := Perform(k, t, Some(tenant), Get(id));
      && after == t && reply.Found?
      && (reply.entity.Some? <==> exists r :: r in t && Owned(r, tenant) && Key(r) == id)
      && (reply.entity.Some? ==> exists r :: r in t && Owned(r, tenant) && Key(r) == id && reply == Found(Some(r.values)))
  {
    var row := GetById(t, id);
    RowWithKey(t, id);
    forall r | r in t && Key(r) == id ensures row == Some(r.values) {
      KeyedRowIsFound(t, id, r);
    }
  }

  lemma {:induction false} RowWithKey(t: Table, id: Value)
    ensures GetById(t, id).Some? ==> exists r :: r in t && Key(r) == id && r.values == GetById(t, id).value
  {
    if t != [] {
      if Key(t[0]) == id {
        assert t[0] in t;
      } else {
        RowWithKey(t[1..], id);
      }
    }
  }

  lemma {:induction false} KeyedRowIsFound(t: Table, id: Value, r: Row)
    requires KeysDistinct(t) && r in t && Key(r) == id
    ensures GetById(t, id) == Some(r.values)
  {
    if r != t[0] {
      assert r in t[1..];
      KeyedRowIsFound(t[1..], id, r);
      HasKeyMeaning(t[1..], id);
      var i :| 0 <= i < |t[1..]| && t[1..][i] == r;
      assert Key(t[1..][i]) == id;
    }
  }

  /** `create` appends the entity, stamped with the tenant, unless it carries another tenant's stamp or its key is taken;
      then nothing changes. */
  lemma {:induction false} CreateMeans(k: Backend, t: Table, tenant: string, e: Entity)
    ensures var (after, reply) := Perform(k, t, Some(tenant), Create(e));
      var stamped := e["tenant_id" := Text(tenant)];
      if "tenant_id" in e && e["tenant_id"] !in [Null, Text(tenant)] then after == t && reply == Failed(CrossTenantAccess)
      else if SomeHasKey(t, Criteria.Get(stamped, "id")) then after == t && reply == Failed(IntegrityViolation)
      else after == t + [Row(stamped, tenant)] && reply == Saved(stamped)
  {
    HasKeyMeaning(t, Criteria.Get(e["tenant_id" := Text(tenant)], "id"));
  }

  /** `delete` removes exactly the tenant's row with the key that satisfies the criteria; the rows left keep their order,
      and the reply says whether one went. */
  lemma {:induction false} DeleteMeans(k: Backend, t: Table, tenant: string, id: Value, extra: seq<FieldFilter>)
    ensures var (after, reply) := Perform(k, t, Some(tenant), Delete(id, extra));
      if !Compile(extra) then after == t && reply == Failed(BadArgument)
      else
        && after == Filter(t, r => !Targeted(k, r, tenant, id, extra))
        && (forall r :: r in after <==> r in t && !Targeted(k, r, tenant, id, extra))
        && reply == Removed(exists r :: r in t && Targeted(k, r, tenant, id, extra))
  {
    KeyChainMeans(k, tenant, id, extra);
    if Compile(extra) {
      var target := (r: Row) => Targeted(k, r, tenant, id, extra);
      var chain := Chain([KeyFilter(id)] + ([TenantFilter(tenant)] + extra)).value;
      SelectedRows(k, chain, t, target);
      KeptRows(k, chain, t, target);
      FilterHas(t, target);
      FilterHas(t, r => !target(r));
      FilterSame(t, r => !target(r), r => !Targeted(k, r, tenant, id, extra));
      var gone := Filter(t, target);
      if gone != [] {
        assert gone[0] in gone;
      }
    }
  }

  /** `bulk_delete` removes exactly the tenant's rows with these keys that satisfy the criteria, and counts them. */
  lemma {:induction false} BulkDeleteMeans(k: Backend, t: Table, tenant: string, ids: seq<Value>, extra: seq<FieldFilter>)
    ensures var (after, reply) := Perform(k, t, Some(tenant), BulkDelete(ids, extra));
      if ids == [] then after == t && reply == Counted(0)
      else if !Compile(extra) then after == t && reply == Failed(BadArgument)
      else
        && after == Filter(t, r => !TargetedIn(k, r, tenant, ids, extra))
        && (forall r :: r in after <==> r in t && !TargetedIn(k, r, tenant, ids, extra))
        && reply.Counted? && |after| + reply.count == |t|
  {
    ListChainMeans(k, tenant, ids, extra);
    if ids != [] && Compile(extra) {
      var target := (r: Row) => TargetedIn(k, r, tenant, ids, extra);
      var chain := Chain([FieldFilter("id", IN, Many(ids))] + ([TenantFilter(tenant)] + extra)).value;
      SelectedRows(k, chain, t, target);
      KeptRows(k, chain, t, target);
      FilterSplits(t, target);
      FilterHas(t, r => !target(r));
      FilterSame(t, r => !target(r), r => !TargetedIn(k, r, tenant, ids, extra));
    }
  }

  predicate SomeTargeted(k: Backend, t: Table, tenant: string, id: Value, extra: seq<FieldFilter>) {
    exists i :: 0 <= i < |t| && Targeted(k, t[i], tenant, id, extra)
  }

  predicate SomeHasKey(t: Table, id: Value) { exists i :: 0 <= i < |t| && Key(t[i]) == id }

  /** The changes merged into the targeted row, the other rows as they are. */
  function Merged(k: Backend, t: Table, tenant: string, id: Value, changes: Entity, extra: seq<FieldFilter>): Table {
    Map(t, r => if Targeted(k, r, tenant, id, extra) then r.(values := r.values + changes) else r)
  }

  /** The statement's parts for `update`. */
  lemma {:induction false} UpdateParts(k: Backend, t: Table, tenant: string, id: Value, changes: Entity, extra: seq<FieldFilter>)
    requires KeysDistinct(t) && Compile(extra)
    ensures var chain := Chain([KeyFilter(id)] + ([TenantFilter(tenant)] + extra));
      && chain.Ok? && SelectsKey(k, chain.value, id)
      && (Selected(k, chain.value, t) != [] <==> SomeTargeted(k, t, tenant, id, extra))
      && Updated(k, chain.value, changes, t) == Merged(k, t, tenant, id, changes, extra)
      && (KeysDistinct(Updated(k, chain.value, changes, t)) <==>
            !SomeTargeted(k, t, tenant, id, extra) || NewKey(id, changes) == id || !HasKey(t, NewKey(id, changes)))
  {
    KeyChainMeans(k, tenant, id, extra);
    var chain := Chain([KeyFilter(id)] + ([TenantFilter(tenant)] + extra)).value;
    var target := (r: Row) => Targeted(k, r, tenant, id, extra);
    KeyedChainSelectsKey(k, id, [TenantFilter(tenant)] + extra);
    SelectedRows(k, chain, t, target);
    UpdatedRows(k, chain, changes, t, target);
    MapSame(t, r => if target(r) then r.(values := r.values + changes) else r,
            r => if Targeted(k, r, tenant, id, extra) then r.(values := r.values + changes) else r);
    FilterIsEmptyIff(t, target);
    UpdatedKeysDistinctIff(k, chain, changes, t, id);
  }

  lemma {:induction false} MapSame(t: Table, f: Row -> Row, g: Row -> Row)
    requires forall r :: f(r) == g(r)
    ensures Map(t, f) == Map(t, g)
  {
  }

  lemma {:induction false} FilterIsEmptyIff(t: Table, keep: Row -> bool)
    ensures Filter(t, keep) != [] <==> exists i :: 0 <= i < |t| && keep(t[i])
  {
    FilterHas(t, keep);
    var kept := Filter(t, keep);
    if kept != [] {
      assert kept[0] in kept;
    }
  }

  /** What it reads back when the key stays. */
  lemma {:induction false} ReadsBack(k: Backend, t: Table, tenant: string, id: Value, changes: Entity, extra: seq<FieldFilter>, i: nat)
    requires i < |t| && Targeted(k, t[i], tenant, id, extra) && NewKey(id, changes) == id
    requires KeysDistinct(Merged(k, t, tenant, id, changes, extra))
    ensures GetById(Merged(k, t, tenant, id, changes, extra), id) == Some(t[i].values + changes)
  {
    var after := Merged(k, t, tenant, id, changes, extra);
    assert after[i] == t[i].(values := t[i].values + changes) && after[i] in after;
    KeyedRowIsFound(after, id, after[i]);
  }

  lemma {:induction false} NothingMerged(k: Backend, t: Table, tenant: string, id: Value, changes: Entity, extra: seq<FieldFilter>)
    ensures !SomeTargeted(k, t, tenant, id, extra) ==> Merged(k, t, tenant, id, changes, extra) == t
  {
  }

  lemma {:induction false} RowIsGone(k: Backend, t: Table, tenant: string, id: Value, changes: Entity, extra: seq<FieldFilter>)
    requires KeysDistinct(t) && Compile(extra) && SomeTargeted(k, t, tenant, id, extra) && NewKey(id, changes) != id
    ensures GetById(Merged(k, t, tenant, id, changes, extra), id) == None
  {
    UpdateParts(k, t, tenant, id, changes, extra);
    MovedAway(k, Chain([KeyFilter(id)] + ([TenantFilter(tenant)] + extra)).value, changes, t, id);
    GetByIdFinds(Merged(k, t, tenant, id, changes, extra), id);
  }

  /** When `update` changes nothing, and why. */
  lemma {:induction false} UpdateFails(k: Backend, t: Table, tenant: string, id: Value, changes: Entity, extra: seq<FieldFilter>)
    requires KeysDistinct(t)
    ensures var (after, reply) := Perform(k, t, Some(tenant), Update(id, changes, extra));
      var taken := NewKey(id, changes);
      && ("tenant_id" in changes && changes["tenant_id"] != Text(tenant) ==> after == t && reply == Failed(CrossTenantAccess))
      && (!("tenant_id" in changes && changes["tenant_id"] != Text(tenant)) ==>
            && (!Compile(extra) ==> after == t && reply == Failed(BadArgument))
            && (Compile(extra) && !SomeTargeted(k, t, tenant, id, extra) ==> after == t && reply == Failed(RecordNotFound))
            && (Compile(extra) && SomeTargeted(k, t, tenant, id, extra) && taken != id && SomeHasKey(t, taken) ==>
                  after == t && reply == Failed(IntegrityViolation)))
  {
    KeyChainMeans(k, tenant, id, extra);
    HasKeyMeaning(t, NewKey(id, changes));
    if Compile(extra) {
      UpdateParts(k, t, tenant, id, changes, extra);
      NothingMerged(k, t, tenant, id, changes, extra);
    }
  }

  /** Otherwise it merges the changes into the tenant's row with the key that satisfies the criteria, leaves every other
      row as it is, and replies with the changed row, unless that has a new key. */
  lemma {:induction false} UpdateMeans(k: Backend, t: Table, tenant: string, id: Value, changes: Entity, extra: seq<FieldFilter>, i: nat)
    requires KeysDistinct(t) && !("tenant_id" in changes && changes["tenant_id"] != Text(tenant)) && Compile(extra)
    requires i < |t| && Targeted(k, t[i], tenant, id, extra)
    requires NewKey(id, changes) == id || !SomeHasKey(t, NewKey(id, changes))
    ensures var (after, reply) := Perform(k, t, Some(tenant), Update(id, changes, extra));
      && after == t[i := t[i].(values := t[i].values + changes)]
      && reply == if NewKey(id, changes) == id then Saved(t[i].values + changes) else Failed(RecordNotFound)
  {
    KeyChainMeans(k, tenant, id, extra);
    HasKeyMeaning(t, NewKey(id, changes));
    UpdateParts(k, t, tenant, id, changes, extra);
    OnlyOneTargeted(k, t, tenant, id, changes, extra, i);
    if NewKey(id, changes) == id {
      ReadsBack(k, t, tenant, id, changes, extra, i);
    } else {
      RowIsGone(k, t, tenant, id, changes, extra);
    }
  }

  lemma {:induction false} KeysApart(t: Table, i: nat, j: nat)
    requires KeysDistinct(t) && i < j < |t|
    ensures Key(t[i]) != Key(t[j])
  {
    if i == 0 {
      HasKeyMeaning(t[1..], Key(t[0]));
      assert t[1..][j - 1] == t[j];
    } else {
      KeysApart(t[1..], i - 1, j - 1);
    }
  }

  lemma {:induction false} OnlyOneTargeted(k: Backend, t: Table, tenant: string, id: Value, changes: Entity, extra: seq<FieldFilter>, i: nat)
    requires KeysDistinct(t) && i < |t| && Targeted(k, t[i], tenant, id, extra)
    ensures Merged(k, t, tenant, id, changes, extra) == t[i := t[i].(values := t[i].values + changes)]
  {
    forall j | 0 <= j < |t| && j != i ensures !Targeted(k, t[j], tenant, id, extra) {
      if j < i {
        KeysApart(t, j, i);
      } else {
        KeysApart(t, i, j);
      }
    }
  }

  /** `find` and `count` see exactly the tenant's rows that satisfy the criteria; a page is the asked-for part of them in
      the order that the database puts them in. */
  lemma {:induction false} FindMeans(k: Backend, t: Table, tenant: string, criteria: CriteriaArgument, limit: int, offset: int, sort: seq<SortSpec>)
    ensures var (after, reply) := Perform(k, t, Some(tenant), Find(criteria, limit, offset, sort));
      var rows := Filter(t, r => Owned(r, tenant) && SatisfiesAll(k, r, Normalize(criteria)));
      var sorted := k.arrange(sort, Values(rows));
      && after == t
      && if limit <= 0 || offset < 0 then reply == Failed(BadPage)
         else if !Compile(Normalize(criteria)) then reply == Failed(BadArgument)
         else
           && reply.Listed? && reply.page.total == |rows|
           && |reply.page.items| == (if offset >= |sorted| then 0 else if limit < |sorted| - offset then limit else |sorted| - offset)
           && forall i :: 0 <= i < |reply.page.items| ==> reply.page.items[i] == sorted[offset + i]
  {
    QueryChainMeans(k, tenant, criteria);
    if Compile(Normalize(criteria)) {
      var target := (r: Row) => Owned(r, tenant) && SatisfiesAll(k, r, Normalize(criteria));
      SelectedRows(k, Chain(ScopedCriteria(criteria, tenant)).value, t, target);
      FilterSame(t, target, r => Owned(r, tenant) && SatisfiesAll(k, r, Normalize(criteria)));
      RowsOfValues(Filter(t, target));
    }
  }

  lemma {:induction false} CountMeans(k: Backend, t: Table, tenant: string, criteria: CriteriaArgument)
    ensures Perform(k, t, Some(tenant), Count(criteria)) == (t,
      if !Compile(Normalize(criteria)) then Failed(BadArgument)
      else Counted(|Filter(t, r => Owned(r, tenant) && SatisfiesAll(k, r, Normalize(criteria)))|))
  {
    QueryChainMeans(k, tenant, criteria);
    if Compile(Normalize(criteria)) {
      var target := (r: Row) => Owned(r, tenant) && SatisfiesAll(k, r, Normalize(criteria));
      SelectedRows(k, Chain(ScopedCriteria(criteria, tenant)).value, t, target);
      FilterSame(t, target, r => Owned(r, tenant) && SatisfiesAll(k, r, Normalize(criteria)));
    }
  }

  /** One foreign stamp, or one reassignment, rejects the whole batch. */
  lemma {:induction false} BatchIsRejected(k: Backend, t: Table, tenant: string, op: Operation)
    requires op.BulkCreate? ==> exists i :: 0 <= i < |op.entities| && ForeignStamp(op.entities[i], tenant)
    requires op.BulkUpdate? ==> exists i :: 0 <= i < |op.updates| && Reassigns(op.updates[i].1, tenant)
    requires op.BulkCreate? || op.BulkUpdate?
    ensures Perform(k, t, Some(tenant), op) == (t, Failed(CrossTenantAccess))
  {
  }

  predicate NoForeignStamp(entities: seq<Entity>, tenant: string) {
    forall i :: 0 <= i < |entities| ==> !ForeignStamp(entities[i], tenant)
  }

  /** Otherwise `bulk_create` creates its items one after the other, each as `create` would in the table that those before
      it left; the outcomes are those of the single calls. */
  lemma {:induction false} BulkCreateIsEachCreate(k: Backend, t: Table, tenant: string, entities: seq<Entity>, i: nat)
    requires i < |entities| && NoForeignStamp(entities, tenant)
    ensures var (before, earlier) := Perform(k, t, Some(tenant), BulkCreate(entities[..i]));
      var (after, reply) := Perform(k, t, Some(tenant), BulkCreate(entities[..i + 1]));
      var (single, outcome) := Perform(k, before, Some(tenant), Create(entities[i]));
      && earlier.Bulk? && reply.Bulk? && after == single && (i == 0 ==> before == t && earlier.result == BulkResult([], {}, None))
      && reply.result == if outcome.Saved? then earlier.result.(succeeded := earlier.result.succeeded + [outcome.saved])
                         else earlier.result.(failed := earlier.result.failed + {i})
  {
    var all := StampedAll(entities[..i + 1], tenant);
    assert all[..i] == StampedAll(entities[..i], tenant) && all[i] == Stamped(entities[i], tenant);
  }

  predicate NoReassignment(updates: seq<(Value, Entity)>, tenant: string) {
    forall i :: 0 <= i < |updates| ==> !Reassigns(updates[i].1, tenant)
  }

  /** What one update adds to the outcomes. */
  function WithUpdate(r: BulkResult, i: nat, outcome: Reply): BulkResult {
    if outcome.Saved? then r.(succeeded := r.succeeded + [outcome.saved])
    else if outcome == Failed(BadArgument) then r.(raised := Some(BadArgument))
    else r.(failed := r.failed + {i})
  }

  lemma {:induction false} SingleUpdate(k: Backend, t: Table, tenant: string, id: Value, changes: Entity, extra: seq<FieldFilter>,
                                        r: BulkResult, i: nat)
    requires !Reassigns(changes, tenant)
    ensures var (after, result) := RelationalTable.Update(k, t, id, changes, [TenantFilter(tenant)] + extra);
      var (single, outcome) := Perform(k, t, Some(tenant), Update(id, changes, extra));
      after == single && Recorded(r, i, result) == WithUpdate(r, i, outcome)
  {
  }

  lemma {:induction false} UpdatesOneMore(k: Backend, t: Table, updates: seq<(Value, Entity)>, filters: seq<FieldFilter>, i: nat)
    requires i < |updates|
    ensures var (before, r) := RelationalTable.BulkUpdate(k, t, updates[..i], filters);
      var (after, result) := RelationalTable.Update(k, before, updates[i].0, updates[i].1, filters);
      RelationalTable.BulkUpdate(k, t, updates[..i + 1], filters)
      == if r.raised.Some? then (before, r) else (after, Recorded(r, i, result))
  {
    assert updates[..i + 1][..i] == updates[..i];
  }

  lemma {:induction false} AcceptedBatch(k: Backend, t: Table, tenant: string, updates: seq<(Value, Entity)>, extra: seq<FieldFilter>)
    requires NoReassignment(updates, tenant)
    ensures var (after, r) := RelationalTable.BulkUpdate(k, t, updates, [TenantFilter(tenant)] + extra);
      Perform(k, t, Some(tenant), BulkUpdate(updates, extra)) == (after, Bulk(r))
  {
  }

  /** The batch's table and outcomes after one more update. */
  predicate OneMoreUpdate(k: Backend, before: (Table, Reply), after: (Table, Reply), tenant: string, id: Value, changes: Entity,
                          extra: seq<FieldFilter>, i: nat) {
    before.1.Bulk? &&
    if before.1.result.raised.Some? then after == before else
    var (single, outcome) := Perform(k, before.0, Some(tenant), Update(id, changes, extra));
    after == (single, Bulk(WithUpdate(before.1.result, i, outcome)))
  }

  /** And `bulk_update` updates one row after the other, each as `update` would in the table that those before it left;
      only a criterion without a condition ends it early. */
  lemma {:induction false} BulkUpdateIsEachUpdate(k: Backend, t: Table, tenant: string, updates: seq<(Value, Entity)>,
                                                  extra: seq<FieldFilter>, i: nat)
    requires i < |updates| && NoReassignment(updates, tenant)
    ensures Perform(k, t, Some(tenant), BulkUpdate([], extra)) == (t, Bulk(BulkResult([], {}, None)))
    ensures OneMoreUpdate(k, Perform(k, t, Some(tenant), BulkUpdate(updates[..i], extra)),
                          Perform(k, t, Some(tenant), BulkUpdate(updates[..i + 1], extra)),
                          tenant, updates[i].0, updates[i].1, extra, i)
  {
    var filters := [TenantFilter(tenant)] + extra;
    AcceptedBatch(k, t, tenant, [], extra);
    AcceptedBatch(k, t, tenant, updates[..i], extra);
    AcceptedBatch(k, t, tenant, updates[..i + 1], extra);
    var earlier, later := RelationalTable.BulkUpdate(k, t, updates[..i], filters), RelationalTable.BulkUpdate(k, t, updates[..i + 1], filters);
    UpdatesOneMore(k, t, updates, filters, i);
    OneMoreOnTable(k, earlier, later, tenant, updates[i].0, updates[i].1, extra, i);
  }

  lemma {:induction false} OneMoreOnTable(k: Backend, earlier: (Table, BulkResult), later: (Table, BulkResult), tenant: string,
                                          id: Value, changes: Entity, extra: seq<FieldFilter>, i: nat)
    requires !Reassigns(changes, tenant)
    requires var (after, result) := RelationalTable.Update(k, earlier.0, id, changes, [TenantFilter(tenant)] + extra);
      later == if earlier.1.raised.Some? then earlier else (after, Recorded(earlier.1, i, result))
    ensures OneMoreUpdate(k, (earlier.0, Bulk(earlier.1)), (later.0, Bulk(later.1)), tenant, id, changes, extra, i)
  {
    SingleUpdate(k, earlier.0, tenant, id, changes, extra, earlier.1, i);
  }
}
