/** Filters compiled to a Qdrant filter: conditions that must hold and conditions that must not. */
module QdrantCompiler {
  import opened Wrappers
  import opened Criteria

  datatype Condition =
    | MatchValue(key: string, value: Value)
    | MatchExcept(key: string, value: Value)
    | MatchAny(key: string, value: Value)
    | MatchText(key: string, text: string)
    | Range(key: string, operator: Operator, bound: Value)
    | IsNull(key: string)
    | HasId(ids: set<string>)

  datatype Filter = Filter(must: seq<Condition>, mustNot: seq<Condition>)

  /** The condition of a filter, and whether it must hold or must not; `text` is `str`. */
  function ConditionOf(text: Value -> string, f: FieldFilter): (Condition, bool) {
    var key := f.field;
    match f.operator
    case EQ => (MatchValue(key, f.value), true)
    case NE => (MatchExcept(key, f.value), true)
    case IN => (MatchAny(key, f.value), true)
    case NOT_IN => (MatchAny(key, f.value), false)
    case CONTAINS => (MatchText(key, text(f.value)), true)
    case IS_NULL => (IsNull(key), Truthy(f.value))
    case _ => (Range(key, f.operator, f.value), true)
  }

  /** `_add_condition` */
  function AddCondition(text: Value -> string, f: FieldFilter, lists: Filter): Filter {
    var (condition, required) := ConditionOf(text, f);
    if required then lists.(must := lists.must + [condition]) else lists.(mustNot := lists.mustNot + [condition])
  }

  function AddConditions(text: Value -> string, filters: seq<FieldFilter>, lists: Filter): Filter {
    if filters == [] then lists
    else AddCondition(text, filters[|filters| - 1], AddConditions(text, filters[..|filters| - 1], lists))
  }

  /** `_criteria_to_filter`: None asks for every point. */
  method CriteriaToFilter(text: Value -> string, criteria: CriteriaArgument) returns (r: Option<Filter>)
    ensures r == if Normalize(criteria) == [] then None
                 else Some(AddConditions(text, Normalize(criteria), Filter([], [])))
  {
    var filters := Normalize(criteria);
    if filters == [] {
      return None;
    }
    var lists := Filter([], []);
    var i := 0;
    while i < |filters|
      invariant 0 <= i <= |filters|
      invariant lists == AddConditions(text, filters[..i], Filter([], []))
    {
      lists := AddCondition(text, filters[i], lists);
      i := i + 1;
      assert filters[..i][..i - 1] == filters[..i - 1];
    }
    assert filters[..i] == filters;
    return Some(lists);
  }

  /** The server's reading of a condition on a point; `search` is its full-text match. Only IS NULL can tell a stored
      null from a key that is not stored, and a key that is not stored is not null. */
  predicate Holds(search: (Value, string) -> bool, id: string, payload: Entity, c: Condition) {
    match c
    case MatchValue(key, v) => Scalar(Get(payload, key)) && Get(payload, key) == v
    case MatchExcept(key, v) => !Get(payload, key).Null? && Get(payload, key) != v
    case MatchAny(key, v) => Scalar(Get(payload, key)) && v.Many? && Get(payload, key) in v.items
    case MatchText(key, t) => search(Get(payload, key), t)
    case IsNull(key) => key in payload && payload[key].Null?
    case HasId(ids) => id in ids
    case Range(key, operator, bound) =>
      var a := Get(payload, key);
      a.Num? && bound.Num? &&
      match operator
      case GT => a.n > bound.n
      case GTE => a.n >= bound.n
      case LT => a.n < bound.n
      case LTE => a.n <= bound.n
      case _ => false
  }

  predicate Selects(search: (Value, string) -> bool, id: string, payload: Entity, f: Filter) {
    && (forall i :: 0 <= i < |f.must| ==> Holds(search, id, payload, f.must[i]))
    && (forall i :: 0 <= i < |f.mustNot| ==> !Holds(search, id, payload, f.mustNot[i]))
  }

  /** The server lets a point with this payload through `f`. */
  predicate Passes(text: Value -> string, search: (Value, string) -> bool, id: string, payload: Entity, f: FieldFilter) {
    Holds(search, id, payload, ConditionOf(text, f).0) == ConditionOf(text, f).1
  }

  ghost predicate PassesAll(text: Value -> string, search: (Value, string) -> bool, id: string, payload: Entity, filters: seq<FieldFilter>) {
    forall i :: 0 <= i < |filters| ==> Passes(text, search, id, payload, filters[i])
  }

  lemma {:induction false} AddedConditionPasses(text: Value -> string, search: (Value, string) -> bool, id: string, payload: Entity,
                             f: FieldFilter, lists: Filter)
    ensures Selects(search, id, payload, AddCondition(text, f, lists))
      <==> Selects(search, id, payload, lists) && Passes(text, search, id, payload, f)
  {
    var (condition, required) := ConditionOf(text, f);
    var r := AddCondition(text, f, lists);
    if required {
      assert r.must[|lists.must|] == condition && forall i :: 0 <= i < |lists.must| ==> r.must[i] == lists.must[i];
    } else {
      assert r.mustNot[|lists.mustNot|] == condition && forall i :: 0 <= i < |lists.mustNot| ==> r.mustNot[i] == lists.mustNot[i];
    }
  }

  lemma {:induction false} PassesAllSplits(text: Value -> string, search: (Value, string) -> bool, id: string, payload: Entity,
                        filters: seq<FieldFilter>, n: nat)
    requires |filters| == n + 1
    ensures PassesAll(text, search, id, payload, filters)
      <==> PassesAll(text, search, id, payload, filters[..n]) && Passes(text, search, id, payload, filters[n])
  {
    assert forall i :: 0 <= i < n ==> filters[..n][i] == filters[i];
  }

  /** A compiled filter selects the points that pass every filter it was compiled from. */
  lemma {:induction false} FilterMeansEach(text: Value -> string, search: (Value, string) -> bool, id: string,
                                           payload: Entity, filters: seq<FieldFilter>, lists: Filter)
    ensures Selects(search, id, payload, AddConditions(text, filters, lists))
      <==> Selects(search, id, payload, lists) && PassesAll(text, search, id, payload, filters)
  {
    if filters != [] {
      var n := |filters| - 1;
      FilterMeansEach(text, search, id, payload, filters[..n], lists);
      AddedConditionPasses(text, search, id, payload, filters[n], AddConditions(text, filters[..n], lists));
      PassesAllSplits(text, search, id, payload, filters, n);
    }
  }

  // ---------------------------------------------------------------- agreement with the evaluator

  /** `e` is the entity the evaluator sees for `payload`: what is stored of a field is what it sees, but it may see
      fields that are not stored. */
  predicate Shows(payload: Entity, e: Entity, field: string) {
    field in payload ==> field in e && e[field] == payload[field]
  }

  /** The filters a Qdrant condition can express: typed, equality with a value, numeric bounds. */
  predicate Expressible(e: Entity, f: FieldFilter) {
    && Typed(e, f)
    && (f.operator.EQ? || f.operator.NE? ==> !f.value.Null?)
    && (f.operator.GT? || f.operator.GTE? || f.operator.LT? || f.operator.LTE? ==> f.value.Num?)
  }

  /** Where server and evaluator answer differently. On a stored field: NE meets null. On one that is not stored: the
      evaluator sees a value that NOT_IN lists, or null for IS_NULL, or one that any other filter accepts. */
  predicate Trap(text: Value -> string, payload: Entity, e: Entity, f: FieldFilter) {
    if f.field in payload then f.operator.NE? && payload[f.field].Null?
    else match f.operator
      case NOT_IN => f.value.Many? && Get(e, f.field) in f.value.items
      case IS_NULL => Get(e, f.field).Null?
      case _ => MatchesFilter(text, e, f) == Some(true)
  }

  /** A point passes a filter exactly if the evaluator accepts it, except in a trap, where it passes exactly if not. */
  lemma {:induction false} PassesExceptInTraps(text: Value -> string, search: (Value, string) -> bool, id: string, payload: Entity,
                            e: Entity, f: FieldFilter)
    requires Expressible(e, f) && Shows(payload, e, f.field)
    ensures Passes(text, search, id, payload, f) <==> (MatchesFilter(text, e, f) == Some(true)) != Trap(text, payload, e, f)
  {
    var a := Get(e, f.field);
    if f.operator.IN? || f.operator.NOT_IN? {
      assert Occurs(a, f.value.items) <==> a in f.value.items;
    }
  }

  /** CONTAINS agrees exactly if the server's full-text match finds what the evaluator finds. */
  lemma {:induction false} ContainsAgreesIff(text: Value -> string, search: (Value, string) -> bool, id: string, payload: Entity,
                                             e: Entity, field: string, v: Value)
    requires Shows(payload, e, field)
    ensures var f := FieldFilter(field, CONTAINS, v);
      (Passes(text, search, id, payload, f) <==> MatchesFilter(text, e, f) == Some(true))
      <==> (search(Get(payload, field), text(v)) <==> !Get(e, field).Null? && Substring(text(v), text(Get(e, field))))
  {
  }

  /** All filters can be expressed for the entity `e` that `payload` shows. */
  predicate AllExpressible(payload: Entity, e: Entity, filters: seq<FieldFilter>) {
    forall i :: 0 <= i < |filters| ==> Expressible(e, filters[i]) && Shows(payload, e, filters[i].field)
  }

  predicate NoTraps(text: Value -> string, payload: Entity, e: Entity, filters: seq<FieldFilter>) {
    forall i :: 0 <= i < |filters| ==> !Trap(text, payload, e, filters[i])
  }

  /** Outside traps the filter selects exactly what the evaluator accepts; for each filter by itself exactly then. */
  lemma {:induction false} FilterAgreesExceptInTraps(text: Value -> string, search: (Value, string) -> bool, id: string, payload: Entity,
                                  e: Entity, filters: seq<FieldFilter>, lists: Filter)
    requires AllExpressible(payload, e, filters)
    ensures NoTraps(text, payload, e, filters) ==>
      (Selects(search, id, payload, AddConditions(text, filters, lists))
       <==> Selects(search, id, payload, lists) && Matches(text, e, filters) == Some(true))
    ensures forall i :: 0 <= i < |filters| ==>
      ((Passes(text, search, id, payload, filters[i]) <==> MatchesFilter(text, e, filters[i]) == Some(true))
       <==> !Trap(text, payload, e, filters[i]))
  {
    FilterMeansEach(text, search, id, payload, filters, lists);
    MatchesAll(text, e, filters);
    forall i | 0 <= i < |filters|
      ensures Passes(text, search, id, payload, filters[i])
        <==> (MatchesFilter(text, e, filters[i]) == Some(true)) != Trap(text, payload, e, filters[i])
    {
      PassesExceptInTraps(text, search, id, payload, e, filters[i]);
    }
  }
}

/** The vector repository's writes on the collection as a value, beside the in-memory reference repository. */
module VectorWrites {
  import opened Wrappers
  import opened Criteria
  import opened QdrantCompiler

  /** `_entity_to_point` takes id and vector out of the payload. */
  datatype Point = Point(payload: Entity, vector: seq<Value>)

  type Points = map<string, Point>
  type Models = map<string, Entity>

  /** `_point_to_model` puts them back, over whatever the payload says. */
  function AsModel(id: string, point: Point): Entity {
    point.payload["id" := Text(id)]["vector" := Many(point.vector)]
  }

  function AsModels(points: Points): Models {
    map id | id in points :: AsModel(id, points[id])
  }

  /** What the client and server fix: `str`, and full-text match. */
  datatype Backend = Backend(text: Value -> string, search: (Value, string) -> bool)

  datatype Selector = ById(ids: set<string>) | ByFilter(filter: Filter)

  /** `_points_selector` */
  function SelectorFor(k: Backend, ids: set<string>, extra: seq<FieldFilter>): Selector {
    if extra == [] then ById(ids) else ByFilter(AddConditions(k.text, extra, Filter([HasId(ids)], [])))
  }

  predicate Selected(k: Backend, s: Selector, id: string, payload: Entity) {
    match s
    case ById(ids) => id in ids
    case ByFilter(f) => Selects(k.search, id, payload, f)
  }

  function Changed(point: Point, changes: Entity): Point { point.(payload := point.payload + changes) }

  function SetPayload(k: Backend, points: Points, s: Selector, changes: Entity): Points {
    map id | id in points :: if Selected(k, s, id, points[id].payload) then Changed(points[id], changes) else points[id]
  }

  function Remove(k: Backend, points: Points, s: Selector): Points {
    map id | id in points && !Selected(k, s, id, points[id].payload) :: points[id]
  }

  datatype WriteError = RecordNotFound | EvaluatorRaised

  /** What the evaluator says of criteria that may be absent; None if it raises. */
  function Verdict(k: Backend, e: Entity, extra: seq<FieldFilter>): Option<bool> {
    if extra == [] then Some(true) else Matches(k.text, e, extra)
  }

  /** The reply for an entity read back. */
  function Rechecked(k: Backend, e: Entity, extra: seq<FieldFilter>): Result<Entity, WriteError> {
    match Verdict(k, e, extra)
    case None => Err(EvaluatorRaised)
    case Some(accepted) => if accepted then Ok(e) else Err(RecordNotFound)
  }

  function Update(k: Backend, points: Points, id: string, changes: Entity, extra: seq<FieldFilter>): (Points, Result<Entity, WriteError>) {
    var after := SetPayload(k, points, SelectorFor(k, {id}, extra), changes);
    (after, if id !in after then Err(RecordNotFound) else Rechecked(k, AsModel(id, after[id]), extra))
  }

  function Delete(k: Backend, points: Points, id: string, extra: seq<FieldFilter>): (Points, Result<bool, WriteError>) {
    if id !in points then (points, Ok(false)) else
    var after := Remove(k, points, SelectorFor(k, {id}, extra));
    (after, Ok(id !in after))
  }

  /** What the retrieve round trip of `bulk_delete` shows: it does not ask for vectors. */
  function Retrieved(id: string, point: Point): Entity { AsModel(id, point.(vector := [])) }

  /** The ids it finds to satisfy the criteria. */
  function OwnedIds(k: Backend, points: Points, ids: seq<string>, extra: seq<FieldFilter>): set<string> {
    set id | id in ids && id in points && Matches(k.text, Retrieved(id, points[id]), extra) == Some(true)
  }

  function BulkDelete(k: Backend, points: Points, ids: seq<string>, extra: seq<FieldFilter>): (Points, Result<nat, WriteError>) {
    if ids == [] then (points, Ok(0))
    else if extra == [] then (Remove(k, points, ById(set id | id in ids)), Ok(|ids|))
    else if exists i :: 0 <= i < |ids| && ids[i] in points && Matches(k.text, Retrieved(ids[i], points[ids[i]]), extra).None? then
      (points, Err(EvaluatorRaised))
    else
      var owned := OwnedIds(k, points, ids, extra);
      (if owned == {} then points else Remove(k, points, SelectorFor(k, owned, extra)), Ok(|owned|))
  }

  // ---------------------------------------------------------------- the reference repository

  function ReferenceUpdate(k: Backend, models: Models, id: string, changes: Entity, extra: seq<FieldFilter>): (Models, Result<Entity, WriteError>) {
    if id !in models then (models, Err(RecordNotFound))
    else if Rechecked(k, models[id], extra).Err? then (models, Rechecked(k, models[id], extra))
    else (models[id := models[id] + changes], Ok(models[id] + changes))
  }

  function ReferenceDelete(k: Backend, models: Models, id: string, extra: seq<FieldFilter>): (Models, Result<bool, WriteError>) {
    if id !in models then (models, Ok(false)) else
    match Verdict(k, models[id], extra)
    case None => (models, Err(EvaluatorRaised))
    case Some(accepted) => if accepted then (models - {id}, Ok(true)) else (models, Ok(false))
  }

  function ReferenceBulkDelete(k: Backend, models: Models, ids: seq<string>, extra: seq<FieldFilter>): (Models, Result<nat, WriteError>) {
    if ids == [] then (models, Ok(0)) else
    var (first, deleted) := ReferenceDelete(k, models, ids[0], extra);
    if deleted.Err? then (first, Err(deleted.error)) else
    var (rest, count) := ReferenceBulkDelete(k, first, ids[1..], extra);
    (rest, if count.Err? then count else Ok(count.value + if deleted.value then 1 else 0))
  }

  // ---------------------------------------------------------------- what a write reaches

  /** The server's filter lets the point through. */
  ghost predicate Reached(k: Backend, points: Points, id: string, extra: seq<FieldFilter>) {
    id in points && PassesAll(k.text, k.search, id, points[id].payload, extra)
  }

  /** The evaluator accepts it as it is read. */
  predicate Accepts(k: Backend, models: Models, id: string, extra: seq<FieldFilter>) {
    id in models && Verdict(k, models[id], extra) == Some(true)
  }

  lemma {:induction false} SelectorMeaning(k: Backend, ids: set<string>, points: Points, extra: seq<FieldFilter>)
    ensures forall id :: id in points ==>
      (Selected(k, SelectorFor(k, ids, extra), id, points[id].payload) <==> id in ids && Reached(k, points, id, extra))
  {
    forall id | id in points
      ensures Selected(k, SelectorFor(k, ids, extra), id, points[id].payload) <==> id in ids && Reached(k, points, id, extra)
    {
      var base := Filter([HasId(ids)], []);
      FilterMeansEach(k.text, k.search, id, points[id].payload, extra, base);
      assert Selects(k.search, id, points[id].payload, base) <==> Holds(k.search, id, points[id].payload, base.must[0]);
    }
  }

  /** A point whose payload holds neither id nor vector, as `create` stores it. */
  predicate Stored(point: Point) { "id" !in point.payload && "vector" !in point.payload }

  /** When the two differ, for a stored point and a single criterion: on a payload field exactly when NE meets null or
      IS_NULL meets a field that is not stored; on `id`, which the server never sees, exactly when NOT_IN lists the id
      or EQ, NE or IN accepts it. On `vector` they never differ. */
  lemma {:induction false} ReachedIff(k: Backend, points: Points, id: string, f: FieldFilter)
    requires id in points && Stored(points[id]) && Expressible(AsModel(id, points[id]), f)
    ensures var p, e := points[id].payload, AsModel(id, points[id]);
      (Reached(k, points, id, [f]) <==> Accepts(k, AsModels(points), id, [f])) <==>
      if f.field == "id" then
        if f.operator.NOT_IN? then Text(id) !in f.value.items
        else !((f.operator.EQ? || f.operator.NE? || f.operator.IN?) && MatchesFilter(k.text, e, f) == Some(true))
      else if f.field == "vector" then true
      else !((f.operator.NE? && Get(p, f.field).Null?) || (f.operator.IS_NULL? && f.field !in p))
  {
    var p, e := points[id].payload, AsModel(id, points[id]);
    PassesExceptInTraps(k.text, k.search, id, p, e, f);
    MatchesOne(k.text, e, f);
    assert PassesAll(k.text, k.search, id, p, [f]) <==> Passes(k.text, k.search, id, p, [f][0]);
  }

  // ---------------------------------------------------------------- theorems

  lemma {:induction false} UpdateWritesReached(k: Backend, points: Points, id: string, changes: Entity, extra: seq<FieldFilter>)
    ensures Update(k, points, id, changes, extra).0
      == if Reached(k, points, id, extra) then points[id := Changed(points[id], changes)] else points
  {
    SelectorMeaning(k, {id}, points, extra);
  }

  lemma {:induction false} AsModelsUpdated(points: Points, id: string, point: Point)
    ensures AsModels(points[id := point]) == AsModels(points)[id := AsModel(id, point)]
  {
  }

  lemma {:induction false} UpdatedAlike(models: Models, id: string, d: Entity, e: Entity)
    ensures models[id := d] == models[id := e] <==> d == e
    ensures id in models ==> (models[id := d] == models <==> d == models[id])
  {
    assert models[id := d][id] == d && models[id := e][id] == e;
    if id in models && d == models[id] {
      assert models[id := d] == models;
    }
  }

  /** `update` goes wrong on a point that is there: reached and accepted, if the criteria reject what was written or
      reading it back hides a new id or vector; accepted only, if the changes would change it; reached only, if they
      do change it as it is read. */
  ghost predicate UpdateGoesWrong(k: Backend, points: Points, id: string, changes: Entity, extra: seq<FieldFilter>)
    requires id in points
  {
    var before, written := AsModel(id, points[id]), AsModel(id, Changed(points[id], changes));
    if Accepts(k, AsModels(points), id, extra) then
      if Reached(k, points, id, extra) then Verdict(k, written, extra) != Some(true) || written != before + changes
      else before + changes != before
    else Reached(k, points, id, extra) && written != before
  }

  /** The same on values: what is read after a write of `written` or none, and what the reference holds. */
  lemma {:induction false} ExactCases(k: Backend, models: Models, id: string, written: Entity, expected: Entity, extra: seq<FieldFilter>, reached: bool)
    requires id in models
    ensures var before := models[id];
      var accepted := Verdict(k, before, extra) == Some(true);
      var reference := if accepted then (models[id := expected], Ok(expected)) else (models, Rechecked(k, before, extra));
      (if reached then models[id := written] else models, Rechecked(k, if reached then written else before, extra)) == reference
      <==> !(if accepted then if reached then Verdict(k, written, extra) != Some(true) || written != expected else expected != before
             else reached && written != before)
  {
    UpdatedAlike(models, id, written, expected);
    UpdatedAlike(models, id, expected, written);
  }

  /** `update` leaves the points, as they are read, and the reply of the reference exactly unless it goes wrong. */
  lemma {:induction false} UpdateIsExactIff(k: Backend, points: Points, id: string, changes: Entity, extra: seq<FieldFilter>)
    ensures var (after, result), (expected, reference) :=
        Update(k, points, id, changes, extra), ReferenceUpdate(k, AsModels(points), id, changes, extra);
      AsModels(after) == expected && result == reference <==> !(id in points && UpdateGoesWrong(k, points, id, changes, extra))
  {
    UpdateWritesReached(k, points, id, changes, extra);
    if id in points {
      var written := AsModel(id, Changed(points[id], changes));
      AsModelsUpdated(points, id, Changed(points[id], changes));
      ExactCases(k, AsModels(points), id, written, AsModel(id, points[id]) + changes, extra, Reached(k, points, id, extra));
    }
  }

  /** Changes hide behind the stored id or vector exactly when they name one of them with another value. */
  lemma {:induction false} HiddenIff(id: string, point: Point, changes: Entity)
    ensures AsModel(id, Changed(point, changes)) == AsModel(id, point) + changes
      <==> ("id" in changes ==> changes["id"] == Text(id)) && ("vector" in changes ==> changes["vector"] == Many(point.vector))
  {
    var written, expected := AsModel(id, Changed(point, changes)), AsModel(id, point) + changes;
    assert written["id"] == Text(id) && written["vector"] == Many(point.vector);
    if written == expected {
      assert expected["id"] == Text(id) && expected["vector"] == Many(point.vector);
    } else {
      assert forall key :: key != "id" && key != "vector" ==> (key in written <==> key in expected);
      assert forall key :: key != "id" && key != "vector" && key in written ==> written[key] == expected[key];
    }
  }

  lemma {:induction false} FirstAccepts(k: Backend, e: Entity, first: FieldFilter, more: seq<FieldFilter>)
    ensures MatchesFilter(k.text, e, first) == Some(true) ==> Verdict(k, e, [first] + more) == Verdict(k, e, more)
    ensures Verdict(k, e, [first] + more) == Some(true) ==> MatchesFilter(k.text, e, first) == Some(true)
  {
    assert ([first] + more)[0] == first && ([first] + more)[1..] == more;
  }

  lemma {:induction false} FirstPasses(k: Backend, points: Points, id: string, first: FieldFilter, more: seq<FieldFilter>)
    requires id in points
    ensures Reached(k, points, id, [first] + more)
      <==> Passes(k.text, k.search, id, points[id].payload, first) && Reached(k, points, id, more)
  {
    var all := [first] + more;
    assert all[0] == first && forall i :: 0 <= i < |more| ==> all[i + 1] == more[i];
    assert forall i :: 0 < i < |all| ==> all[i] == more[i - 1];
  }

  /** In a tenant's scope the tenant filter itself never goes wrong: the tenant guard lets no change alter `tenant_id`.
      Only the caller's further criteria can; without any, and with id and vector left alone, `update` is exact and
      succeeds on the tenant's points. */
  lemma {:induction false} TenantGuardKeepsUpdateExact(k: Backend, points: Points, id: string, changes: Entity, tenant: string, more: seq<FieldFilter>)
    requires "tenant_id" in changes ==> changes["tenant_id"] == Text(tenant)
    ensures var extra := [FieldFilter("tenant_id", EQ, Text(tenant))] + more;
      var (after, result), (expected, reference) :=
        Update(k, points, id, changes, extra), ReferenceUpdate(k, AsModels(points), id, changes, extra);
      && (AsModels(after) == expected && result == reference <==>
            !(id in points && Get(points[id].payload, "tenant_id") == Text(tenant) && UpdateGoesWrong(k, points, id, changes, more)))
      && (more == [] ==> (result.Ok? <==> id in points && Get(points[id].payload, "tenant_id") == Text(tenant)))
  {
    var own := FieldFilter("tenant_id", EQ, Text(tenant));
    var extra := [own] + more;
    UpdateIsExactIff(k, points, id, changes, extra);
    UpdateWritesReached(k, points, id, changes, extra);
    if id in points {
      var before, written := AsModel(id, points[id]), AsModel(id, Changed(points[id], changes));
      FirstPasses(k, points, id, own, more);
      FirstAccepts(k, before, own, more);
      FirstAccepts(k, written, own, more);
      assert MatchesFilter(k.text, before, own) == Some(true) <==> Get(points[id].payload, "tenant_id") == Text(tenant);
      assert Passes(k.text, k.search, id, points[id].payload, own) <==> Get(points[id].payload, "tenant_id") == Text(tenant);
      if Get(points[id].payload, "tenant_id") == Text(tenant) {
        assert MatchesFilter(k.text, written, own) == Some(true);
      } else {
        assert !Reached(k, points, id, extra) && !Accepts(k, AsModels(points), id, extra);
        assert Update(k, points, id, changes, extra).1.Err?;
      }
    }
  }

  /** A change that breaks its own criterion: the point is written and then reported missing. */
  lemma {:induction false} SelfDefeatingUpdateIsReportedMissing(k: Backend)
    ensures var points: Points := map["p" := Point(map["version" := Num(1)], [])];
      Update(k, points, "p", map["version" := Num(2)], [FieldFilter("version", EQ, Num(1))])
      == (map["p" := Point(map["version" := Num(2)], [])], Err(RecordNotFound))
  {
    var points: Points := map["p" := Point(map["version" := Num(1)], [])];
    var f := FieldFilter("version", EQ, Num(1));
    var changes: Entity := map["version" := Num(2)];
    assert points["p"].payload + changes == changes;
    UpdateOnOne(k, points, "p", changes, f);
    assert points["p" := Point(changes, [])] == map["p" := Point(changes, [])];
  }

  /** An update under one criterion. */
  lemma {:induction false} UpdateOnOne(k: Backend, points: Points, id: string, changes: Entity, f: FieldFilter)
    requires id in points
    ensures var after := if Passes(k.text, k.search, id, points[id].payload, f) then Changed(points[id], changes) else points[id];
      Update(k, points, id, changes, [f]) == (points[id := after],
        match MatchesFilter(k.text, AsModel(id, after), f)
        case None => Err(EvaluatorRaised)
        case Some(accepted) => if accepted then Ok(AsModel(id, after)) else Err(RecordNotFound))
  {
    UpdateWritesReached(k, points, id, changes, [f]);
    MatchesOne(k.text, AsModel(id, points[id]), f);
    MatchesOne(k.text, AsModel(id, Changed(points[id], changes)), f);
    assert PassesAll(k.text, k.search, id, points[id].payload, [f]) <==> Passes(k.text, k.search, id, points[id].payload, [f][0]);
    assert points[id := points[id]] == points;
  }

  const OWNED_BY_NOBODY: Points := map["p" := Point(map["owner" := Null], [])]

  const NOT_OWNED_BY_X := FieldFilter("owner", NE, Text("x"))

  /** Where NE meets a null field the server writes nothing and the recheck still reports success. */
  lemma {:induction false} NeOnNullReportsAWriteThatDidNotHappen(k: Backend)
    ensures Update(k, OWNED_BY_NOBODY, "p", map["n" := Num(1)], [NOT_OWNED_BY_X])
      == (OWNED_BY_NOBODY, Ok(AsModel("p", OWNED_BY_NOBODY["p"])))
  {
    UpdateOnOne(k, OWNED_BY_NOBODY, "p", map["n" := Num(1)], NOT_OWNED_BY_X);
    assert OWNED_BY_NOBODY["p" := OWNED_BY_NOBODY["p"]] == OWNED_BY_NOBODY;
  }

  const EMPTY_POINT: Points := map["p" := Point(map[], [])]

  /** Under an EQ criterion on the id, which the payload does not hold, nothing is written and success is reported;
      under NOT_IN the point is written although the criterion rejects it, and reported missing. */
  lemma {:induction false} CriteriaOnTheIdGoWrong(k: Backend)
    ensures Update(k, EMPTY_POINT, "p", map["n" := Num(1)], [FieldFilter("id", EQ, Text("p"))])
      == (EMPTY_POINT, Ok(AsModel("p", EMPTY_POINT["p"])))
    ensures Update(k, EMPTY_POINT, "p", map["n" := Num(1)], [FieldFilter("id", NOT_IN, Many([Text("p")]))])
      == (map["p" := Point(map["n" := Num(1)], [])], Err(RecordNotFound))
  {
    var changes: Entity := map["n" := Num(1)];
    var listed := FieldFilter("id", NOT_IN, Many([Text("p")]));
    assert EMPTY_POINT["p"].payload + changes == changes;
    assert listed.value.items[0] == Text("p");
    UpdateOnOne(k, EMPTY_POINT, "p", changes, FieldFilter("id", EQ, Text("p")));
    UpdateOnOne(k, EMPTY_POINT, "p", changes, listed);
    assert EMPTY_POINT["p" := EMPTY_POINT["p"]] == EMPTY_POINT;
    assert EMPTY_POINT["p" := Point(changes, [])] == map["p" := Point(changes, [])];
  }

  /** `update` with a new vector reports success and the old vector. */
  lemma {:induction false} NewVectorIsNotStored(k: Backend)
    ensures var changes: Entity := map["vector" := Many([Num(1)])];
      Update(k, EMPTY_POINT, "p", changes, []).1 == Ok(AsModel("p", EMPTY_POINT["p"]))
      && ReferenceUpdate(k, AsModels(EMPTY_POINT), "p", changes, []).1 == Ok(AsModel("p", Point(map[], [Num(1)])))
  {
    var changes: Entity := map["vector" := Many([Num(1)])];
    UpdateWritesReached(k, EMPTY_POINT, "p", changes, []);
    assert AsModel("p", Changed(EMPTY_POINT["p"], changes)) == AsModel("p", EMPTY_POINT["p"]);
    assert AsModel("p", EMPTY_POINT["p"]) + changes == AsModel("p", Point(map[], [Num(1)]));
  }

  lemma {:induction false} DeleteRemovesReached(k: Backend, points: Points, id: string, extra: seq<FieldFilter>)
    ensures Delete(k, points, id, extra)
      == if Reached(k, points, id, extra) then (points - {id}, Ok(true)) else (points, Ok(false))
  {
    SelectorMeaning(k, {id}, points, extra);
    if id in points {
      assert Delete(k, points, id, extra).0 == if Reached(k, points, id, extra) then points - {id} else points;
    }
  }

  lemma {:induction false} AsModelsRemoved(points: Points, ids: set<string>)
    ensures AsModels(points - ids) == AsModels(points) - ids
  {
  }

  lemma {:induction false} RemovedAlike(models: Models, id: string)
    requires id in models
    ensures models - {id} != models
  {
    assert id !in models - {id};
  }

  /** `delete` removes exactly the point that is reached and says truthfully whether it did; that is what the reference
      does exactly when the evaluator gives the same answer as the server's filter. */
  lemma {:induction false} DeleteRefinesReference(k: Backend, points: Points, id: string, extra: seq<FieldFilter>)
    ensures Delete(k, points, id, extra)
      == if Reached(k, points, id, extra) then (points - {id}, Ok(true)) else (points, Ok(false))
    ensures var (after, result), (expected, reference) := Delete(k, points, id, extra), ReferenceDelete(k, AsModels(points), id, extra);
      AsModels(after) == expected && result == reference
      <==> (id in points ==> Verdict(k, AsModel(id, points[id]), extra) == Some(Reached(k, points, id, extra)))
  {
    DeleteRemovesReached(k, points, id, extra);
    AsModelsRemoved(points, {id});
    if id in points {
      RemovedAlike(AsModels(points), id);
    }
  }

  /** Criteria on which the evaluator raises: `update` raises after whatever it wrote, `delete` never does, and a scoped
      `bulk_delete` raises before it removes anything. */
  lemma {:induction false} RaisingCriteria(k: Backend, points: Points, id: string, changes: Entity, extra: seq<FieldFilter>)
    requires id in points
    ensures var (after, result) := Update(k, points, id, changes, extra);
      result == Err(EvaluatorRaised) <==> extra != [] && Matches(k.text, AsModel(id, after[id]), extra) == None
    ensures Delete(k, points, id, extra).1.Ok?
    ensures forall ids :: id in ids && extra != [] && Matches(k.text, Retrieved(id, points[id]), extra) == None ==>
      BulkDelete(k, points, ids, extra) == (points, Err(EvaluatorRaised))
  {
    forall ids: seq<string> | id in ids && extra != [] && Matches(k.text, Retrieved(id, points[id]), extra) == None
      ensures BulkDelete(k, points, ids, extra) == (points, Err(EvaluatorRaised))
    {
      var i :| 0 <= i < |ids| && ids[i] == id;
      assert ids[i] in points;
    }
  }

  function Hits(k: Backend, models: Models, ids: seq<string>, extra: seq<FieldFilter>): set<string> {
    set id | id in ids && Accepts(k, models, id, extra)
  }

  /** No criterion raises on a targeted entity. */
  predicate NeverRaises(k: Backend, models: Models, ids: seq<string>, extra: seq<FieldFilter>) {
    forall i :: 0 <= i < |ids| && ids[i] in models ==> Verdict(k, models[ids[i]], extra).Some?
  }

  lemma {:induction false} HitsFirst(k: Backend, models: Models, ids: seq<string>, extra: seq<FieldFilter>)
    requires ids != [] && NeverRaises(k, models, ids, extra)
    ensures var first := ReferenceDelete(k, models, ids[0], extra).0;
      var rest := Hits(k, first, ids[1..], extra);
      && NeverRaises(k, first, ids[1..], extra)
      && if Accepts(k, models, ids[0], extra) then Hits(k, models, ids, extra) == rest + {ids[0]} && ids[0] !in rest
         else Hits(k, models, ids, extra) == rest
  {
    assert forall i :: 0 <= i < |ids| - 1 ==> ids[1..][i] == ids[i + 1];
    assert forall id :: id in ids <==> id == ids[0] || id in ids[1..];
  }

  lemma {:induction false} RemovedOneMore(models: Models, id: string, rest: set<string>)
    requires id !in rest
    ensures (models - {id}) - rest == models - (rest + {id}) && |rest + {id}| == |rest| + 1
  {
  }

  lemma {:induction false} BulkStep(k: Backend, models: Models, ids: seq<string>, extra: seq<FieldFilter>, first: Models, rest: set<string>)
    requires ids != [] && (ids[0] in models ==> Verdict(k, models[ids[0]], extra).Some?)
    requires first == ReferenceDelete(k, models, ids[0], extra).0
    requires ReferenceBulkDelete(k, first, ids[1..], extra) == (first - rest, Ok(|rest|)) && ids[0] !in rest
    ensures ReferenceBulkDelete(k, models, ids, extra)
      == if Accepts(k, models, ids[0], extra) then (models - (rest + {ids[0]}), Ok(|rest| + 1)) else (models - rest, Ok(|rest|))
  {
    RemovedOneMore(models, ids[0], rest);
  }

  /** The reference removes the accepted entities and counts each once. */
  lemma {:induction false} ReferenceBulkMeaning(k: Backend, models: Models, ids: seq<string>, extra: seq<FieldFilter>)
    requires NeverRaises(k, models, ids, extra)
    ensures var hit := Hits(k, models, ids, extra);
      ReferenceBulkDelete(k, models, ids, extra) == (models - hit, Ok(|hit|))
  {
    var hit := Hits(k, models, ids, extra);
    if ids != [] {
      var first := ReferenceDelete(k, models, ids[0], extra).0;
      HitsFirst(k, models, ids, extra);
      ReferenceBulkMeaning(k, first, ids[1..], extra);
      BulkStep(k, models, ids, extra, first, Hits(k, first, ids[1..], extra));
    } else {
      assert hit == {};
      assert models - hit == models;
    }
  }

  /** The points as the retrieve of `bulk_delete` shows them. */
  function RetrievedModels(points: Points): Models { map id | id in points :: Retrieved(id, points[id]) }

  /** The retrieved points the criteria accept and the server's filter reaches. */
  ghost function ReachedHits(k: Backend, points: Points, ids: seq<string>, extra: seq<FieldFilter>): set<string> {
    set id | id in Hits(k, RetrievedModels(points), ids, extra) && Reached(k, points, id, extra)
  }

  lemma {:induction false} ScopedBulkDeleteMeaning(k: Backend, points: Points, ids: seq<string>, extra: seq<FieldFilter>)
    requires extra != [] && NeverRaises(k, RetrievedModels(points), ids, extra)
    ensures BulkDelete(k, points, ids, extra)
      == (points - ReachedHits(k, points, ids, extra), Ok(|Hits(k, RetrievedModels(points), ids, extra)|))
  {
    var owned, hit := OwnedIds(k, points, ids, extra), Hits(k, RetrievedModels(points), ids, extra);
    assert owned == hit;
    SelectorMeaning(k, owned, points, extra);
    if ids == [] || owned == {} {
      assert hit == {} && points - ReachedHits(k, points, ids, extra) == points;
    } else {
      assert Remove(k, points, SelectorFor(k, owned, extra)) == points - ReachedHits(k, points, ids, extra);
    }
  }

  /** Scoped `bulk_delete` removes the points that are retrieved as accepted and reached, and counts the accepted ones,
      repeated and missing ids included. That is what the reference removes and counts exactly when each targeted point
      is accepted without its vector if and only if with it, and is reached if it is accepted. */
  lemma {:induction false} ScopedBulkDeleteRefinesReference(k: Backend, points: Points, ids: seq<string>, extra: seq<FieldFilter>)
    requires extra != [] && NeverRaises(k, RetrievedModels(points), ids, extra) && NeverRaises(k, AsModels(points), ids, extra)
    ensures BulkDelete(k, points, ids, extra)
      == (points - ReachedHits(k, points, ids, extra), Ok(|Hits(k, RetrievedModels(points), ids, extra)|))
    ensures var (after, count), (expected, reference) :=
        BulkDelete(k, points, ids, extra), ReferenceBulkDelete(k, AsModels(points), ids, extra);
      AsModels(after) == expected && count == reference
      <==> forall id :: id in ids && id in points ==> DeletesAlike(k, points, id, extra)
  {
    ReferenceBulkMeaning(k, AsModels(points), ids, extra);
    ScopedBulkDeleteMeaning(k, points, ids, extra);
    var reached, hit := ReachedHits(k, points, ids, extra), Hits(k, AsModels(points), ids, extra);
    var retrieved := Hits(k, RetrievedModels(points), ids, extra);
    AsModelsRemoved(points, reached);
    SameRemoval(AsModels(points), reached, hit);
    SameSize(reached, retrieved);
    AlikeIff(k, points, ids, extra);
  }

  ghost predicate DeletesAlike(k: Backend, points: Points, id: string, extra: seq<FieldFilter>) {
    && (Accepts(k, RetrievedModels(points), id, extra) <==> Accepts(k, AsModels(points), id, extra))
    && (Accepts(k, AsModels(points), id, extra) ==> Reached(k, points, id, extra))
  }

  lemma {:induction false} AlikeIff(k: Backend, points: Points, ids: seq<string>, extra: seq<FieldFilter>)
    ensures (forall id :: id in ids && id in points ==> DeletesAlike(k, points, id, extra))
      <==> ReachedHits(k, points, ids, extra) == Hits(k, AsModels(points), ids, extra) == Hits(k, RetrievedModels(points), ids, extra)
  {
    var reached, hit, retrieved :=
      ReachedHits(k, points, ids, extra), Hits(k, AsModels(points), ids, extra), Hits(k, RetrievedModels(points), ids, extra);
    if reached == hit == retrieved {
      forall id | id in ids && id in points ensures DeletesAlike(k, points, id, extra) {
        assert id in retrieved <==> id in hit;
        assert id in hit ==> id in reached;
      }
    }
    if forall id :: id in ids && id in points ==> DeletesAlike(k, points, id, extra) {
      forall id ensures (id in retrieved <==> id in hit) && (id in reached <==> id in hit) {
        assert id in ids && id in points ==> DeletesAlike(k, points, id, extra);
      }
    }
  }

  lemma {:induction false} SameRemoval(models: Models, a: set<string>, b: set<string>)
    requires a <= models.Keys && b <= models.Keys
    ensures models - a == models - b <==> a == b
  {
    if models - a == models - b {
      forall id | id in models ensures id in a <==> id in b {
        assert id in models - a <==> id in models - b;
      }
    }
  }

  lemma {:induction false} SameSize(a: set<string>, b: set<string>)
    requires a <= b
    ensures |a| == |b| <==> a == b
  {
    assert b == a + (b - a) && |b| == |a| + |b - a|;
  }

  /** An accepted point that is not reached stays, and `bulk_delete` counts it as removed: where NE meets a null field,
      and under a criterion on the id. */
  lemma {:induction false} BulkDeleteCountsADeleteThatDidNotHappen(k: Backend)
    ensures BulkDelete(k, OWNED_BY_NOBODY, ["p"], [NOT_OWNED_BY_X]) == (OWNED_BY_NOBODY, Ok(1))
    ensures Delete(k, OWNED_BY_NOBODY, "p", [NOT_OWNED_BY_X]) == (OWNED_BY_NOBODY, Ok(false))
    ensures ReferenceDelete(k, AsModels(OWNED_BY_NOBODY), "p", [NOT_OWNED_BY_X]) == (map[], Ok(true))
    ensures BulkDelete(k, EMPTY_POINT, ["p"], [FieldFilter("id", EQ, Text("p"))]) == (EMPTY_POINT, Ok(1))
  {
    NotReachedOne(k, OWNED_BY_NOBODY, NOT_OWNED_BY_X);
    NotReachedOne(k, EMPTY_POINT, FieldFilter("id", EQ, Text("p")));
    assert AsModels(OWNED_BY_NOBODY) - {"p"} == map[];
  }

  lemma {:induction false} NotReachedOne(k: Backend, points: Points, f: FieldFilter)
    requires points.Keys == {"p"} && !Passes(k.text, k.search, "p", points["p"].payload, f)
    requires MatchesFilter(k.text, Retrieved("p", points["p"]), f) == Some(true)
    ensures BulkDelete(k, points, ["p"], [f]) == (points, Ok(1))
    ensures Delete(k, points, "p", [f]) == (points, Ok(false))
  {
    assert !Reached(k, points, "p", [f]) by { assert !Passes(k.text, k.search, "p", points["p"].payload, [f][0]); }
    var retrieved := RetrievedModels(points);
    MatchesOne(k.text, retrieved["p"], f);
    assert [f] != [] && Verdict(k, retrieved["p"], [f]) == Some(true);
    ScopedBulkDeleteMeaning(k, points, ["p"], [f]);
    assert Hits(k, retrieved, ["p"], [f]) == {"p"};
    assert points - ReachedHits(k, points, ["p"], [f]) == points;
    DeleteRefinesReference(k, points, "p", [f]);
  }

  /** Unscoped `bulk_delete` removes the same points but counts the ids it was given, which is the reference's count
      exactly when every id is present and none is repeated. */
  lemma {:induction false} UnscopedBulkDeleteCountsIff(k: Backend, points: Points, ids: seq<string>)
    ensures var (after, count), (expected, reference) := BulkDelete(k, points, ids, []), ReferenceBulkDelete(k, AsModels(points), ids, []);
      && AsModels(after) == expected
      && (count == reference <==>
            (forall i :: 0 <= i < |ids| ==> ids[i] in points) && (forall i, j :: 0 <= i < j < |ids| ==> ids[i] != ids[j]))
  {
    ReferenceBulkMeaning(k, AsModels(points), ids, []);
    var hit := Hits(k, AsModels(points), ids, []);
    assert BulkDelete(k, points, ids, []).0 == points - hit;
    AsModelsRemoved(points, hit);
    DistinctCount(points.Keys, ids);
    assert hit == Present(points.Keys, ids);
  }

  function Present(present: set<string>, ids: seq<string>): set<string> { set id | id in ids && id in present }

  lemma {:induction false} DistinctCount(present: set<string>, ids: seq<string>)
    ensures |Present(present, ids)| <= |ids|
    ensures |Present(present, ids)| == |ids| <==>
      (forall i :: 0 <= i < |ids| ==> ids[i] in present) && (forall i, j :: 0 <= i < j < |ids| ==> ids[i] != ids[j])
  {
    if ids != [] {
      var n := |ids| - 1;
      DistinctCount(present, ids[..n]);
      SplitLastId(ids, n);
      LastCounts(present, ids, n);
      assert (forall i :: 0 <= i < n + 1 ==> ids[i] in present)
        <==> (forall i :: 0 <= i < n ==> ids[..n][i] in present) && ids[n] in present;
    }
  }

  lemma {:induction false} LastCounts(present: set<string>, ids: seq<string>, n: nat)
    requires |ids| == n + 1
    ensures |Present(present, ids)|
      == |Present(present, ids[..n])| + if ids[n] in present && ids[n] !in ids[..n] then 1 else 0
  {
    var before, all := Present(present, ids[..n]), Present(present, ids);
    SplitLastId(ids, n);
    if ids[n] in present && ids[n] !in ids[..n] {
      assert ids[n] !in before;
      assert all == before + {ids[n]};
    } else {
      assert all == before;
    }
  }

  lemma {:induction false} SplitLastId(ids: seq<string>, n: nat)
    requires |ids| == n + 1
    ensures forall id :: id in ids <==> id in ids[..n] || id == ids[n]
    ensures (forall i, j :: 0 <= i < j < n + 1 ==> ids[i] != ids[j])
      <==> (forall i, j :: 0 <= i < j < n ==> ids[..n][i] != ids[..n][j]) && ids[n] !in ids[..n]
  {
  }
}

/** The repository object over a collection it changes. */
module VectorRepositories {
  import opened Wrappers
  import opened Criteria
  import opened VectorWrites

  class QdrantRepository {
    const backend: Backend
    var points: Points

    constructor (backend: Backend)
      ensures this.backend == backend && points == map[]
    {
      this.backend, points := backend, map[];
    }

    method GetById(id: string) returns (r: Option<Entity>)
      ensures r == if id in points then Some(AsModel(id, points[id])) else None
    {
      r := if id in points then Some(AsModel(id, points[id])) else None;
    }

    method Update(id: string, changes: Entity, extra: seq<FieldFilter>) returns (r: Result<Entity, WriteError>)
      modifies this
      ensures (points, r) == VectorWrites.Update(backend, old(points), id, changes, extra)
    {
      points := SetPayload(backend, points, SelectorFor(backend, {id}, extra), changes);
      var updated := GetById(id);
      if updated.None? {
        return Err(RecordNotFound);
      }
      if extra != [] {
        var accepted := Matches(backend.text, updated.value, extra);
        if accepted.None? {
          return Err(EvaluatorRaised);
        }
        if !accepted.value {
          return Err(RecordNotFound);
        }
      }
      return Ok(updated.value);
    }

    method Delete(id: string, extra: seq<FieldFilter>) returns (deleted: bool)
      modifies this
      ensures (points, Ok(deleted)) == VectorWrites.Delete(backend, old(points), id, extra)
    {
      var existing := GetById(id);
      if existing.None? {
        return false;
      }
      points := Remove(backend, points, SelectorFor(backend, {id}, extra));
      var left := GetById(id);
      deleted := left.None?;
    }

    lemma {:induction false} OneMoreOwned(ids: seq<string>, extra: seq<FieldFilter>, i: nat)
      requires i < |ids|
      ensures OwnedIds(backend, points, ids[..i + 1], extra) == OwnedIds(backend, points, ids[..i], extra)
        + if ids[i] in points && Matches(backend.text, Retrieved(ids[i], points[ids[i]]), extra) == Some(true) then {ids[i]} else {}
    {
      assert ids[..i + 1] == ids[..i] + [ids[i]];
    }

    /** The retrieve round trip of a scoped `bulk_delete`. */
    method Owned(ids: seq<string>, extra: seq<FieldFilter>) returns (owned: Result<set<string>, WriteError>)
      ensures owned.Err? <==>
        exists i :: 0 <= i < |ids| && ids[i] in points && Matches(backend.text, Retrieved(ids[i], points[ids[i]]), extra).None?
      ensures owned == if owned.Err? then Err(EvaluatorRaised) else Ok(OwnedIds(backend, points, ids, extra))
    {
      var found := {};
      var i := 0;
      while i < |ids|
        invariant 0 <= i <= |ids|
        invariant found == OwnedIds(backend, points, ids[..i], extra)
        invariant forall j :: 0 <= j < i && ids[j] in points ==>
          Matches(backend.text, Retrieved(ids[j], points[ids[j]]), extra).Some?
      {
        if ids[i] in points {
          var accepted := Matches(backend.text, Retrieved(ids[i], points[ids[i]]), extra);
          if accepted.None? {
            return Err(EvaluatorRaised);
          }
          if accepted.value {
            found := found + {ids[i]};
          }
        }
        OneMoreOwned(ids, extra, i);
        i := i + 1;
      }
      assert ids[..i] == ids;
      return Ok(found);
    }

    method BulkDelete(ids: seq<string>, extra: seq<FieldFilter>) returns (count: Result<nat, WriteError>)
      modifies this
      ensures (points, count) == VectorWrites.BulkDelete(backend, old(points), ids, extra)
    {
      if ids == [] {
        return Ok(0);
      }
      if extra == [] {
        points := Remove(backend, points, ById(set id | id in ids));
        return Ok(|ids|);
      }
      var owned := Owned(ids, extra);
      if owned.Err? {
        return Err(owned.error);
      }
      if owned.value != {} {
        points := Remove(backend, points, SelectorFor(backend, owned.value, extra));
      }
      return Ok(|owned.value|);
    }
  }
}
