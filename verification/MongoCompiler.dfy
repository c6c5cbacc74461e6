/** Filters compiled to a MongoDB query document. A clause is a `Value`, as in the program: a `Mapping` is a dict. */
module MongoCompiler {
  import opened Wrappers
  import opened Criteria

  /** The query document, or `{"$and": parts}`. */
  datatype Query = Flat(fields: map<string, Value>) | And(parts: seq<map<string, Value>>)

  /** The operator a filter's clause uses. */
  function OperatorOf(f: FieldFilter): string {
    match f.operator
    case EQ => "$eq" case IS_NULL => "$ne" case CONTAINS => "$regex" case NE => "$ne" case GT => "$gt" case GTE => "$gte"
    case LT => "$lt" case LTE => "$lte" case IN => "$in" case NOT_IN => "$nin"
  }

  /** `_clause_for_filter`; `pattern` is `re.escape(str(value))`. */
  function ClauseFor(pattern: Value -> string, f: FieldFilter): Value {
    match f.operator
    case EQ => f.value
    case IS_NULL => if Truthy(f.value) then Null else Mapping(map["$ne" := Null])
    case CONTAINS => Mapping(map["$regex" := Text(pattern(f.value))])
    case _ => Mapping(map[OperatorOf(f) := f.value])
  }

  predicate Mergeable(existing: Value, clause: Value) {
    existing.Mapping? && clause.Mapping? && existing.fields.Keys !! clause.fields.Keys
  }

  datatype Partial = Partial(query: map<string, Value>, extras: seq<map<string, Value>>)

  /** One turn of the loop. */
  function AddClause(p: Partial, field: string, clause: Value): Partial {
    if field !in p.query then p.(query := p.query[field := clause])
    else if Mergeable(p.query[field], clause) then
      p.(query := p.query[field := Mapping(p.query[field].fields + clause.fields)])
    else p.(extras := p.extras + [map[field := clause]])
  }

  function AddAll(pattern: Value -> string, filters: seq<FieldFilter>): Partial {
    if filters == [] then Partial(map[], []) else
    var last := filters[|filters| - 1];
    AddClause(AddAll(pattern, filters[..|filters| - 1]), last.field, ClauseFor(pattern, last))
  }

  function Finish(p: Partial): Query {
    if p.extras != [] then And(if p.query != map[] then [p.query] + p.extras else p.extras) else Flat(p.query)
  }

  function Compile(pattern: Value -> string, filters: seq<FieldFilter>): Query {
    Finish(AddAll(pattern, filters))
  }

  /** `_criteria_to_query` */
  method CriteriaToQuery(pattern: Value -> string, criteria: CriteriaArgument) returns (r: Query)
    ensures r == Compile(pattern, Normalize(criteria))
  {
    var filters := Normalize(criteria);
    var query: map<string, Value> := map[];
    var extraClauses: seq<map<string, Value>> := [];
    var i := 0;
    while i < |filters|
      invariant 0 <= i <= |filters|
      invariant Partial(query, extraClauses) == AddAll(pattern, filters[..i])
    {
      var filt := filters[i];
      var clause := ClauseFor(pattern, filt);
      if filt.field !in query {
        query := query[filt.field := clause];
      } else if Mergeable(query[filt.field], clause) {
        query := query[filt.field := Mapping(query[filt.field].fields + clause.fields)];
      } else {
        extraClauses := extraClauses + [map[filt.field := clause]];
      }
      i := i + 1;
      assert filters[..i][..i - 1] == filters[..i - 1];
    }
    assert filters[..i] == filters;
    if extraClauses != [] {
      return And(if query != map[] then [query] + extraClauses else extraClauses);
    }
    return Flat(query);
  }

  // ---------------------------------------------------------------- meaning

  /** How the server reads one operator applied to a field: (operator, field value, operand). */
  type Semantics = (string, Value, Value) -> bool

  predicate OperatorDocument(m: map<string, Value>) {
    m != map[] && forall key :: key in m ==> |key| > 0 && key[0] == '$'
  }

  /** A dict of operators asks for all of them; anything else asks for equality. */
  predicate ClauseHolds(sem: Semantics, actual: Value, clause: Value) {
    if clause.Mapping? && OperatorDocument(clause.fields) then
      forall op :: op in clause.fields ==> sem(op, actual, clause.fields[op])
    else actual == clause
  }

  predicate DocumentHolds(sem: Semantics, e: Entity, fields: map<string, Value>) {
    forall field :: field in fields ==> ClauseHolds(sem, Get(e, field), fields[field])
  }

  predicate QueryHolds(sem: Semantics, e: Entity, q: Query) {
    match q
    case Flat(fields) => DocumentHolds(sem, e, fields)
    case And(parts) => forall i :: 0 <= i < |parts| ==> DocumentHolds(sem, e, parts[i])
  }

  predicate FilterHolds(pattern: Value -> string, sem: Semantics, e: Entity, f: FieldFilter) {
    ClauseHolds(sem, Get(e, f.field), ClauseFor(pattern, f))
  }

  /** EQ values that are dicts would be read as operators or merged into them. */
  predicate NoPlainMappings(filters: seq<FieldFilter>) {
    forall i :: 0 <= i < |filters| && filters[i].operator.EQ? && filters[i].value.Mapping?
      ==> OperatorDocument(filters[i].value.fields)
  }

  predicate PartialHolds(sem: Semantics, e: Entity, p: Partial) {
    DocumentHolds(sem, e, p.query) && forall i :: 0 <= i < |p.extras| ==> DocumentHolds(sem, e, p.extras[i])
  }

  /** Both are operator documents, or both are empty. */
  predicate Alike(m: map<string, Value>, n: map<string, Value>) {
    (OperatorDocument(m) && OperatorDocument(n)) || (m == map[] && n == map[])
  }

  /** Adding the clause merges it into one like it, or into none. */
  predicate GoodMerge(p: Partial, field: string, clause: Value) {
    field in p.query && Mergeable(p.query[field], clause) ==> Alike(p.query[field].fields, clause.fields)
  }

  /** Each merge the loop makes is of that kind. */
  predicate GoodMerges(pattern: Value -> string, filters: seq<FieldFilter>) {
    filters == [] ||
    var n := |filters| - 1;
    GoodMerges(pattern, filters[..n])
    && GoodMerge(AddAll(pattern, filters[..n]), filters[n].field, ClauseFor(pattern, filters[n]))
  }

  /** Merging two dicts means their conjunction, for every field value and every reading of the operators, exactly when
      both are operator documents or both are empty. */
  lemma {:induction false} MergeMeansBothIff(m: map<string, Value>, n: map<string, Value>)
    requires m.Keys !! n.Keys
    ensures (forall sem: Semantics, actual: Value ::
              ClauseHolds(sem, actual, Mapping(m + n))
              == (ClauseHolds(sem, actual, Mapping(m)) && ClauseHolds(sem, actual, Mapping(n))))
      <==> Alike(m, n)
  {
    if OperatorDocument(m) && OperatorDocument(n) {
      forall sem: Semantics, actual: Value
        ensures ClauseHolds(sem, actual, Mapping(m + n))
             == (ClauseHolds(sem, actual, Mapping(m)) && ClauseHolds(sem, actual, Mapping(n)))
      {
        MergeOfOperators(sem, actual, m, n);
      }
    } else if m == map[] && n == map[] {
      assert m + n == m;
    } else {
      var always: Semantics := (op, a, v) => true;
      var whole := Mapping(m + n);
      if OperatorDocument(m + n) {
        assert m == map[] || n == map[] by {
          if m != map[] && n != map[] {
            OperatorParts(m, n);
          }
        }
        assert m == map[] ==> m + n == n;
        assert n == map[] ==> m + n == m;
        assert ClauseHolds(always, Null, whole);
        assert !ClauseHolds(always, Null, Mapping(map[]));
      } else {
        assert ClauseHolds(always, whole, whole);
        if m == map[] {
          assert whole != Mapping(m) by { assert (m + n).Keys == n.Keys; }
        } else {
          if !OperatorDocument(m) && n != map[] {
            assert (m + n).Keys == m.Keys + n.Keys;
            var key :| key in n.Keys;
            assert whole != Mapping(m);
          }
          if !OperatorDocument(n) {
            var key :| key in m.Keys;
            assert key in m + n && key !in n;
            assert whole != Mapping(n);
          }
        }
      }
    }
  }

  lemma {:induction false} OneOperator(sem: Semantics, actual: Value, op: string, v: Value)
    requires |op| > 0 && op[0] == '$'
    ensures OperatorDocument(map[op := v])
    ensures ClauseHolds(sem, actual, Mapping(map[op := v])) == sem(op, actual, v)
  {
    assert op in map[op := v];
  }

  lemma {:induction false} ClauseIsOneOperator(pattern: Value -> string, sem: Semantics, actual: Value, f: FieldFilter)
    requires !f.operator.EQ? && ClauseFor(pattern, f).Mapping?
    ensures var fields := ClauseFor(pattern, f).fields;
      && OperatorDocument(fields) && OperatorOf(f) in fields
      && ClauseHolds(sem, actual, Mapping(fields)) == sem(OperatorOf(f), actual, fields[OperatorOf(f)])
  {
    var fields := ClauseFor(pattern, f).fields;
    OneOperator(sem, actual, OperatorOf(f), fields[OperatorOf(f)]);
  }

  lemma {:induction false} OperatorParts(m: map<string, Value>, n: map<string, Value>)
    requires m.Keys !! n.Keys && OperatorDocument(m + n)
    ensures m != map[] ==> OperatorDocument(m)
    ensures n != map[] ==> OperatorDocument(n)
  {
  }

  lemma {:induction false} MergeOfOperators(sem: Semantics, actual: Value, m: map<string, Value>, n: map<string, Value>)
    requires m.Keys !! n.Keys && OperatorDocument(m) && OperatorDocument(n)
    ensures OperatorDocument(m + n)
    ensures ClauseHolds(sem, actual, Mapping(m + n))
         == (ClauseHolds(sem, actual, Mapping(m)) && ClauseHolds(sem, actual, Mapping(n)))
  {
  }

  lemma {:induction false} AddClauseMeansBoth(sem: Semantics, e: Entity, p: Partial, field: string, clause: Value)
    requires GoodMerge(p, field, clause)
    ensures PartialHolds(sem, e, AddClause(p, field, clause))
      <==> PartialHolds(sem, e, p) && ClauseHolds(sem, Get(e, field), clause)
  {
    var r := AddClause(p, field, clause);
    if field !in p.query {
      assert forall other :: other in p.query ==> r.query[other] == p.query[other];
      assert r.query[field] == clause;
    } else if Mergeable(p.query[field], clause) {
      MergeMeansBothIff(p.query[field].fields, clause.fields);
      assert forall other :: other in p.query && other != field ==> r.query[other] == p.query[other];
      assert DocumentHolds(sem, e, r.query) ==> ClauseHolds(sem, Get(e, field), r.query[field]);
      assert DocumentHolds(sem, e, p.query) ==> ClauseHolds(sem, Get(e, field), p.query[field]);
    } else {
      var extra := map[field := clause];
      assert DocumentHolds(sem, e, extra) <==> ClauseHolds(sem, Get(e, field), extra[field]);
      assert r.extras[|p.extras|] == extra;
      assert forall i :: 0 <= i < |p.extras| ==> r.extras[i] == p.extras[i];
    }
  }

  ghost predicate EachHolds(pattern: Value -> string, sem: Semantics, e: Entity, filters: seq<FieldFilter>) {
    forall i :: 0 <= i < |filters| ==> FilterHolds(pattern, sem, e, filters[i])
  }

  lemma {:induction false} SplitLast(pattern: Value -> string, sem: Semantics, e: Entity, filters: seq<FieldFilter>, n: nat)
    requires |filters| == n + 1
    ensures EachHolds(pattern, sem, e, filters)
      <==> EachHolds(pattern, sem, e, filters[..n]) && FilterHolds(pattern, sem, e, filters[n])
  {
  }

  lemma {:induction false} AddAllMeansEach(pattern: Value -> string, sem: Semantics, e: Entity, filters: seq<FieldFilter>)
    requires GoodMerges(pattern, filters)
    ensures PartialHolds(sem, e, AddAll(pattern, filters)) <==> EachHolds(pattern, sem, e, filters)
  {
    if filters != [] {
      var n := |filters| - 1;
      SplitLast(pattern, sem, e, filters, n);
      AddAllMeansEach(pattern, sem, e, filters[..n]);
      AddClauseMeansBoth(sem, e, AddAll(pattern, filters[..n]), filters[n].field, ClauseFor(pattern, filters[n]));
    }
  }

  lemma {:induction false} FinishMeansPartial(sem: Semantics, e: Entity, p: Partial)
    ensures QueryHolds(sem, e, Finish(p)) <==> PartialHolds(sem, e, p)
  {
    if p.extras != [] && p.query != map[] {
      var parts := [p.query] + p.extras;
      assert parts[0] == p.query && forall i :: 0 <= i < |p.extras| ==> parts[i + 1] == p.extras[i];
    }
  }

  /** The compiler preserves meaning: a document satisfies the merged query iff it satisfies every filter's own clause,
      whatever the operators mean. */
  lemma {:induction false} CompilePreservesMeaning(pattern: Value -> string, sem: Semantics, e: Entity, filters: seq<FieldFilter>)
    requires GoodMerges(pattern, filters)
    ensures QueryHolds(sem, e, Compile(pattern, filters))
      <==> forall i :: 0 <= i < |filters| ==> FilterHolds(pattern, sem, e, filters[i])
  {
    AddAllMeansEach(pattern, sem, e, filters);
    FinishMeansPartial(sem, e, AddAll(pattern, filters));
  }

  // ---------------------------------------------------------------- the condition is exact

  const EMPTY := Mapping(map[])

  predicate Smaller(a: Value, fields: map<string, Value>) { a.Mapping? && a.fields.Keys < fields.Keys }

  /** What the clause built for a field says of the value of a document that satisfies the filters so far. */
  predicate Fits(a: Value, built: Value) {
    built.Mapping? && !OperatorDocument(built.fields) ==> a == built || (built != EMPTY && Smaller(a, built.fields))
  }

  /** A filter asks for the empty document, and the clause built for its field does not show it any more. */
  predicate LostEmpty(pattern: Value -> string, filters: seq<FieldFilter>, p: Partial, field: string) {
    && SomeAskForEmpty(pattern, filters, field)
    && field in p.query && p.query[field].Mapping? && OperatorDocument(p.query[field].fields)
  }

  predicate SomeAskForEmpty(pattern: Value -> string, filters: seq<FieldFilter>, field: string) {
    exists i :: 0 <= i < |filters| && AsksForEmpty(pattern, filters[i], field)
  }

  predicate AsksForEmpty(pattern: Value -> string, f: FieldFilter, field: string) {
    f.field == field && ClauseFor(pattern, f) == EMPTY
  }

  /** The clause built for the field asks for more than the value that the filters ask for. */
  predicate AsksTooMuch(e: Entity, p: Partial, field: string) {
    && field in p.query && p.query[field].Mapping? && !OperatorDocument(p.query[field].fields)
    && Smaller(Get(e, field), p.query[field].fields)
  }

  predicate Spoiled(pattern: Value -> string, filters: seq<FieldFilter>, e: Entity, p: Partial, field: string) {
    LostEmpty(pattern, filters, p, field) || AsksTooMuch(e, p, field)
  }

  /** A clause that stayed outside the merged document. */
  predicate StaysOut(sem: Semantics, e: Entity, p: Partial, extra: map<string, Value>) {
    exists field :: field in p.query && field in extra && extra == map[field := extra[field]]
      && ClauseHolds(sem, Get(e, field), extra[field]) && (p.query[field].Mapping? ==> extra[field] != EMPTY)
  }

  ghost predicate Tracked(pattern: Value -> string, sem: Semantics, e: Entity, filters: seq<FieldFilter>, p: Partial) {
    && (forall field :: field in p.query ==> Fits(Get(e, field), p.query[field]))
    && (forall field :: field in p.query && p.query[field] == EMPTY ==> SomeAskForEmpty(pattern, filters, field))
    && (forall i :: 0 <= i < |p.extras| ==> StaysOut(sem, e, p, p.extras[i]))
  }

  /** One merge, for a document whose value satisfies the clause. */
  lemma {:induction false} MergeFits(sem: Semantics, a: Value, built: Value, clause: Value)
    requires Mergeable(built, clause) && Fits(a, built) && ClauseHolds(sem, a, clause)
    ensures var whole := built.fields + clause.fields;
      && Fits(a, Mapping(whole))
      && (!Alike(built.fields, clause.fields) ==>
            if OperatorDocument(whole) then built == EMPTY || clause == EMPTY else Smaller(a, whole))
      && (Mapping(whole) == EMPTY ==> built == EMPTY)
  {
    var m, n := built.fields, clause.fields;
    assert (m + n).Keys == m.Keys + n.Keys;
    if OperatorDocument(m + n) {
      OperatorParts(m, n);
    } else if OperatorDocument(m) {
      assert !OperatorDocument(n);
      assert n == map[] ==> m + n == m;
    } else if a == built {
      assert OperatorDocument(n) || n == m;
      assert n == m ==> m == map[] && m + n == m;
      assert m == map[] ==> m + n == n;
    }
  }

  /** What a merge adds does not repair a clause that shows too little or asks for too much. */
  lemma {:induction false} SpoiledMerge(sem: Semantics, a: Value, built: Value, clause: Value)
    requires Mergeable(built, clause) && ClauseHolds(sem, a, clause)
    ensures var whole := built.fields + clause.fields;
      && (OperatorDocument(built.fields) && a == EMPTY ==> OperatorDocument(whole))
      && (!OperatorDocument(built.fields) && Smaller(a, built.fields) ==> !OperatorDocument(whole) && Smaller(a, whole))
  {
    var m, n := built.fields, clause.fields;
    assert (m + n).Keys == m.Keys + n.Keys;
    assert n == map[] ==> m + n == m;
    if OperatorDocument(m + n) {
      OperatorParts(m, n);
    }
  }

  lemma {:induction false} AskStays(pattern: Value -> string, filters: seq<FieldFilter>, n: nat, field: string)
    requires |filters| == n + 1
    ensures SomeAskForEmpty(pattern, filters[..n], field) || AsksForEmpty(pattern, filters[n], field)
      ==> SomeAskForEmpty(pattern, filters, field)
  {
    if SomeAskForEmpty(pattern, filters[..n], field) {
      var i :| 0 <= i < n && AsksForEmpty(pattern, filters[..n][i], field);
      assert AsksForEmpty(pattern, filters[i], field);
    }
  }

  lemma {:induction false} AskedForEmpty(pattern: Value -> string, sem: Semantics, e: Entity, filters: seq<FieldFilter>, field: string)
    requires EachHolds(pattern, sem, e, filters) && SomeAskForEmpty(pattern, filters, field)
    ensures Get(e, field) == EMPTY
  {
    var i :| 0 <= i < |filters| && AsksForEmpty(pattern, filters[i], field);
    assert FilterHolds(pattern, sem, e, filters[i]);
  }

  lemma {:induction false} StillOut(sem: Semantics, e: Entity, p: Partial, field: string, clause: Value, extra: map<string, Value>)
    requires StaysOut(sem, e, p, extra)
    ensures StaysOut(sem, e, AddClause(p, field, clause), extra)
  {
    var r := AddClause(p, field, clause);
    var f :| f in p.query && f in extra && extra == map[f := extra[f]]
      && ClauseHolds(sem, Get(e, f), extra[f]) && (p.query[f].Mapping? ==> extra[f] != EMPTY);
    assert f in r.query && (r.query[f].Mapping? ==> p.query[f].Mapping?);
  }

  lemma {:induction false} GoesOut(sem: Semantics, e: Entity, p: Partial, field: string, clause: Value)
    requires field in p.query && !Mergeable(p.query[field], clause) && ClauseHolds(sem, Get(e, field), clause)
    ensures StaysOut(sem, e, AddClause(p, field, clause), map[field := clause])
  {
    var extra, r := map[field := clause], AddClause(p, field, clause);
    assert field in r.query && field in extra && extra == map[field := extra[field]];
    assert p.query[field].Mapping? ==> p.query[field].fields.Keys !! EMPTY.fields.Keys;
  }

  lemma {:induction false} TrackedStep(pattern: Value -> string, sem: Semantics, e: Entity, filters: seq<FieldFilter>, n: nat)
    requires |filters| == n + 1 && EachHolds(pattern, sem, e, filters)
    requires Tracked(pattern, sem, e, filters[..n], AddAll(pattern, filters[..n]))
    ensures Tracked(pattern, sem, e, filters, AddAll(pattern, filters))
  {
    var p, field, clause := AddAll(pattern, filters[..n]), filters[n].field, ClauseFor(pattern, filters[n]);
    var r := AddAll(pattern, filters);
    assert FilterHolds(pattern, sem, e, filters[n]);
    if field in p.query && Mergeable(p.query[field], clause) {
      MergeFits(sem, Get(e, field), p.query[field], clause);
    }
    forall f | f in r.query && r.query[f] == EMPTY ensures SomeAskForEmpty(pattern, filters, f) {
      AskStays(pattern, filters, n, f);
    }
    forall i | 0 <= i < |r.extras| ensures StaysOut(sem, e, r, r.extras[i]) {
      if i < |p.extras| {
        StillOut(sem, e, p, field, clause, p.extras[i]);
      } else {
        GoesOut(sem, e, p, field, clause);
      }
    }
  }

  /** A bad merge spoils the clause of its field. */
  lemma {:induction false} BadMergeSpoils(pattern: Value -> string, sem: Semantics, e: Entity, filters: seq<FieldFilter>, n: nat)
    requires |filters| == n + 1 && EachHolds(pattern, sem, e, filters)
    requires Tracked(pattern, sem, e, filters[..n], AddAll(pattern, filters[..n]))
    requires !GoodMerge(AddAll(pattern, filters[..n]), filters[n].field, ClauseFor(pattern, filters[n]))
    ensures Spoiled(pattern, filters, e, AddAll(pattern, filters), filters[n].field)
  {
    var p, field, clause := AddAll(pattern, filters[..n]), filters[n].field, ClauseFor(pattern, filters[n]);
    assert FilterHolds(pattern, sem, e, filters[n]);
    MergeFits(sem, Get(e, field), p.query[field], clause);
    AskStays(pattern, filters, n, field);
  }

  /** A spoiled clause stays spoiled. */
  lemma {:induction false} SpoiledStays(pattern: Value -> string, sem: Semantics, e: Entity, filters: seq<FieldFilter>, n: nat, field: string)
    requires |filters| == n + 1 && EachHolds(pattern, sem, e, filters)
    requires Spoiled(pattern, filters[..n], e, AddAll(pattern, filters[..n]), field)
    ensures Spoiled(pattern, filters, e, AddAll(pattern, filters), field)
  {
    var p, clause := AddAll(pattern, filters[..n]), ClauseFor(pattern, filters[n]);
    assert FilterHolds(pattern, sem, e, filters[n]);
    AskStays(pattern, filters, n, field);
    if SomeAskForEmpty(pattern, filters, field) {
      AskedForEmpty(pattern, sem, e, filters, field);
    }
    if field == filters[n].field && Mergeable(p.query[field], clause) {
      SpoiledMerge(sem, Get(e, field), p.query[field], clause);
    }
  }

  lemma {:induction false} BadMergesSpoil(pattern: Value -> string, sem: Semantics, e: Entity, filters: seq<FieldFilter>)
    returns (field: string)
    requires EachHolds(pattern, sem, e, filters)
    ensures Tracked(pattern, sem, e, filters, AddAll(pattern, filters))
    ensures !GoodMerges(pattern, filters) ==> Spoiled(pattern, filters, e, AddAll(pattern, filters), field)
  {
    field := "";
    if filters != [] {
      var n := |filters| - 1;
      SplitLast(pattern, sem, e, filters, n);
      field := BadMergesSpoil(pattern, sem, e, filters[..n]);
      TrackedStep(pattern, sem, e, filters, n);
      if !GoodMerges(pattern, filters[..n]) {
        SpoiledStays(pattern, sem, e, filters, n, field);
      } else if !GoodMerges(pattern, filters) {
        BadMergeSpoils(pattern, sem, e, filters, n);
        field := filters[n].field;
      }
    }
  }

  const ALWAYS: Semantics := (op, actual, v) => true

  /** The same document with a value that no operator rejects and no dict equals. */
  function Elsewhere(e: Entity, field: string): Entity { e[field := Num(5)] }

  /** With a lost empty document, the query accepts one that the filter asking for it rejects. */
  lemma {:induction false} LostEmptyAccepts(pattern: Value -> string, sem: Semantics, e: Entity, filters: seq<FieldFilter>, field: string)
    requires EachHolds(pattern, sem, e, filters) && LostEmpty(pattern, filters, AddAll(pattern, filters), field)
    requires Tracked(pattern, sem, e, filters, AddAll(pattern, filters)) && PartialHolds(sem, e, AddAll(pattern, filters))
    ensures PartialHolds(ALWAYS, Elsewhere(e, field), AddAll(pattern, filters))
    ensures !EachHolds(pattern, ALWAYS, Elsewhere(e, field), filters)
  {
    var p, d := AddAll(pattern, filters), Elsewhere(e, field);
    AskedForEmpty(pattern, sem, e, filters, field);
    var i :| 0 <= i < |filters| && AsksForEmpty(pattern, filters[i], field);
    assert !FilterHolds(pattern, ALWAYS, d, filters[i]);
    assert forall f :: f != field ==> Get(d, f) == Get(e, f);
    forall j | 0 <= j < |p.extras| ensures DocumentHolds(ALWAYS, d, p.extras[j]) {
      assert StaysOut(sem, e, p, p.extras[j]);
    }
  }

  /** For filters that some document satisfies: the query means all of them, for every document and every reading of the
      operators, exactly when each merge joins two operator documents or two empty ones. */
  lemma {:induction false} CompileIsExactIff(pattern: Value -> string, sem: Semantics, e: Entity, filters: seq<FieldFilter>)
    requires EachHolds(pattern, sem, e, filters)
    ensures GoodMerges(pattern, filters) <==> forall s: Semantics, d: Entity ::
      QueryHolds(s, d, Compile(pattern, filters)) <==> EachHolds(pattern, s, d, filters)
  {
    var p := AddAll(pattern, filters);
    if GoodMerges(pattern, filters) {
      forall s: Semantics, d: Entity
        ensures QueryHolds(s, d, Compile(pattern, filters)) <==> EachHolds(pattern, s, d, filters)
      {
        CompilePreservesMeaning(pattern, s, d, filters);
      }
    } else {
      var field := BadMergesSpoil(pattern, sem, e, filters);
      FinishMeansPartial(sem, e, p);
      FinishMeansPartial(ALWAYS, Elsewhere(e, field), p);
      if PartialHolds(sem, e, p) {
        assert ClauseHolds(sem, Get(e, field), p.query[field]);
        LostEmptyAccepts(pattern, sem, e, filters, field);
      }
    }
  }

  /** Without the condition it fails: an equality with the empty document is lost in a merge. */
  lemma {:induction false} EmptyDocumentIsLostInAMerge(pattern: Value -> string, sem: Semantics)
    requires forall a, v :: sem("$ne", a, v) == (a != v)
    ensures var filters := [FieldFilter("f", EQ, Mapping(map[])), FieldFilter("f", NE, Null)];
      QueryHolds(sem, map["f" := Num(5)], Compile(pattern, filters))
      && !FilterHolds(pattern, sem, map["f" := Num(5)], filters[0])
  {
    var filters := [FieldFilter("f", EQ, Mapping(map[])), FieldFilter("f", NE, Null)];
    assert filters[..1][..0] == [] && filters[..1] == [filters[0]];
    assert AddAll(pattern, filters[..1]) == Partial(map["f" := Mapping(map[])], []);
    var ne := map["$ne" := Null];
    assert map[] + ne == ne;
    assert AddAll(pattern, filters) == Partial(map["f" := Mapping(ne)], []);
    OneOperator(sem, Num(5), "$ne", Null);
  }

  // ---------------------------------------------------------------- agreement with the evaluator

  /** Without EQ values that are dicts every merge is a good one. */
  lemma {:induction false} OperatorsMergeWell(pattern: Value -> string, filters: seq<FieldFilter>)
    requires NoPlainMappings(filters)
    ensures GoodMerges(pattern, filters)
    ensures forall field :: field in AddAll(pattern, filters).query ==> OperatorsOnly(AddAll(pattern, filters).query[field])
  {
    if filters != [] {
      var n := |filters| - 1;
      OperatorsMergeWell(pattern, filters[..n]);
      if !filters[n].operator.EQ? && ClauseFor(pattern, filters[n]).Mapping? {
        ClauseIsOneOperator(pattern, (op, a, v) => true, Null, filters[n]);
      }
      assert OperatorsOnly(ClauseFor(pattern, filters[n]));
      OperatorsStay(AddAll(pattern, filters[..n]), filters[n].field, ClauseFor(pattern, filters[n]));
    }
  }

  predicate OperatorsOnly(clause: Value) { clause.Mapping? ==> OperatorDocument(clause.fields) }

  lemma {:induction false} OperatorsStay(p: Partial, field: string, clause: Value)
    requires OperatorsOnly(clause) && forall f :: f in p.query ==> OperatorsOnly(p.query[f])
    ensures GoodMerge(p, field, clause)
    ensures var r := AddClause(p, field, clause); forall f :: f in r.query ==> OperatorsOnly(r.query[f])
  {
  }

  /** MongoDB's operators on scalar fields: comparisons hold within one kind only, and null equals missing. */
  function Server(matches: (Value, Value) -> bool): Semantics {
    (op: string, a: Value, v: Value) =>
      if op == "$ne" then a != v
      else if op == "$gt" then SameKind(a, v) && Comparable(a, v) && Less(v, a)
      else if op == "$gte" then SameKind(a, v) && Comparable(a, v) && !Less(a, v)
      else if op == "$lt" then SameKind(a, v) && Comparable(a, v) && Less(a, v)
      else if op == "$lte" then SameKind(a, v) && Comparable(a, v) && !Less(v, a)
      else if op == "$in" then v.Many? && a in v.items
      else if op == "$nin" then v.Many? && a !in v.items
      else matches(a, v)
  }

  lemma {:induction false} FilterAgrees(text: Value -> string, pattern: Value -> string, matches: (Value, Value) -> bool, e: Entity, f: FieldFilter)
    requires Typed(e, f)
    ensures FilterHolds(pattern, Server(matches), e, f) <==> MatchesFilter(text, e, f) == Some(true)
  {
    var a := Get(e, f.field);
    var clause := ClauseFor(pattern, f);
    if f.operator.IN? || f.operator.NOT_IN? {
      assert Occurs(a, f.value.items) <==> a in f.value.items;
    }
    if clause.Mapping? {
      ClauseIsOneOperator(pattern, Server(matches), a, f);
    }
  }

  /** CONTAINS means the same in the query and in the evaluator exactly if the server's match of the escaped pattern finds
      what the evaluator finds; a null field contains nothing. */
  lemma {:induction false} ContainsAgreesIff(text: Value -> string, pattern: Value -> string, matches: (Value, Value) -> bool,
                                             e: Entity, field: string, v: Value)
    ensures var f, a := FieldFilter(field, CONTAINS, v), Get(e, field);
      (FilterHolds(pattern, Server(matches), e, f) <==> MatchesFilter(text, e, f) == Some(true))
      <==> (matches(a, Text(pattern(v))) <==> !a.Null? && Substring(text(v), text(a)))
  {
    var f := FieldFilter(field, CONTAINS, v);
    ClauseIsOneOperator(pattern, Server(matches), Get(e, field), f);
  }

  /** On the fragment, documents selected by the compiled query are exactly those the evaluator accepts. */
  lemma {:induction false} QueryAgreesWithEvaluator(text: Value -> string, pattern: Value -> string, matches: (Value, Value) -> bool,
                                 e: Entity, filters: seq<FieldFilter>)
    requires AllTyped(e, filters)
    ensures QueryHolds(Server(matches), e, Compile(pattern, filters)) <==> Matches(text, e, filters) == Some(true)
  {
    forall i | 0 <= i < |filters| && filters[i].operator.EQ? ensures !filters[i].value.Mapping? {
      assert Typed(e, filters[i]);
    }
    OperatorsMergeWell(pattern, filters);
    CompilePreservesMeaning(pattern, Server(matches), e, filters);
    MatchesAll(text, e, filters);
    forall i | 0 <= i < |filters|
      ensures FilterHolds(pattern, Server(matches), e, filters[i]) <==> MatchesFilter(text, e, filters[i]) == Some(true)
    {
      FilterAgrees(text, pattern, matches, e, filters[i]);
    }
  }
}
