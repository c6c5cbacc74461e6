/** Filters compiled to a SQL WHERE chain, read under three-valued logic. */
module SqlCompiler {
  import opened Wrappers
  import opened Criteria

  datatype Truth = True | False | Unknown

  datatype Condition =
    | Compare(column: string, operator: Operator, operand: Value)
    | IsNull(column: string)
    | IsNotNull(column: string)
    | InList(column: string, items: seq<Value>)
    | Like(column: string, fragment: Value)
    | Not(inner: Condition)

  datatype CompileError = ArgumentError

  /** `_condition_for_filter`. SQLAlchemy turns `== None` and `!= None` into IS NULL and IS NOT NULL and refuses the
      ordering operators on None, True and False. */
  function ConditionFor(f: FieldFilter): Result<Condition, CompileError> {
    var column := f.field;
    match f.operator
    case EQ => Ok(if f.value.Null? then IsNull(column) else Compare(column, EQ, f.value))
    case NE => Ok(if f.value.Null? then IsNotNull(column) else Compare(column, NE, f.value))
    case IN => if f.value.Many? then Ok(InList(column, f.value.items)) else Err(ArgumentError)
    case NOT_IN => if f.value.Many? then Ok(Not(InList(column, f.value.items))) else Err(ArgumentError)
    case CONTAINS => Ok(Like(column, f.value))
    case IS_NULL => Ok(if f.value == Flag(false) then IsNotNull(column) else IsNull(column))
    case _ =>
      if f.value.Null? || f.value.Flag? then Err(ArgumentError) else Ok(Compare(column, f.operator, f.value))
  }

  function Negation(t: Truth): Truth {
    match t case True => False case False => True case Unknown => Unknown
  }

  function Conjunction(a: Truth, b: Truth): Truth {
    if a.False? || b.False? then False else if a.Unknown? || b.Unknown? then Unknown else True
  }

  function Of(b: bool): Truth { if b then True else False }

  /** A column compared with one list item. */
  function EqualTruth(a: Value, v: Value): Truth {
    if a.Null? || v.Null? then Unknown else Of(a == v)
  }

  /** `a IN (items)`: true if some item is equal, otherwise unknown if some comparison is. */
  function InTruth(a: Value, items: seq<Value>): Truth {
    if items == [] then False else
    match EqualTruth(a, items[0])
    case True => True
    case False => InTruth(a, items[1..])
    case Unknown => if InTruth(a, items[1..]).True? then True else Unknown
  }

  /** A condition's truth on a row; `like` is the backend's LIKE on non-null operands. */
  function Truth3(like: (Value, Value) -> bool, row: Entity, c: Condition): Truth {
    match c
    case IsNull(column) => Of(Get(row, column).Null?)
    case IsNotNull(column) => Of(!Get(row, column).Null?)
    case InList(column, items) => InTruth(Get(row, column), items)
    case Like(column, fragment) =>
      if Get(row, column).Null? || fragment.Null? then Unknown else Of(like(Get(row, column), fragment))
    case Not(inner) => Negation(Truth3(like, row, inner))
    case Compare(column, operator, v) =>
      var a := Get(row, column);
      if a.Null? || v.Null? then Unknown else
      match operator
      case EQ => Of(a == v)
      case NE => Of(a != v)
      case GT => Of(Comparable(a, v) && Less(v, a))
      case GTE => Of(Comparable(a, v) && !Less(a, v))
      case LT => Of(Comparable(a, v) && Less(a, v))
      case LTE => Of(Comparable(a, v) && !Less(v, a))
      case _ => Unknown
  }

  /** A WHERE chain is the conjunction of its conditions; a row is selected when that is true. */
  function ChainTruth(like: (Value, Value) -> bool, row: Entity, chain: seq<Condition>): Truth {
    if chain == [] then True
    else Conjunction(ChainTruth(like, row, chain[..|chain| - 1]), Truth3(like, row, chain[|chain| - 1]))
  }

  predicate Selects(like: (Value, Value) -> bool, row: Entity, chain: seq<Condition>) {
    ChainTruth(like, row, chain).True?
  }

  function Chain(filters: seq<FieldFilter>): Result<seq<Condition>, CompileError> {
    if filters == [] then Ok([]) else
    var before := Chain(filters[..|filters| - 1]);
    if before.Err? then before else
    match ConditionFor(filters[|filters| - 1])
    case Err(e) => Err(e)
    case Ok(c) => Ok(before.value + [c])
  }

  lemma {:induction false} ChainPrefixError(filters: seq<FieldFilter>, n: nat)
    requires n <= |filters| && Chain(filters[..n]).Err?
    ensures Chain(filters) == Chain(filters[..n])
  {
    if n < |filters| {
      assert filters[..|filters| - 1][..n] == filters[..n];
      ChainPrefixError(filters[..|filters| - 1], n);
    } else {
      assert filters[..n] == filters;
    }
  }

  /** A chain compiles exactly when every filter does, and then holds one condition for each, in order. */
  lemma {:induction false} ChainIsPointwise(filters: seq<FieldFilter>)
    ensures Chain(filters).Ok? <==> forall i :: 0 <= i < |filters| ==> ConditionFor(filters[i]).Ok?
    ensures Chain(filters).Ok? ==> |Chain(filters).value| == |filters|
    ensures Chain(filters).Ok? ==> forall i :: 0 <= i < |filters| ==> Ok(Chain(filters).value[i]) == ConditionFor(filters[i])
  {
    if filters != [] {
      var n := |filters| - 1;
      ChainIsPointwise(filters[..n]);
      assert forall i :: 0 <= i < n ==> filters[..n][i] == filters[i];
    }
  }

  /** `_apply_criteria` */
  method ApplyCriteria(criteria: CriteriaArgument) returns (r: Result<seq<Condition>, CompileError>)
    ensures r == Chain(Normalize(criteria))
    ensures r.Ok? <==> forall i :: 0 <= i < |Normalize(criteria)| ==> ConditionFor(Normalize(criteria)[i]).Ok?
    ensures r.Ok? ==> |r.value| == |Normalize(criteria)|
    ensures r.Ok? ==> forall i :: 0 <= i < |r.value| ==> Ok(r.value[i]) == ConditionFor(Normalize(criteria)[i])
  {
    var filters := Normalize(criteria);
    ChainIsPointwise(filters);
    var stmt := [];
    var i := 0;
    while i < |filters|
      invariant 0 <= i <= |filters|
      invariant Chain(filters[..i]) == Ok(stmt)
    {
      var condition := ConditionFor(filters[i]);
      assert filters[..i + 1][..i] == filters[..i];
      if condition.Err? {
        ChainPrefixError(filters, i + 1);
        return Err(condition.error);
      }
      stmt := stmt + [condition.value];
      i := i + 1;
    }
    assert filters[..i] == filters;
    return Ok(stmt);
  }

  // ---------------------------------------------------------------- agreement with the evaluator

  /** The filters SQL reads differently: NE with a value, or NOT_IN with some item, on a null field. */
  predicate NullTrap(row: Entity, f: FieldFilter) {
    Get(row, f.field).Null? &&
    ((f.operator.NE? && !f.value.Null?) || (f.operator.NOT_IN? && f.value.Many? && f.value.items != []))
  }

  lemma {:induction false} InTruthMeaning(a: Value, items: seq<Value>)
    requires forall i :: 0 <= i < |items| ==> !items[i].Null?
    ensures InTruth(a, items).True? <==> !a.Null? && a in items
    ensures InTruth(a, items).Unknown? <==> a.Null? && items != []
  {
    if items != [] {
      InTruthMeaning(a, items[1..]);
    }
  }

  lemma {:induction false} ConditionAgrees(text: Value -> string, like: (Value, Value) -> bool, row: Entity, f: FieldFilter)
    requires Typed(row, f)
    ensures ConditionFor(f).Ok?
    ensures Truth3(like, row, ConditionFor(f).value).True?
      <==> MatchesFilter(text, row, f) == Some(true) && !NullTrap(row, f)
  {
    var a := Get(row, f.field);
    if f.operator.IN? || f.operator.NOT_IN? {
      InTruthMeaning(a, f.value.items);
      assert Occurs(a, f.value.items) <==> a in f.value.items;
    }
  }

  lemma {:induction false} SelectsWhenAllTrue(like: (Value, Value) -> bool, row: Entity, chain: seq<Condition>)
    ensures Selects(like, row, chain) <==> forall i :: 0 <= i < |chain| ==> Truth3(like, row, chain[i]).True?
  {
    if chain != [] {
      SelectsWhenAllTrue(like, row, chain[..|chain| - 1]);
      assert forall i :: 0 <= i < |chain| - 1 ==> chain[..|chain| - 1][i] == chain[i];
    }
  }

  /** On the fragment the WHERE chain compiles and selects exactly the rows the evaluator accepts, except those on which
      a NE or NOT_IN filter meets a null field. */
  lemma {:induction false} ChainAgreesExceptOnNulls(text: Value -> string, like: (Value, Value) -> bool, row: Entity, filters: seq<FieldFilter>)
    requires AllTyped(row, filters)
    ensures Chain(filters).Ok?
    ensures Selects(like, row, Chain(filters).value)
      <==> Matches(text, row, filters) == Some(true) && forall i :: 0 <= i < |filters| ==> !NullTrap(row, filters[i])
  {
    forall i | 0 <= i < |filters|
      ensures ConditionFor(filters[i]).Ok?
      ensures Truth3(like, row, ConditionFor(filters[i]).value).True?
        <==> MatchesFilter(text, row, filters[i]) == Some(true) && !NullTrap(row, filters[i])
    {
      ConditionAgrees(text, like, row, filters[i]);
    }
    ChainIsPointwise(filters);
    SelectsWhenAllTrue(like, row, Chain(filters).value);
    MatchesAll(text, row, filters);
  }

  /** CONTAINS means the same in SQL and in the evaluator exactly if the backend's LIKE, which is not asked about nulls,
      finds the fragment where the evaluator finds its text; on a null field both reject. */
  lemma {:induction false} ContainsAgreesIff(text: Value -> string, like: (Value, Value) -> bool, row: Entity, field: string, v: Value)
    ensures var f, a := FieldFilter(field, CONTAINS, v), Get(row, field);
      ConditionFor(f).Ok? &&
      ((Truth3(like, row, ConditionFor(f).value).True? <==> MatchesFilter(text, row, f) == Some(true))
       <==> (a.Null? || (!v.Null? && like(a, v)) == Substring(text(v), text(a))))
  {
  }

  /** Which filters have no condition: ordering against None, True or False, and membership in what is not a list. */
  lemma {:induction false} NoConditionIff(f: FieldFilter)
    ensures ConditionFor(f).Err? <==>
      || (f.operator in {GT, GTE, LT, LTE} && (f.value.Null? || f.value.Flag?))
      || (f.operator in {IN, NOT_IN} && !f.value.Many?)
  {
  }

  /** SQL reads every IS_NULL value but False as "is null", the evaluator every falsy one as "is not null": they agree
      exactly for False and for truthy values, on every row. */
  lemma {:induction false} IsNullAgreesIff(text: Value -> string, like: (Value, Value) -> bool, row: Entity, field: string, v: Value)
    ensures var f := FieldFilter(field, IS_NULL, v);
      (Truth3(like, row, ConditionFor(f).value).True? <==> MatchesFilter(text, row, f) == Some(true))
      <==> v == Flag(false) || Truthy(v)
  {
  }

  /** With the value omitted, and with 0, "" and [], they answer the opposite of each other. */
  lemma {:induction false} OmittedIsNullDisagrees(text: Value -> string, like: (Value, Value) -> bool, row: Entity, field: string, v: Value)
    requires v in [Null, Num(0), Text(""), Many([])]
    ensures var f := FieldFilter(field, IS_NULL, v);
      Truth3(like, row, ConditionFor(f).value).True? <==> MatchesFilter(text, row, f) == Some(false)
  {
  }
}
