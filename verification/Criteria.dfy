/** Filters and their reference meaning: the evaluator every backend's query is compared with. */
module Criteria {
  import opened Wrappers

  /** A field or filter value. `Null` also stands for a missing field. */
  datatype Value =
    | Null
    | Flag(b: bool)
    | Num(n: int)
    | Text(s: string)
    | Many(items: seq<Value>)
    | Mapping(fields: map<string, Value>)

  datatype Operator = EQ | NE | GT | GTE | LT | LTE | IN | NOT_IN | CONTAINS | IS_NULL

  datatype FieldFilter = FieldFilter(field: string, operator: Operator, value: Value)

  datatype CriteriaArgument = Nothing | Equalities(pairs: seq<(string, Value)>) | Specification(filters: seq<FieldFilter>)

  type Entity = map<string, Value>

  function Get(e: Entity, field: string): Value {
    if field in e then e[field] else Null
  }

  function Normalize(c: CriteriaArgument): (filters: seq<FieldFilter>)
    ensures c.Specification? ==> filters == c.filters
    ensures c.Equalities? ==> |filters| == |c.pairs|
    ensures c.Equalities? ==> forall i :: 0 <= i < |filters| ==> filters[i] == FieldFilter(c.pairs[i].0, EQ, c.pairs[i].1)
  {
    match c
    case Nothing => []
    case Equalities(pairs) => seq(|pairs|, i requires 0 <= i < |pairs| => FieldFilter(pairs[i].0, EQ, pairs[i].1))
    case Specification(filters) => filters
  }

  /** `bool(value)` */
  predicate Truthy(v: Value) {
    match v
    case Null => false
    case Flag(b) => b
    case Num(n) => n != 0
    case Text(s) => s != ""
    case Many(items) => items != []
    case Mapping(fields) => fields != map[]
  }

  predicate Numeric(v: Value) { v.Flag? || v.Num? }

  function AsNumber(v: Value): int
    requires Numeric(v)
  {
    match v case Flag(b) => (if b then 1 else 0) case Num(n) => n
  }

  /** `==`, under which True is 1. */
  predicate Equal(a: Value, b: Value) {
    if Numeric(a) && Numeric(b) then AsNumber(a) == AsNumber(b) else a == b
  }

  predicate TextLess(a: string, b: string) {
    if b == "" then false
    else if a == "" then true
    else a[0] < b[0] || (a[0] == b[0] && TextLess(a[1..], b[1..]))
  }

  predicate Comparable(a: Value, b: Value) {
    (Numeric(a) && Numeric(b)) || (a.Text? && b.Text?)
  }

  predicate Less(a: Value, b: Value)
    requires Comparable(a, b)
  {
    if a.Text? then TextLess(a.s, b.s) else AsNumber(a) < AsNumber(b)
  }

  predicate Substring(a: string, b: string) {
    exists i :: 0 <= i <= |b| && OccursAt(a, b, i)
  }

  predicate OccursAt(a: string, b: string, i: int)
    requires 0 <= i <= |b|
  {
    a <= b[i..]
  }

  predicate Occurs(v: Value, items: seq<Value>) {
    exists i :: 0 <= i < |items| && Equal(v, items[i])
  }

  /** `actual in value`; None where Python raises TypeError. */
  function In(actual: Value, value: Value): Option<bool> {
    match value
    case Many(items) => Some(Occurs(actual, items))
    case Text(s) => if actual.Text? then Some(Substring(actual.s, s)) else None
    case Mapping(fields) => Some(actual.Text? && actual.s in fields)
    case _ => None
  }

  /** `actual is not None and <comparison>`; None where Python raises TypeError. */
  function Ordered(actual: Value, value: Value, holds: bool): Option<bool> {
    if actual.Null? then Some(false) else if !Comparable(actual, value) then None else Some(holds)
  }

  /** `_matches_field_filter`; `text` is `str`. */
  function MatchesFilter(text: Value -> string, e: Entity, f: FieldFilter): Option<bool> {
    var a := Get(e, f.field);
    var v := f.value;
    match f.operator
    case EQ => Some(Equal(a, v))
    case NE => Some(!Equal(a, v))
    case GT => Ordered(a, v, Comparable(a, v) && Less(v, a))
    case GTE => Ordered(a, v, Comparable(a, v) && !Less(a, v))
    case LT => Ordered(a, v, Comparable(a, v) && Less(a, v))
    case LTE => Ordered(a, v, Comparable(a, v) && !Less(v, a))
    case IN => In(a, v)
    case NOT_IN => if In(a, v).Some? then Some(!In(a, v).value) else None
    case CONTAINS => Some(!a.Null? && Substring(text(v), text(a)))
    case IS_NULL => Some(a.Null? == Truthy(v))
  }

  /** `_matches_criteria`: stops at the first filter that fails or raises. */
  function Matches(text: Value -> string, e: Entity, filters: seq<FieldFilter>): Option<bool> {
    if filters == [] then Some(true) else
    var first := MatchesFilter(text, e, filters[0]);
    if first == Some(true) then Matches(text, e, filters[1..]) else first
  }

  lemma {:induction false} MatchesAll(text: Value -> string, e: Entity, filters: seq<FieldFilter>)
    ensures Matches(text, e, filters) == Some(true)
      <==> forall i :: 0 <= i < |filters| ==> MatchesFilter(text, e, filters[i]) == Some(true)
  {
    if filters != [] {
      MatchesAll(text, e, filters[1..]);
      assert forall i :: 0 < i < |filters| ==> filters[i] == filters[1..][i - 1];
      assert forall i :: 0 <= i < |filters| - 1 ==> filters[1..][i] == filters[i + 1];
    }
  }

  /** The answer is that of the first filter that does not accept, be it a rejection or an exception; the filters after
      it are not looked at. */
  lemma {:induction false} MatchesStopsAtFirst(text: Value -> string, e: Entity, filters: seq<FieldFilter>) returns (k: nat)
    ensures k <= |filters| && forall i :: 0 <= i < k ==> MatchesFilter(text, e, filters[i]) == Some(true)
    ensures k < |filters| ==> MatchesFilter(text, e, filters[k]) != Some(true)
    ensures Matches(text, e, filters) == if k < |filters| then MatchesFilter(text, e, filters[k]) else Some(true)
  {
    if filters == [] || MatchesFilter(text, e, filters[0]) != Some(true) {
      k := 0;
    } else {
      var rest := MatchesStopsAtFirst(text, e, filters[1..]);
      k := rest + 1;
      assert forall i :: 0 < i < |filters| ==> filters[i] == filters[1..][i - 1];
    }
  }

  lemma {:induction false} MatchesOne(text: Value -> string, e: Entity, f: FieldFilter)
    ensures Matches(text, e, [f]) == MatchesFilter(text, e, f)
  {
    assert [f][0] == f && [f][1..] == [];
  }

  lemma {:induction false} MatchesAppend(text: Value -> string, e: Entity, a: seq<FieldFilter>, b: seq<FieldFilter>)
    ensures Matches(text, e, a + b) == Some(true)
      <==> Matches(text, e, a) == Some(true) && Matches(text, e, b) == Some(true)
  {
    if a == [] {
      assert a + b == b;
    } else {
      MatchesAppend(text, e, a[1..], b);
      assert (a + b)[1..] == a[1..] + b;
    }
  }

  /** Texts are ordered by their first difference, and a text comes before its continuations. */
  lemma {:induction false} TextOrder(prefix: string, a: string, b: string)
    ensures TextLess(prefix + a, prefix + b) <==> TextLess(a, b)
    ensures b != [] ==> TextLess(prefix, prefix + b)
    ensures a != [] && b != [] && a[0] < b[0] ==> TextLess(prefix + a, prefix + b) && !TextLess(prefix + b, prefix + a)
    ensures !TextLess(a, [])
  {
    if prefix == [] {
      assert prefix + a == a && prefix + b == b;
    } else {
      TextOrder(prefix[1..], a, b);
      assert (prefix + a)[1..] == prefix[1..] + a && (prefix + b)[1..] == prefix[1..] + b;
    }
  }

  lemma {:induction false} SubstringMeans(a: string, b: string)
    ensures Substring(a, b) <==> exists p: string, q: string :: b == p + a + q
  {
    if Substring(a, b) {
      var i :| 0 <= i <= |b| && OccursAt(a, b, i);
      assert b == b[..i] + a + b[i + |a|..];
    } else if exists p: string, q: string :: b == p + a + q {
      var p: string, q: string :| b == p + a + q;
      assert b[|p|..] == a + q;
      assert OccursAt(a, b, |p|);
    }
  }

  /** The falsy values, and that a flag equals, and is ordered as, the number it stands for. */
  lemma {:induction false} PythonValues(v: Value, b: bool, n: int)
    ensures !Truthy(v) <==> v in {Null, Flag(false), Num(0), Text(""), Many([]), Mapping(map[])}
    ensures Equal(Flag(b), Num(n)) == Equal(Num(n), Flag(b)) == (n == if b then 1 else 0)
    ensures Less(Flag(b), Num(n)) <==> (if b then 1 else 0) < n
    ensures Less(Num(n), Flag(b)) <==> n < if b then 1 else 0
  {
  }

  /** When one filter raises: an ordering comparison of a field that is not null with something it cannot be compared with,
      or membership in what is neither a list nor a mapping nor, for a text, a text. */
  lemma {:induction false} RaisesIff(text: Value -> string, e: Entity, f: FieldFilter)
    ensures var a, v := Get(e, f.field), f.value;
      MatchesFilter(text, e, f).None? <==>
        || (f.operator in {GT, GTE, LT, LTE} && !a.Null? && !Comparable(a, v))
        || (f.operator in {IN, NOT_IN} && !v.Many? && !v.Mapping? && !(v.Text? && a.Text?))
  {
  }

  /** A filter and its negation answer the opposite of each other, or both raise; and so do the two bounds on one side. */
  lemma {:induction false} Negations(text: Value -> string, e: Entity, field: string, v: Value)
    ensures MatchesFilter(text, e, FieldFilter(field, NE, v)) == Opposite(MatchesFilter(text, e, FieldFilter(field, EQ, v)))
    ensures MatchesFilter(text, e, FieldFilter(field, NOT_IN, v)) == Opposite(MatchesFilter(text, e, FieldFilter(field, IN, v)))
    ensures !Get(e, field).Null? ==>
      MatchesFilter(text, e, FieldFilter(field, GTE, v)) == Opposite(MatchesFilter(text, e, FieldFilter(field, LT, v)))
      && MatchesFilter(text, e, FieldFilter(field, LTE, v)) == Opposite(MatchesFilter(text, e, FieldFilter(field, GT, v)))
  {
  }

  function Opposite(r: Option<bool>): Option<bool> { if r.Some? then Some(!r.value) else None }

  // ---------------------------------------------------------------- the fragment on which backends are compared

  predicate Scalar(v: Value) { v.Flag? || v.Num? || v.Text? }

  predicate SameKind(a: Value, b: Value) {
    (a.Flag? && b.Flag?) || (a.Num? && b.Num?) || (a.Text? && b.Text?)
  }

  /** The field is null or a scalar of the operand's kind, bounds and list items are not null, and IS_NULL says
      explicitly which of the two it means. */
  predicate Typed(e: Entity, f: FieldFilter) {
    var a := Get(e, f.field);
    match f.operator
    case EQ => TypedPair(a, f.value)
    case NE => TypedPair(a, f.value)
    case IN => TypedList(a, f.value)
    case NOT_IN => TypedList(a, f.value)
    case IS_NULL => f.value.Flag?
    case CONTAINS => false
    case _ => (f.value.Num? || f.value.Text?) && (a.Null? || SameKind(a, f.value))
  }

  predicate TypedPair(a: Value, v: Value) {
    && (a.Null? || Scalar(a))
    && (v.Null? || Scalar(v))
    && (a.Null? || v.Null? || SameKind(a, v))
  }

  predicate TypedList(a: Value, v: Value) {
    && v.Many?
    && (forall i :: 0 <= i < |v.items| ==> Scalar(v.items[i]))
    && (a.Null? || forall i :: 0 <= i < |v.items| ==> SameKind(a, v.items[i]))
  }

  predicate AllTyped(e: Entity, filters: seq<FieldFilter>) {
    forall i :: 0 <= i < |filters| ==> Typed(e, filters[i])
  }

  /** On the fragment the evaluator never raises. */
  lemma {:induction false} TypedNeverRaises(text: Value -> string, e: Entity, filters: seq<FieldFilter>)
    requires AllTyped(e, filters)
    ensures Matches(text, e, filters).Some?
  {
    if filters != [] {
      assert forall i :: 0 <= i < |filters| - 1 ==> filters[1..][i] == filters[i + 1];
      TypedNeverRaises(text, e, filters[1..]);
      assert Typed(e, filters[0]);
    }
  }
}
