/** Outbox records, and the store operations on the records in the order they were saved. */
module OutboxRecords {
  import opened Wrappers

  datatype Record = Record(id: nat, payload: string, createdAt: int, publishedAt: Option<int>, attempts: nat)

  predicate Eligible(r: Record, maxAttempts: Option<int>) {
    r.publishedAt.None? && (maxAttempts.None? || r.attempts < maxAttempts.value)
  }

  function Eligibles(s: seq<Record>, maxAttempts: Option<int>): (r: seq<Record>)
    ensures |r| <= |s|
  {
    if s == [] then [] else
    var rest := Eligibles(s[1..], maxAttempts);
    if Eligible(s[0], maxAttempts) then [s[0]] + rest else rest
  }

  lemma {:induction false} EligiblesMembers(s: seq<Record>, maxAttempts: Option<int>)
    ensures forall x :: x in Eligibles(s, maxAttempts) <==> x in s && Eligible(x, maxAttempts)
  {
    if s != [] {
      EligiblesMembers(s[1..], maxAttempts);
      assert s == [s[0]] + s[1..];
    }
  }

  function Take(s: seq<Record>, n: nat): seq<Record> { if n < |s| then s[..n] else s }

  /** `_validate_fetch_args` */
  predicate ValidFetch(limit: int, maxAttempts: Option<int>) {
    limit > 0 && (maxAttempts.Some? ==> maxAttempts.value > 0)
  }

  datatype ValueError = ValueError

  function Fetch(s: seq<Record>, limit: int, maxAttempts: Option<int>): Result<seq<Record>, ValueError> {
    if ValidFetch(limit, maxAttempts) then Ok(Take(Eligibles(s, maxAttempts), limit)) else Err(ValueError)
  }

  predicate DistinctIds(s: seq<Record>) {
    forall i, j :: 0 <= i < j < |s| ==> s[i].id != s[j].id
  }

  function Ids(records: seq<Record>): (r: seq<nat>)
    ensures |r| == |records|
  {
    seq(|records|, i requires 0 <= i < |records| => records[i].id)
  }

  predicate HasId(s: seq<Record>, id: nat) { exists i :: 0 <= i < |s| && s[i].id == id }

  /** `records[id] = record` on a dict: in place for a known id, at the end for a new one. */
  function SaveOne(s: seq<Record>, r: Record): seq<Record> {
    if HasId(s, r.id) then seq(|s|, i requires 0 <= i < |s| => if s[i].id == r.id then r else s[i]) else s + [r]
  }

  function SaveAll(s: seq<Record>, records: seq<Record>): seq<Record> {
    if records == [] then s else SaveOne(SaveAll(s, records[..|records| - 1]), records[|records| - 1])
  }

  function MarkOne(s: seq<Record>, id: nat, now: int): seq<Record> {
    seq(|s|, i requires 0 <= i < |s| => if s[i].id == id then s[i].(publishedAt := Some(now)) else s[i])
  }

  function MarkAll(s: seq<Record>, ids: seq<nat>, now: int): (r: seq<Record>)
    ensures |r| == |s|
  {
    if ids == [] then s else MarkOne(MarkAll(s, ids[..|ids| - 1], now), ids[|ids| - 1], now)
  }

  function CountOne(s: seq<Record>, id: nat): seq<Record> {
    seq(|s|, i requires 0 <= i < |s| => if s[i].id == id then s[i].(attempts := s[i].attempts + 1) else s[i])
  }

  function CountAll(s: seq<Record>, ids: seq<nat>): (r: seq<Record>)
    ensures |r| == |s|
  {
    if ids == [] then s else CountOne(CountAll(s, ids[..|ids| - 1]), ids[|ids| - 1])
  }

  predicate NoRepeats(ids: seq<nat>) {
    forall i, j :: 0 <= i < j < |ids| ==> ids[i] != ids[j]
  }

  lemma {:induction false} MarkAllAt(s: seq<Record>, ids: seq<nat>, now: int, i: nat)
    requires i < |s|
    ensures MarkAll(s, ids, now)[i] == if s[i].id in ids then s[i].(publishedAt := Some(now)) else s[i]
  {
    if ids != [] {
      MarkAllAt(s, ids[..|ids| - 1], now, i);
      assert ids == ids[..|ids| - 1] + [ids[|ids| - 1]];
    }
  }

  /** Each occurrence of an id counts one attempt. */
  lemma {:induction false} CountAllAt(s: seq<Record>, ids: seq<nat>, i: nat)
    requires i < |s|
    ensures CountAll(s, ids)[i] == s[i].(attempts := s[i].attempts + multiset(ids)[s[i].id])
  {
    if ids != [] {
      CountAllAt(s, ids[..|ids| - 1], i);
      assert ids == ids[..|ids| - 1] + [ids[|ids| - 1]];
    }
  }

  lemma {:induction false} NoRepeatsCount(ids: seq<nat>, id: nat)
    requires NoRepeats(ids)
    ensures multiset(ids)[id] == if id in ids then 1 else 0
  {
    if ids != [] {
      var n := |ids| - 1;
      NoRepeatsCount(ids[..n], id);
      assert ids == ids[..n] + [ids[n]];
    }
  }
}

/** The in-memory store: a dict from id to record, here its values in insertion order. */
module InMemoryStores {
  import opened Wrappers
  import opened OutboxRecords

  class InMemoryOutboxStore {
    var records: seq<Record>

    constructor ()
      ensures records == []
    {
      records := [];
    }

    method Save(more: seq<Record>)
      modifies this
      ensures records == SaveAll(old(records), more)
    {
      var i := 0;
      while i < |more|
        invariant 0 <= i <= |more|
        invariant records == SaveAll(old(records), more[..i])
      {
        records := SaveOne(records, more[i]);
        i := i + 1;
        assert more[..i][..i - 1] == more[..i - 1];
      }
      assert more[..i] == more;
    }

    method FetchUnpublished(limit: int, maxAttempts: Option<int>) returns (r: Result<seq<Record>, ValueError>)
      ensures r == Fetch(records, limit, maxAttempts)
      ensures r.Err? <==> limit <= 0 || (maxAttempts.Some? && maxAttempts.value <= 0)
    {
      if limit <= 0 || (maxAttempts.Some? && maxAttempts.value <= 0) {
        return Err(ValueError);
      }
      return Ok(Take(Eligibles(records, maxAttempts), limit));
    }

    method MarkPublished(ids: seq<nat>, now: int)
      modifies this
      ensures records == MarkAll(old(records), ids, now)
    {
      var i := 0;
      while i < |ids|
        invariant 0 <= i <= |ids|
        invariant records == MarkAll(old(records), ids[..i], now)
      {
        records := MarkOne(records, ids[i], now);
        i := i + 1;
        assert ids[..i][..i - 1] == ids[..i - 1];
      }
      assert ids[..i] == ids;
    }

    method RecordFailedAttempts(ids: seq<nat>)
      modifies this
      ensures records == CountAll(old(records), ids)
    {
      var i := 0;
      while i < |ids|
        invariant 0 <= i <= |ids|
        invariant records == CountAll(old(records), ids[..i])
      {
        records := CountOne(records, ids[i]);
        i := i + 1;
        assert ids[..i][..i - 1] == ids[..i - 1];
      }
      assert ids[..i] == ids;
    }
  }
}

/** The SQL store's statements on a table keyed by id, and why the in-memory store stands in for it. */
module SqlStore {
  import opened Wrappers
  import opened OutboxRecords

  type Rows = map<nat, Record>

  ghost predicate Keyed(rows: Rows) {
    forall id :: id in rows ==> rows[id].id == id
  }

  function ToSet(s: seq<Record>): set<Record> { set x | x in s }

  /** A result that SELECT ... WHERE ... ORDER BY created_at LIMIT allows: `e` is the set of rows it filters to. */
  predicate Ordered(e: set<Record>, limit: nat, r: seq<Record>) {
    && |r| <= limit
    && Ascending(r)
    && (forall x :: x in r ==> x in e)
    && (forall x :: x in e && x !in r ==> FullOfOlder(limit, r, x))
  }

  predicate Ascending(r: seq<Record>) {
    forall i, j :: 0 <= i < j < |r| ==> r[i] != r[j] && r[i].createdAt <= r[j].createdAt
  }

  predicate FullOfOlder(limit: nat, r: seq<Record>, x: Record) {
    |r| == limit && forall i :: 0 <= i < |r| ==> r[i].createdAt <= x.createdAt
  }

  function Filtered(rows: Rows, maxAttempts: Option<int>): set<Record> {
    set id | id in rows && Eligible(rows[id], maxAttempts) :: rows[id]
  }

  lemma {:induction false} EligibleIsFiltered(rows: Rows, maxAttempts: Option<int>, id: nat)
    requires id in rows
    ensures Eligible(rows[id], maxAttempts) ==> rows[id] in Filtered(rows, maxAttempts)
  {
  }

  /** INSERT of each record; None when one breaks the primary key. */
  function Insert(rows: Rows, records: seq<Record>): Option<Rows> {
    if records == [] then Some(rows) else
    var before := Insert(rows, records[..|records| - 1]);
    var last := records[|records| - 1];
    if before.None? || last.id in before.value then None else Some(before.value[last.id := last])
  }

  function Mark(rows: Rows, ids: seq<nat>, now: int): Rows {
    map id | id in rows :: if id in ids then rows[id].(publishedAt := Some(now)) else rows[id]
  }

  function CountFailed(rows: Rows, ids: seq<nat>): Rows {
    map id | id in rows :: if id in ids then rows[id].(attempts := rows[id].attempts + 1) else rows[id]
  }

  datatype Operation =
    | Save(records: seq<Record>)
    | MarkPublished(ids: seq<nat>, now: int)
    | RecordFailedAttempts(ids: seq<nat>)

  function Memory(s: seq<Record>, op: Operation): seq<Record> {
    match op
    case Save(records) => SaveAll(s, records)
    case MarkPublished(ids, now) => MarkAll(s, ids, now)
    case RecordFailedAttempts(ids) => CountAll(s, ids)
  }

  function Table(rows: Rows, op: Operation): Option<Rows> {
    match op
    case Save(records) => Insert(rows, records)
    case MarkPublished(ids, now) => Some(Mark(rows, ids, now))
    case RecordFailedAttempts(ids) => Some(CountFailed(rows, ids))
  }

  /** Saves bring fresh ids; failure lists name no stored record twice. */
  predicate FreshIds(s: seq<Record>, op: Operation) {
    match op
    case Save(records) => DistinctIds(s + records)
    case MarkPublished(_, _) => true
    case RecordFailedAttempts(ids) => forall i :: 0 <= i < |s| ==> AtMostOnce(ids, s[i].id)
  }

  predicate AtMostOnce(ids: seq<nat>, id: nat) { multiset(ids)[id] <= 1 }

  lemma {:induction false} NoRepeatsAtMostOnce(ids: seq<nat>)
    requires NoRepeats(ids)
    ensures forall id :: AtMostOnce(ids, id)
  {
    forall id ensures AtMostOnce(ids, id) {
      NoRepeatsCount(ids, id);
    }
  }

  /** ... and the saved records come in strictly increasing creation order. */
  predicate Orderly(s: seq<Record>, op: Operation) {
    FreshIds(s, op) && (op.Save? ==> InOrder(s + op.records))
  }

  predicate InOrder(s: seq<Record>) {
    forall i, j :: 0 <= i < j < |s| ==> s[i].createdAt < s[j].createdAt
  }

  predicate Same(s: seq<Record>, rows: Rows) {
    && DistinctIds(s)
    && (forall i :: 0 <= i < |s| ==> s[i].id in rows && rows[s[i].id] == s[i])
    && (forall id :: id in rows ==> HasId(s, id))
  }

  /** Appending a record with a fresh id. */
  lemma {:induction false} AppendKeepsSame(s: seq<Record>, rows: Rows, last: Record)
    requires Same(s, rows) && DistinctIds(s + [last])
    ensures !HasId(s, last.id) && last.id !in rows
    ensures Same(s + [last], rows[last.id := last])
  {
    var t, after := s + [last], rows[last.id := last];
    assert t[|s|] == last && forall i :: 0 <= i < |s| ==> t[i] == s[i];
    assert !HasId(s, last.id);
    forall id | id in after ensures HasId(t, id) {
      if id in rows {
        var i :| 0 <= i < |s| && s[i].id == id;
        assert t[i].id == id;
      } else {
        assert t[|s|].id == id;
      }
    }
  }

  /** The records of a save but the last, and the last after them, are fresh too. */
  lemma {:induction false} SplitLast(s: seq<Record>, records: seq<Record>, n: nat)
    requires DistinctIds(s + records) && |records| == n + 1
    ensures DistinctIds(s + records[..n])
    ensures s + records == (s + records[..n]) + [records[n]]
  {
    var t, u := s + records, s + records[..n];
    assert t == u + [records[n]];
    assert forall i :: 0 <= i < |u| ==> u[i] == t[i];
  }

  lemma {:induction false} SaveKeepsSame(s: seq<Record>, rows: Rows, records: seq<Record>)
    requires Same(s, rows) && DistinctIds(s + records)
    ensures SaveAll(s, records) == s + records
    ensures Insert(rows, records).Some? && Same(s + records, Insert(rows, records).value)
    decreases |records|
  {
    if records == [] {
      assert s + records == s;
    } else {
      var n := |records| - 1;
      SplitLast(s, records, n);
      SaveKeepsSame(s, rows, records[..n]);
      AppendKeepsSame(s + records[..n], Insert(rows, records[..n]).value, records[n]);
    }
  }

  lemma {:induction false} UpdateKeepsSame(s: seq<Record>, rows: Rows, t: seq<Record>, after: Rows)
    requires Same(s, rows) && |t| == |s| && after.Keys == rows.Keys
    requires forall i :: 0 <= i < |s| ==> t[i].id == s[i].id && t[i].createdAt == s[i].createdAt && after[s[i].id] == t[i]
    ensures Same(t, after)
  {
  }

  lemma {:induction false} StepKeepsSame(s: seq<Record>, rows: Rows, op: Operation)
    requires Same(s, rows) && FreshIds(s, op)
    ensures Table(rows, op).Some? && Same(Memory(s, op), Table(rows, op).value)
  {
    match op
    case Save(records) => SaveKeepsSame(s, rows, records);
    case MarkPublished(ids, now) =>
      forall i | 0 <= i < |s| ensures MarkAll(s, ids, now)[i] == Mark(rows, ids, now)[s[i].id] {
        MarkAllAt(s, ids, now, i);
      }
      UpdateKeepsSame(s, rows, MarkAll(s, ids, now), Mark(rows, ids, now));
    case RecordFailedAttempts(ids) =>
      forall i | 0 <= i < |s| ensures CountAll(s, ids)[i] == CountFailed(rows, ids)[s[i].id] {
        CountAllAt(s, ids, i);
        assert AtMostOnce(ids, s[i].id);
      }
      UpdateKeepsSame(s, rows, CountAll(s, ids), CountFailed(rows, ids));
  }

  /** A list of failures that names a stored record twice is counted twice in memory and once in the table: they agree
      on a record exactly when it is named at most once. */
  lemma {:induction false} CountsAgreeIff(s: seq<Record>, rows: Rows, ids: seq<nat>, i: nat)
    requires Same(s, rows) && i < |s|
    ensures CountAll(s, ids)[i] == CountFailed(rows, ids)[s[i].id] <==> multiset(ids)[s[i].id] <= 1
  {
    CountAllAt(s, ids, i);
  }

  // ---------------------------------------------------------------- when the query has one result

  predicate NoDuplicates(e: seq<Record>) {
    forall i, j :: 0 <= i < j < |e| ==> e[i] != e[j]
  }

  /** The first `limit` records are each strictly older than all that follow. */
  predicate Ahead(e: seq<Record>, limit: nat) {
    forall i, j :: 0 <= i < j < |e| && i < limit ==> e[i].createdAt < e[j].createdAt
  }

  /** Of such a list, taking from the front is the only allowed result. */
  lemma {:induction false} OnlyOneOrder(e: seq<Record>, limit: nat, r: seq<Record>)
    requires Ahead(e, limit) && NoDuplicates(e)
    ensures Ordered(ToSet(e), limit, r) <==> r == Take(e, limit)
    decreases |e|
  {
    if e == [] || limit == 0 {
      NothingToTake(e, limit, r);
    } else if r != [] && r[0] == e[0] {
      AheadFirst(e, limit);
      OnlyOneOrder(e[1..], limit - 1, r[1..]);
      OneOrderFirst(e, limit, r);
    } else {
      WrongFirst(e, limit, r);
    }
  }

  lemma {:induction false} OneOrderFirst(e: seq<Record>, limit: nat, r: seq<Record>)
    requires Ahead(e, limit) && NoDuplicates(e) && e != [] && limit > 0 && r != [] && r[0] == e[0]
    requires Ordered(ToSet(e[1..]), limit - 1, r[1..]) <==> r[1..] == Take(e[1..], limit - 1)
    ensures Ordered(ToSet(e), limit, r) <==> r == Take(e, limit)
  {
    OrderedSplits(e, limit, r);
    TakeFirst(e, limit, r);
  }

  lemma {:induction false} WrongFirst(e: seq<Record>, limit: nat, r: seq<Record>)
    requires Ahead(e, limit) && e != [] && limit > 0 && (r == [] || r[0] != e[0])
    ensures !Ordered(ToSet(e), limit, r) && r != Take(e, limit)
  {
    assert Take(e, limit)[0] == e[0];
    if Ordered(ToSet(e), limit, r) {
      OldestFirst(e, limit, r);
    }
  }

  lemma {:induction false} NothingToTake(e: seq<Record>, limit: nat, r: seq<Record>)
    requires e == [] || limit == 0
    ensures Ordered(ToSet(e), limit, r) <==> r == Take(e, limit)
  {
    assert r != [] ==> r[0] in r;
  }

  lemma {:induction false} TakeFirst(e: seq<Record>, limit: nat, r: seq<Record>)
    requires e != [] && limit > 0 && r != [] && r[0] == e[0]
    ensures r == Take(e, limit) <==> r[1..] == Take(e[1..], limit - 1)
  {
    assert r == [e[0]] + r[1..];
    assert Take(e, limit) == [e[0]] + Take(e[1..], limit - 1);
  }

  lemma {:induction false} AheadFirst(e: seq<Record>, limit: nat)
    requires Ahead(e, limit) && NoDuplicates(e) && e != [] && limit > 0
    ensures Ahead(e[1..], limit - 1) && NoDuplicates(e[1..])
    ensures forall x :: x in e[1..] ==> e[0] != x && e[0].createdAt < x.createdAt
  {
    assert forall i :: 0 <= i < |e| - 1 ==> e[1..][i] == e[i + 1];
  }

  lemma {:induction false} OldestFirst(e: seq<Record>, limit: nat, r: seq<Record>)
    requires Ahead(e, limit) && e != [] && limit > 0 && Ordered(ToSet(e), limit, r)
    ensures r != [] && r[0] == e[0]
  {
    assert e[0] in ToSet(e);
    assert r != [] ==> r[0] in ToSet(e);
  }

  lemma {:induction false} OrderedSplits(e: seq<Record>, limit: nat, r: seq<Record>)
    requires Ahead(e, limit) && NoDuplicates(e) && e != [] && limit > 0 && r != [] && r[0] == e[0]
    ensures Ordered(ToSet(e), limit, r) <==> Ordered(ToSet(e[1..]), limit - 1, r[1..])
  {
    AheadFirst(e, limit);
    assert e == [e[0]] + e[1..] && r == [r[0]] + r[1..];
    assert e[0] !in ToSet(e[1..]);
    assert ToSet(e) == ToSet(e[1..]) + {e[0]};
    assert forall x :: x in ToSet(e[1..]) ==> e[0].createdAt < x.createdAt;
    PeelOrdered(e[0], ToSet(e[1..]), limit, r[1..]);
  }

  lemma {:induction false} PeelOrdered(first: Record, rest: set<Record>, limit: nat, t: seq<Record>)
    requires limit > 0 && first !in rest && forall x :: x in rest ==> first.createdAt < x.createdAt
    ensures Ordered(rest + {first}, limit, [first] + t) <==> Ordered(rest, limit - 1, t)
  {
    var all, r := rest + {first}, [first] + t;
    if Ordered(all, limit, r) {
      PeelForward(first, rest, limit, t);
    }
    if Ordered(rest, limit - 1, t) {
      PeelBackward(first, rest, limit, t);
    }
  }

  lemma {:induction false} PeelForward(first: Record, rest: set<Record>, limit: nat, t: seq<Record>)
    requires limit > 0 && first !in rest
    requires Ordered(rest + {first}, limit, [first] + t)
    ensures Ordered(rest, limit - 1, t)
  {
    var r := [first] + t;
    forall i, j | 0 <= i < j < |t| ensures t[i] != t[j] && t[i].createdAt <= t[j].createdAt {
      assert t[i] == r[i + 1] && t[j] == r[j + 1];
    }
    forall x | x in t ensures x in rest {
      var i :| 0 <= i < |t| && t[i] == x;
      assert r[0] != r[i + 1] && r[i + 1] in r;
    }
    forall x | x in rest && x !in t ensures |t| == limit - 1 && forall i :: 0 <= i < |t| ==> t[i].createdAt <= x.createdAt {
      assert x !in r;
      assert forall i :: 0 <= i < |t| ==> t[i] == r[i + 1];
    }
  }

  lemma {:induction false} PeelBackward(first: Record, rest: set<Record>, limit: nat, t: seq<Record>)
    requires limit > 0 && first !in rest && forall x :: x in rest ==> first.createdAt < x.createdAt
    requires Ordered(rest, limit - 1, t)
    ensures Ordered(rest + {first}, limit, [first] + t)
  {
  }

  function Swapped(t: seq<Record>, i: nat): (r: seq<Record>)
    requires i + 1 < |t|
    ensures |r| == |t| && r[i] == t[i + 1] && r[i + 1] == t[i]
    ensures forall k :: 0 <= k < |t| && k != i && k != i + 1 ==> r[k] == t[k]
  {
    t[i := t[i + 1]][i + 1 := t[i]]
  }

  lemma {:induction false} SwappedMembers(t: seq<Record>, i: nat)
    requires i + 1 < |t|
    ensures forall x :: x in Swapped(t, i) <==> x in t
  {
    var r := Swapped(t, i);
    assert r[i] in r && r[i + 1] in r && t[i] in t && t[i + 1] in t;
    forall x | x in t ensures x in r {
      var k :| 0 <= k < |t| && t[k] == x;
      assert k != i && k != i + 1 ==> r[k] == x;
    }
  }

  lemma {:induction false} SwapAscends(t: seq<Record>, i: nat)
    requires i + 1 < |t| && Ascending(t) && t[i].createdAt == t[i + 1].createdAt
    ensures Ascending(Swapped(t, i)) && Swapped(t, i) != t
    ensures forall k :: 0 <= k < |t| ==> Swapped(t, i)[k].createdAt == t[k].createdAt
  {
    assert t[i] != t[i + 1];
  }

  /** Neighbours of equal age may be swapped. */
  lemma {:induction false} SwapStaysOrdered(all: set<Record>, limit: nat, t: seq<Record>, i: nat)
    requires Ordered(all, limit, t) && i + 1 < |t| && t[i].createdAt == t[i + 1].createdAt
    ensures Ordered(all, limit, Swapped(t, i)) && Swapped(t, i) != t
  {
    SwappedMembers(t, i);
    SwapAscends(t, i);
    forall x | x in all && x !in Swapped(t, i) ensures FullOfOlder(limit, Swapped(t, i), x) {
      assert FullOfOlder(limit, t, x);
    }
  }

  /** The last record of a full result may give way to one of its age that was left out. */
  lemma {:induction false} ReplaceStaysOrdered(all: set<Record>, limit: nat, t: seq<Record>, n: nat, x: Record)
    requires Ordered(all, limit, t) && |t| == n + 1 && x in all && x !in t && t[n].createdAt == x.createdAt
    ensures Ordered(all, limit, t[..n] + [x]) && t[..n] + [x] != t
  {
    var r := t[..n] + [x];
    assert r[n] == x && t[n] in t && t[n] != x;
    assert forall k :: 0 <= k < n ==> r[k] == t[k] && t[k] in t;
    forall y | y in all && y !in r ensures FullOfOlder(limit, r, y) {
      LeftOutOfBoth(all, limit, t, n, x, y);
    }
  }

  lemma {:induction false} LeftOutOfBoth(all: set<Record>, limit: nat, t: seq<Record>, n: nat, x: Record, y: Record)
    requires Ordered(all, limit, t) && |t| == n + 1 && x in all && x !in t && t[n].createdAt == x.createdAt
    requires y in all && y !in t[..n] + [x]
    ensures |t| == limit && y.createdAt >= x.createdAt && forall k :: 0 <= k < n ==> t[k].createdAt <= y.createdAt
  {
    assert t == t[..n] + [t[n]];
    assert y in t ==> y == t[n];
    assert forall k :: 0 <= k < n ==> t[k].createdAt <= t[n].createdAt;
  }

  /** A record left out of a full result that is no younger than the `i`-th one has the age of the last. */
  lemma {:induction false} LeftOutIsLast(all: set<Record>, limit: nat, t: seq<Record>, i: nat, x: Record)
    requires Ordered(all, limit, t) && i < |t| && x in all && x !in t && t[i].createdAt >= x.createdAt
    ensures t[|t| - 1].createdAt == x.createdAt
  {
    assert t[|t| - 1].createdAt <= x.createdAt;
    assert i < |t| - 1 ==> t[i].createdAt <= t[|t| - 1].createdAt;
  }

  lemma {:induction false} BetweenIsEqual(all: set<Record>, limit: nat, t: seq<Record>, i: nat, j: nat)
    requires Ordered(all, limit, t) && i < j < |t| && t[i].createdAt >= t[j].createdAt
    ensures t[i].createdAt == t[i + 1].createdAt
  {
    assert t[i].createdAt <= t[i + 1].createdAt && (i + 1 < j ==> t[i + 1].createdAt <= t[j].createdAt);
  }

  /** Where an early record is not strictly older than a later one, the query allows another result, or not even this. */
  lemma {:induction false} AnotherOrder(e: seq<Record>, limit: nat, i: nat, j: nat) returns (r: seq<Record>)
    requires NoDuplicates(e) && i < j < |e| && i < limit && e[i].createdAt >= e[j].createdAt
    requires Ordered(ToSet(e), limit, Take(e, limit))
    ensures Ordered(ToSet(e), limit, r) && r != Take(e, limit)
  {
    var all, t := ToSet(e), Take(e, limit);
    if j < |t| {
      BetweenIsEqual(all, limit, t, i, j);
      SwapStaysOrdered(all, limit, t, i);
      r := Swapped(t, i);
    } else {
      NotTaken(e, limit, j);
      LeftOutIsLast(all, limit, t, i, e[j]);
      ReplaceStaysOrdered(all, limit, t, |t| - 1, e[j]);
      r := t[..|t| - 1] + [e[j]];
    }
  }

  lemma {:induction false} NotTaken(e: seq<Record>, limit: nat, j: nat)
    requires NoDuplicates(e) && limit <= j < |e|
    ensures e[j] !in Take(e, limit) && e[j] in ToSet(e)
  {
  }

  /** The query's only result is the front of the list: this is all that `Ordered` allows, and it allows it. */
  ghost predicate FrontOnly(e: seq<Record>, limit: nat) {
    forall r: seq<Record> :: Ordered(ToSet(e), limit, r) <==> r == Take(e, limit)
  }

  /** The SQL query over distinct records allows exactly the front of the list as its result if and only if each of the
      first `limit` records is strictly older than all that follow it. */
  lemma {:induction false} FrontOnlyIff(e: seq<Record>, limit: nat)
    requires NoDuplicates(e)
    ensures FrontOnly(e, limit) <==> Ahead(e, limit)
  {
    if Ahead(e, limit) {
      forall r: seq<Record> ensures Ordered(ToSet(e), limit, r) <==> r == Take(e, limit) {
        OnlyOneOrder(e, limit, r);
      }
    }
    if FrontOnly(e, limit) {
      forall i: nat, j: nat | i < j < |e| && i < limit ensures e[i].createdAt < e[j].createdAt {
        FrontOnlyIsAhead(e, limit, i, j);
      }
    }
  }

  lemma {:induction false} FrontOnlyIsAhead(e: seq<Record>, limit: nat, i: nat, j: nat)
    requires NoDuplicates(e) && FrontOnly(e, limit) && i < j < |e| && i < limit
    ensures e[i].createdAt < e[j].createdAt
  {
    assert Ordered(ToSet(e), limit, Take(e, limit));
    if e[i].createdAt >= e[j].createdAt {
      var r := AnotherOrder(e, limit, i, j);
      assert false;
    }
  }

  lemma {:induction false} EligiblesInOrder(s: seq<Record>, maxAttempts: Option<int>)
    requires InOrder(s)
    ensures InOrder(Eligibles(s, maxAttempts))
  {
    if s != [] {
      assert InOrder(s[1..]);
      EligiblesInOrder(s[1..], maxAttempts);
      EligiblesMembers(s[1..], maxAttempts);
      forall x | x in Eligibles(s[1..], maxAttempts) ensures s[0].createdAt < x.createdAt {
        var i :| 0 <= i < |s[1..]| && s[1..][i] == x;
        assert s[i + 1] == x;
      }
    }
  }

  lemma {:induction false} EligiblesDistinct(s: seq<Record>, maxAttempts: Option<int>)
    requires DistinctIds(s)
    ensures DistinctIds(Eligibles(s, maxAttempts)) && NoDuplicates(Eligibles(s, maxAttempts))
  {
    if s != [] {
      EligiblesDistinct(s[1..], maxAttempts);
      EligiblesMembers(s[1..], maxAttempts);
      forall x | x in Eligibles(s[1..], maxAttempts) ensures x.id != s[0].id {
        var i :| 0 <= i < |s[1..]| && s[1..][i] == x;
        assert s[i + 1] == x;
      }
    }
  }

  ghost predicate FreshHistory(s: seq<Record>, history: seq<Operation>)
    decreases |history|
  {
    history == [] || (FreshIds(s, history[0]) && FreshHistory(Memory(s, history[0]), history[1..]))
  }

  ghost predicate OrderlyHistory(s: seq<Record>, history: seq<Operation>)
    decreases |history|
  {
    history == [] || (Orderly(s, history[0]) && OrderlyHistory(Memory(s, history[0]), history[1..]))
  }

  function MemoryAfter(s: seq<Record>, history: seq<Operation>): seq<Record>
    decreases |history|
  {
    if history == [] then s else MemoryAfter(Memory(s, history[0]), history[1..])
  }

  /** None when some statement breaks the primary key. */
  function TableAfter(rows: Rows, history: seq<Operation>): Option<Rows>
    decreases |history|
  {
    if history == [] then Some(rows) else
    var next := Table(rows, history[0]);
    if next.None? then None else TableAfter(next.value, history[1..])
  }

  lemma {:induction false} HistoryKeepsSame(s: seq<Record>, rows: Rows, history: seq<Operation>)
    requires Same(s, rows) && FreshHistory(s, history)
    ensures TableAfter(rows, history).Some? && Same(MemoryAfter(s, history), TableAfter(rows, history).value)
    decreases |history|
  {
    if history != [] {
      StepKeepsSame(s, rows, history[0]);
      HistoryKeepsSame(Memory(s, history[0]), Table(rows, history[0]).value, history[1..]);
    }
  }

  lemma {:induction false} StepKeepsOrder(s: seq<Record>, rows: Rows, op: Operation)
    requires InOrder(s) && Same(s, rows) && Orderly(s, op)
    ensures InOrder(Memory(s, op))
  {
    match op
    case Save(records) => SaveKeepsSame(s, rows, records);
    case MarkPublished(ids, now) =>
      forall i | 0 <= i < |s| ensures MarkAll(s, ids, now)[i].createdAt == s[i].createdAt {
        MarkAllAt(s, ids, now, i);
      }
    case RecordFailedAttempts(ids) =>
      forall i | 0 <= i < |s| ensures CountAll(s, ids)[i].createdAt == s[i].createdAt {
        CountAllAt(s, ids, i);
      }
  }

  lemma {:induction false} OrderlyIsFresh(s: seq<Record>, rows: Rows, history: seq<Operation>)
    requires InOrder(s) && Same(s, rows) && OrderlyHistory(s, history)
    ensures FreshHistory(s, history) && InOrder(MemoryAfter(s, history))
    decreases |history|
  {
    if history != [] {
      StepKeepsSame(s, rows, history[0]);
      StepKeepsOrder(s, rows, history[0]);
      OrderlyIsFresh(Memory(s, history[0]), Table(rows, history[0]).value, history[1..]);
    }
  }

  /** Tables that hold the same records filter to the same set. */
  lemma {:induction false} SameFilter(s: seq<Record>, rows: Rows, maxAttempts: Option<int>)
    requires Same(s, rows)
    ensures ToSet(Eligibles(s, maxAttempts)) == Filtered(rows, maxAttempts)
  {
    var e := Eligibles(s, maxAttempts);
    EligiblesMembers(s, maxAttempts);
    forall x | x in Filtered(rows, maxAttempts) ensures x in ToSet(e) {
      var id :| id in rows && Eligible(rows[id], maxAttempts) && rows[id] == x;
      var i :| 0 <= i < |s| && s[i].id == id;
      assert s[i] == x;
    }
    forall x | x in ToSet(e) ensures x in Filtered(rows, maxAttempts) {
      assert x in e;
      var i :| 0 <= i < |s| && s[i] == x;
      assert rows[s[i].id] == x;
    }
  }

  /** Every result the SQL query allows on `rows`, and no other, is what the in-memory store fetches from `s`. */
  ghost predicate SameFetches(s: seq<Record>, rows: Rows, limit: nat, maxAttempts: Option<int>) {
    forall r: seq<Record> :: Ordered(Filtered(rows, maxAttempts), limit, r) <==> Fetch(s, limit, maxAttempts) == Ok(r)
  }

  /** After any history that saves fresh ids, in whatever creation order, the two stores' fetches agree if and only if
      each of the first `limit` eligible records saved is strictly older than the eligible ones saved after it. */
  lemma {:induction false} FetchesAgreeIff(history: seq<Operation>, limit: nat, maxAttempts: Option<int>)
    requires FreshHistory([], history) && ValidFetch(limit, maxAttempts)
    ensures TableAfter(map[], history).Some?
    ensures var s := MemoryAfter([], history);
      SameFetches(s, TableAfter(map[], history).value, limit, maxAttempts) <==> Ahead(Eligibles(s, maxAttempts), limit)
  {
    assert Same([], map[]);
    HistoryKeepsSame([], map[], history);
    var s, rows := MemoryAfter([], history), TableAfter(map[], history).value;
    SameFilter(s, rows, maxAttempts);
    EligiblesDistinct(s, maxAttempts);
    FrontOnlyIff(Eligibles(s, maxAttempts), limit);
    SameIsFrontOnly(s, rows, limit, maxAttempts);
  }

  lemma {:induction false} SameIsFrontOnly(s: seq<Record>, rows: Rows, limit: nat, maxAttempts: Option<int>)
    requires ToSet(Eligibles(s, maxAttempts)) == Filtered(rows, maxAttempts) && ValidFetch(limit, maxAttempts)
    ensures SameFetches(s, rows, limit, maxAttempts) <==> FrontOnly(Eligibles(s, maxAttempts), limit)
  {
    var e := Eligibles(s, maxAttempts);
    forall r: seq<Record> ensures Fetch(s, limit, maxAttempts) == Ok(r) <==> r == Take(e, limit) {
    }
    if SameFetches(s, rows, limit, maxAttempts) {
      forall r: seq<Record> ensures Ordered(ToSet(e), limit, r) <==> r == Take(e, limit) {
        assert Ordered(Filtered(rows, maxAttempts), limit, r) <==> Fetch(s, limit, maxAttempts) == Ok(r);
      }
    }
    if FrontOnly(e, limit) {
      forall r: seq<Record> ensures Ordered(Filtered(rows, maxAttempts), limit, r) <==> Fetch(s, limit, maxAttempts) == Ok(r) {
        assert Ordered(ToSet(e), limit, r) <==> r == Take(e, limit);
      }
    }
  }

  /** In particular they agree after any history that saves in strictly increasing creation order. */
  lemma {:induction false} FetchesAgree(history: seq<Operation>, limit: nat, maxAttempts: Option<int>, r: seq<Record>)
    requires OrderlyHistory([], history) && ValidFetch(limit, maxAttempts)
    ensures TableAfter(map[], history).Some?
    ensures Ordered(Filtered(TableAfter(map[], history).value, maxAttempts), limit, r)
      <==> Fetch(MemoryAfter([], history), limit, maxAttempts) == Ok(r)
  {
    assert Same([], map[]);
    OrderlyIsFresh([], map[], history);
    EligiblesInOrder(MemoryAfter([], history), maxAttempts);
    FetchesAgreeIff(history, limit, maxAttempts);
  }

  /** With equal creation times the SQL order is open and the two may differ. */
  lemma {:induction false} TiesAreOpen()
    ensures var a, b := Record(1, "", 0, None, 0), Record(2, "", 0, None, 0);
      var history := [Save([a, b])];
      && Fetch(MemoryAfter([], history), 1, None) == Ok([a])
      && TableAfter(map[], history).Some? && Ordered(Filtered(TableAfter(map[], history).value, None), 1, [b])
  {
    var a, b := Record(1, "", 0, None, 0), Record(2, "", 0, None, 0);
    assert [a, b][..1] == [a] && [a][..0] == [];
    assert SaveAll([], [a]) == [a];
    assert forall i :: 0 <= i < |[a]| ==> [a][i] == a;
    assert !HasId([a], 2);
    assert SaveAll([], [a, b]) == [a] + [b];
    assert Memory([], Save([a, b])) == [a, b];
    assert MemoryAfter([], [Save([a, b])]) == [a, b];
    assert [a, b][1..] == [b] && [b][1..] == [];
    assert Eligibles([b], None) == [b] && Eligibles([a, b], None) == [a, b];
    assert Insert(map[], [a]) == Some(map[1 := a]);
    assert Insert(map[], [a, b]) == Some(map[1 := a, 2 := b]);
    var rows := map[1 := a, 2 := b];
    assert rows[1] == a && rows[2] == b;
    assert Eligible(rows[1], None) && Eligible(rows[2], None);
    assert Filtered(rows, None) == {a, b};
    assert TableAfter(map[], [Save([a, b])]) == Some(rows);
  }
}

/** What inserting a list of records means. */
module OutboxInserts {
  import opened OutboxRecords
  import opened SqlStore
  import opened Wrappers

  predicate AllNew(rows: Rows, records: seq<Record>) {
    DistinctIds(records) && forall i :: 0 <= i < |records| ==> records[i].id !in rows
  }

  /** The rows as they were, and one for each record. */
  ghost predicate OneRowEach(rows: Rows, records: seq<Record>, after: Rows) {
    && (forall id :: id in after ==> id in rows || HasId(records, id))
    && (forall id :: id in rows ==> id in after && after[id] == rows[id])
    && (forall i :: 0 <= i < |records| ==> records[i].id in after && after[records[i].id] == records[i])
    && |after| == |rows| + |records|
  }

  /** All go in exactly when their ids are new and distinct, and then as one row each. */
  lemma {:induction false} InsertMeaning(rows: Rows, records: seq<Record>)
    ensures Insert(rows, records).Some? <==> AllNew(rows, records)
    ensures Insert(rows, records).Some? ==> OneRowEach(rows, records, Insert(rows, records).value)
  {
    if records != [] {
      var n := |records| - 1;
      InsertMeaning(rows, records[..n]);
      AllNewSplit(rows, records, n);
      if Insert(rows, records).Some? {
        OneRowMore(rows, records, n, Insert(rows, records[..n]).value);
      }
    }
  }

  lemma {:induction false} AllNewSplit(rows: Rows, records: seq<Record>, n: nat)
    requires |records| == n + 1
    ensures AllNew(rows, records)
      <==> AllNew(rows, records[..n]) && records[n].id !in rows && !HasId(records[..n], records[n].id)
  {
  }

  lemma {:induction false} OneRowMore(rows: Rows, records: seq<Record>, n: nat, before: Rows)
    requires |records| == n + 1 && OneRowEach(rows, records[..n], before) && records[n].id !in before
    ensures OneRowEach(rows, records, before[records[n].id := records[n]])
  {
    var last := records[n];
    var after := before[last.id := last];
    forall i | 0 <= i <= n ensures records[i].id in after && after[records[i].id] == records[i] {
      if i < n {
        assert records[..n][i] == records[i];
      }
    }
    forall id | id in after && id !in rows ensures HasId(records, id) {
      if id in before {
        HasIdInPrefix(records, n, id);
      } else {
        assert records[n].id == id;
      }
    }
    OneKeyMore(before, last);
  }

  lemma {:induction false} OneKeyMore(rows: Rows, last: Record)
    requires last.id !in rows
    ensures |rows[last.id := last]| == |rows| + 1
  {
  }

  lemma {:induction false} HasIdInPrefix(records: seq<Record>, n: nat, id: nat)
    requires n <= |records| && HasId(records[..n], id)
    ensures HasId(records, id)
  {
  }

  /** From a list and a table that agree, an operation goes through on both and leaves them in agreement exactly when a
      save brings fresh, distinct ids and a list of failures names no stored record twice. */
  lemma {:induction false} StepsAgreeIff(s: seq<Record>, rows: Rows, op: Operation)
    requires Same(s, rows)
    ensures Table(rows, op).Some? && Same(Memory(s, op), Table(rows, op).value) <==> FreshIds(s, op)
  {
    if FreshIds(s, op) {
      StepKeepsSame(s, rows, op);
    } else if op.Save? {
      InsertMeaning(rows, op.records);
      NewIsFresh(s, rows, op.records);
    } else {
      var i :| 0 <= i < |s| && !AtMostOnce(op.ids, s[i].id);
      CountsAgreeIff(s, rows, op.ids, i);
      CountAllAt(s, op.ids, i);
    }
  }

  lemma {:induction false} NewIsFresh(s: seq<Record>, rows: Rows, records: seq<Record>)
    requires Same(s, rows)
    ensures AllNew(rows, records) ==> DistinctIds(s + records)
  {
  }

  /** Saving a known id: the SQL insert fails, and the in-memory store replaces its record in place, so that an event
      published before is eligible again. */
  lemma {:induction false} SavingAgain(s: seq<Record>, rows: Rows, r: Record, i: nat, maxAttempts: Option<int>)
    requires Same(s, rows) && i < |s| && s[i].id == r.id
    ensures Table(rows, Save([r])) == None
    ensures Memory(s, Save([r])) == s[i := r] && DistinctIds(s[i := r])
    ensures Eligible(r, maxAttempts) ==> r in Eligibles(Memory(s, Save([r])), maxAttempts)
  {
    assert rows[s[i].id] == s[i];
    InsertStops(rows, [r], 0);
    assert SaveAll(s, [r]) == SaveOne(SaveAll(s, [r][..0]), r);
    assert SaveOne(s, r) == s[i := r];
    EligiblesMembers(s[i := r], maxAttempts);
    assert s[i := r][i] == r;
  }

  /** A record whose id is taken stops the whole list. */
  lemma {:induction false} InsertStops(rows: Rows, records: seq<Record>, i: nat)
    requires i < |records| && (records[i].id in rows || HasId(records[..i], records[i].id))
    ensures Insert(rows, records).None?
  {
    InsertMeaning(rows, records);
    if HasId(records[..i], records[i].id) {
      var j :| 0 <= j < i && records[..i][j].id == records[i].id;
      assert records[j].id == records[i].id;
    }
  }

  /** The next record of a list goes in unless its id is taken, and then the list as a whole cannot. */
  lemma {:induction false} NextInsert(rows: Rows, all: seq<Record>, k: nat)
    requires k < |all| && Insert(rows, all[..k]).Some?
    ensures all[..k + 1] == all[..k] + [all[k]]
    ensures if all[k].id in rows || HasId(all[..k], all[k].id) then Insert(rows, all).None? else Insert(rows, all[..k + 1]).Some?
  {
    if all[k].id in rows || HasId(all[..k], all[k].id) {
      InsertStops(rows, all, k);
    } else {
      InsertMeaning(rows, all[..k]);
      assert all[..k + 1][..k] == all[..k];
    }
  }
}
