/** Inserting many rows, one at a time, into a table with unique constraints: the meaning of `bulk_create`. */
module Inserts {
  import opened Criteria

  /** Each unique constraint is a list of columns; the primary key is one of them. */
  type Constraints = seq<seq<string>>

  /** Two rows collide on a constraint when all its columns are equal and none is null. */
  predicate CollideOn(columns: seq<string>, a: Entity, b: Entity) {
    forall i :: 0 <= i < |columns| ==> !Get(a, columns[i]).Null? && Get(a, columns[i]) == Get(b, columns[i])
  }

  predicate Collide(u: Constraints, a: Entity, b: Entity) {
    exists k :: 0 <= k < |u| && CollideOn(u[k], a, b)
  }

  predicate Conflicts(u: Constraints, rows: seq<Entity>, e: Entity) {
    exists i :: 0 <= i < |rows| && Collide(u, rows[i], e)
  }

  predicate HasNull(columns: seq<string>, e: Entity) { exists i :: 0 <= i < |columns| && Get(e, columns[i]).Null? }

  /** A column that alone is unique, such as the primary key, is broken by exactly the rows with the same value in it. */
  lemma {:induction false} ConflictsOnOne(rows: seq<Entity>, e: Entity, column: string)
    ensures Conflicts([[column]], rows, e)
      <==> !Get(e, column).Null? && exists i :: 0 <= i < |rows| && Get(rows[i], column) == Get(e, column)
  {
    var one := [[column]];
    forall r: Entity ensures Collide(one, r, e) <==> !Get(r, column).Null? && Get(r, column) == Get(e, column) {
      assert one[0] == [column] && [column][0] == column;
      assert Collide(one, r, e) <==> CollideOn(one[0], r, e);
    }
  }

  /** A row with a null in each constraint conflicts with nothing. */
  lemma {:induction false} NullsDoNotConflict(u: Constraints, rows: seq<Entity>, e: Entity)
    requires forall k :: 0 <= k < |u| ==> HasNull(u[k], e)
    ensures !Conflicts(u, rows, e)
  {
    forall r: Entity, k | 0 <= k < |u| ensures !CollideOn(u[k], r, e) {
      assert HasNull(u[k], e);
    }
  }

  /** Rows after the inserts, and the indices that succeeded and failed. */
  datatype Inserted = Inserted(rows: seq<Entity>, succeeded: seq<nat>, failed: set<nat>)

  function InsertEach(u: Constraints, rows: seq<Entity>, entities: seq<Entity>): Inserted {
    if entities == [] then Inserted(rows, [], {}) else
    var n := |entities| - 1;
    var before := InsertEach(u, rows, entities[..n]);
    if Conflicts(u, before.rows, entities[n]) then before.(failed := before.failed + {n})
    else before.(rows := before.rows + [entities[n]], succeeded := before.succeeded + [n])
  }

  predicate AllUnique(u: Constraints, rows: seq<Entity>) {
    forall i, j :: 0 <= i < j < |rows| ==> !Collide(u, rows[i], rows[j])
  }

  function Picked(entities: seq<Entity>, indices: seq<nat>): (r: seq<Entity>)
    requires forall k :: 0 <= k < |indices| ==> indices[k] < |entities|
    ensures |r| == |indices|
  {
    seq(|indices|, k requires 0 <= k < |indices| => entities[indices[k]])
  }

  /** The indices are split between the two outcomes, in order, and the rows are the starting rows followed by the
      successes. */
  lemma {:induction false} OutcomesPartition(u: Constraints, rows: seq<Entity>, entities: seq<Entity>)
    ensures var r := InsertEach(u, rows, entities);
      && (forall k :: 0 <= k < |r.succeeded| ==> r.succeeded[k] < |entities|)
      && (forall j, k :: 0 <= j < k < |r.succeeded| ==> r.succeeded[j] < r.succeeded[k])
      && (forall i :: i in r.failed ==> i < |entities|)
      && (forall i :: 0 <= i < |entities| ==> (i in r.succeeded <==> i !in r.failed))
      && r.rows == rows + Picked(entities, r.succeeded)
  {
    if entities != [] {
      var n := |entities| - 1;
      OutcomesPartition(u, rows, entities[..n]);
      var before, r := InsertEach(u, rows, entities[..n]), InsertEach(u, rows, entities);
      assert Picked(entities[..n], before.succeeded) == Picked(entities, before.succeeded);
      if n !in r.failed {
        assert r.succeeded[|before.succeeded|] == n;
        assert r.rows == rows + Picked(entities, r.succeeded);
      }
    }
  }

  predicate CollidesWithSuccess(u: Constraints, entities: seq<Entity>, failed: set<nat>, n: nat, e: Entity)
    requires n <= |entities|
  {
    exists j: nat :: j < n && j !in failed && Collide(u, entities[j], e)
  }

  /** Only the items before `n` matter. */
  lemma {:induction false} PrefixCollides(u: Constraints, entities: seq<Entity>, failed: set<nat>, more: set<nat>, m: nat, n: nat, e: Entity)
    requires n <= m <= |entities| && forall j: nat :: j < m ==> (j in failed <==> j in more)
    ensures CollidesWithSuccess(u, entities[..m], failed, n, e) <==> CollidesWithSuccess(u, entities, more, n, e)
  {
  }

  lemma {:induction false} ConflictsMeaning(u: Constraints, rows: seq<Entity>, entities: seq<Entity>, e: Entity)
    ensures var r := InsertEach(u, rows, entities);
      Conflicts(u, r.rows, e) <==> Conflicts(u, rows, e) || CollidesWithSuccess(u, entities, r.failed, |entities|, e)
  {
    if entities != [] {
      var n := |entities| - 1;
      var before, r := InsertEach(u, rows, entities[..n]), InsertEach(u, rows, entities);
      ConflictsMeaning(u, rows, entities[..n], e);
      EarlierFailures(u, rows, entities);
      PrefixCollides(u, entities, before.failed, r.failed, n, n, e);
      LastCollides(u, entities, r.failed, n, e);
      ConflictsLast(u, before.rows, entities[n], e);
    }
  }

  lemma {:induction false} LastCollides(u: Constraints, entities: seq<Entity>, failed: set<nat>, n: nat, e: Entity)
    requires n < |entities|
    ensures CollidesWithSuccess(u, entities, failed, n + 1, e)
      <==> CollidesWithSuccess(u, entities, failed, n, e) || (n !in failed && Collide(u, entities[n], e))
  {
  }

  lemma {:induction false} ConflictsLast(u: Constraints, rows: seq<Entity>, last: Entity, e: Entity)
    ensures Conflicts(u, rows + [last], e) <==> Conflicts(u, rows, e) || Collide(u, last, e)
  {
    assert (rows + [last])[|rows|] == last;
    assert forall i :: 0 <= i < |rows| ==> (rows + [last])[i] == rows[i];
  }

  /** Item `i` fails exactly when it collides with a starting row or with an earlier item that succeeded. */
  lemma {:induction false} FailsIff(u: Constraints, rows: seq<Entity>, entities: seq<Entity>, i: nat)
    requires i < |entities|
    ensures var r := InsertEach(u, rows, entities);
      i in r.failed <==> Conflicts(u, rows, entities[i]) || CollidesWithSuccess(u, entities, r.failed, i, entities[i])
  {
    var n := |entities| - 1;
    var before, r := InsertEach(u, rows, entities[..n]), InsertEach(u, rows, entities);
    EarlierFailures(u, rows, entities);
    PrefixCollides(u, entities, before.failed, r.failed, n, i, entities[i]);
    if i < n {
      FailsIff(u, rows, entities[..n], i);
    } else {
      ConflictsMeaning(u, rows, entities[..n], entities[n]);
    }
  }

  lemma {:induction false} EarlierFailures(u: Constraints, rows: seq<Entity>, entities: seq<Entity>)
    requires entities != []
    ensures var n, r := |entities| - 1, InsertEach(u, rows, entities);
      forall j: nat :: j < n ==> (j in InsertEach(u, rows, entities[..n]).failed <==> j in r.failed)
    ensures var n := |entities| - 1; n !in InsertEach(u, rows, entities[..n]).failed
  {
    OutcomesPartition(u, rows, entities[..|entities| - 1]);
  }

  /** Unique rows stay unique. */
  lemma {:induction false} InsertEachKeepsUnique(u: Constraints, rows: seq<Entity>, entities: seq<Entity>)
    requires AllUnique(u, rows)
    ensures AllUnique(u, InsertEach(u, rows, entities).rows)
  {
    if entities != [] {
      InsertEachKeepsUnique(u, rows, entities[..|entities| - 1]);
    }
  }
}

/** A session on one transaction, and the bulk insert that gives every item its own savepoint. */
module Sessions {
  import opened Wrappers
  import opened Criteria
  import opened Inserts

  datatype SqlError = UniqueViolation | InFailedTransaction

  /** A failed statement breaks the transaction: nothing but a rollback works until one happens. */
  class SqlSession {
    const constraints: Constraints
    var committed: seq<Entity>              // the rows when the transaction began
    var rows: seq<Entity>                   // the rows this transaction sees
    var savepoints: seq<seq<Entity>>
    var broken: bool

    constructor (constraints: Constraints, rows: seq<Entity>)
      ensures this.constraints == constraints && committed == this.rows == rows && savepoints == [] && !broken
    {
      this.constraints := constraints;
      committed, this.rows, savepoints, broken := rows, rows, [], false;
    }

    method BeginNested()
      requires !broken
      modifies this`savepoints
      ensures savepoints == old(savepoints) + [rows]
    {
      savepoints := savepoints + [rows];
    }

    method Release()
      requires !broken && savepoints != []
      modifies this`savepoints
      ensures savepoints == old(savepoints)[..|old(savepoints)| - 1]
    {
      savepoints := savepoints[..|savepoints| - 1];
    }

    method RollbackToSavepoint()
      requires savepoints != []
      modifies this`savepoints, this`rows, this`broken
      ensures savepoints == old(savepoints)[..|old(savepoints)| - 1]
      ensures rows == old(savepoints)[|old(savepoints)| - 1] && !broken
    {
      rows := savepoints[|savepoints| - 1];
      savepoints := savepoints[..|savepoints| - 1];
      broken := false;
    }

    method Insert(e: Entity) returns (r: Option<SqlError>)
      modifies this`rows, this`broken
      ensures r == if old(broken) then Some(InFailedTransaction)
                   else if Conflicts(constraints, old(rows), e) then Some(UniqueViolation) else None
      ensures broken == r.Some?
      ensures rows == if r.Some? then old(rows) else old(rows) + [e]
    {
      if broken {
        return Some(InFailedTransaction);
      }
      if Conflicts(constraints, rows, e) {
        broken := true;
        return Some(UniqueViolation);
      }
      rows := rows + [e];
      r := None;
    }

    method Rollback()
      modifies this
      ensures rows == committed == old(committed) && savepoints == [] && !broken
    {
      rows, savepoints, broken := committed, [], false;
    }

    /** One item in a savepoint of its own. */
    method InsertNested(e: Entity) returns (ok: bool)
      requires !broken
      modifies this`rows, this`savepoints, this`broken
      ensures ok == !Conflicts(constraints, old(rows), e)
      ensures rows == if ok then old(rows) + [e] else old(rows)
      ensures !broken && savepoints == old(savepoints)
    {
      BeginNested();
      var error := Insert(e);
      ok := error.None?;
      if ok {
        Release();
      } else {
        RollbackToSavepoint();
      }
    }

    /** `bulk_create` on this session. The session ends unbroken, with its earlier pending rows in place, and a later
        rollback still goes back to the rows of its beginning. */
    method BulkCreate(entities: seq<Entity>) returns (succeeded: seq<nat>, failed: set<nat>)
      requires !broken
      modifies this`rows, this`savepoints, this`broken
      ensures Inserted(rows, succeeded, failed) == InsertEach(constraints, old(rows), entities)
      ensures !broken && savepoints == old(savepoints)
    {
      succeeded, failed := [], {};
      var i := 0;
      while i < |entities|
        invariant 0 <= i <= |entities|
        invariant Inserted(rows, succeeded, failed) == InsertEach(constraints, old(rows), entities[..i])
        invariant !broken && savepoints == old(savepoints)
      {
        var ok := InsertNested(entities[i]);
        if ok {
          succeeded := succeeded + [i];
        } else {
          failed := failed + {i};
        }
        i := i + 1;
        assert entities[..i][..i - 1] == entities[..i - 1];
      }
      assert entities[..i] == entities;
    }
  }
}
