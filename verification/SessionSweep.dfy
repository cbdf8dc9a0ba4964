/**
 The sweep of expired rows, a batch at a time. Which expired rows a batch takes is the database's choice;
 a statement may fail, and each batch that ran stays done.
 */
module SessionSweep {

  type Rows = map<string, int>

  datatype SweepResult = Swept | StatementFailed | BatchesUsedUp

  const DEFAULT_BATCH: nat := 1000

  function Expired(rows: Rows, now: int): set<string> {
    set id | id in rows && rows[id] < now
  }

  /** Only expired rows are gone. */
  predicate OnlyExpiredRemoved(before: Rows, after: Rows, now: int) {
    && (forall id :: id in after ==> id in before && after[id] == before[id])
    && (forall id :: id in before && before[id] >= now ==> id in after)
  }

  function BatchSize(configured: int): (batch: nat)
    ensures batch > 0 && (configured > 0 ==> batch == configured)
  {
    if configured <= 0 then DEFAULT_BATCH else configured
  }

  predicate SomeFail(fails: nat -> bool, n: nat) {
    exists i :: 0 <= i < n && fails(i)
  }

  class SessionTable {
    var rows: Rows

    constructor (rows: Rows)
      ensures this.rows == rows
    {
      this.rows := rows;
    }

    /** One statement: at most `batch` expired rows go, and all of them when there are no more. */
    method DeleteBatch(now: int, batch: nat) returns (affected: nat)
      modifies this
      ensures OnlyExpiredRemoved(old(rows), rows, now)
      ensures affected == if |Expired(old(rows), now)| < batch then |Expired(old(rows), now)| else batch
      ensures |Expired(rows, now)| == |Expired(old(rows), now)| - affected
    {
      affected := 0;
      var left := Expired(rows, now);
      while left != {} && affected < batch
        invariant left == Expired(rows, now) && affected <= batch
        invariant OnlyExpiredRemoved(old(rows), rows, now)
        invariant |left| + affected == |Expired(old(rows), now)|
        decreases |left|
      {
        var id :| id in left;
        rows := rows - {id};
        left := left - {id};
        affected := affected + 1;
        assert left == Expired(rows, now);
      }
    }

    /**
     Sweeps until a batch comes back short. With no statement failing it reports success exactly when fewer
     rows had expired than all its batches hold together, and then none is left. So of exactly that many it
     leaves none, and still reports that some remain.
     */
    method DeleteExpired(now: int, configured: int, maxBatches: nat, fails: nat -> bool) returns (result: SweepResult)
      modifies this
      ensures OnlyExpiredRemoved(old(rows), rows, now)
      ensures result.Swept? ==> Expired(rows, now) == {}
      ensures result.BatchesUsedUp? ==>
        |Expired(rows, now)| == |Expired(old(rows), now)| - maxBatches * BatchSize(configured)
      ensures !SomeFail(fails, maxBatches) ==>
        (result.Swept? <==> |Expired(old(rows), now)| < maxBatches * BatchSize(configured))
      ensures !SomeFail(fails, maxBatches) ==> !result.StatementFailed?
      ensures !SomeFail(fails, maxBatches) ==>
        (result.BatchesUsedUp? && Expired(rows, now) == {} <==>
         |Expired(old(rows), now)| == maxBatches * BatchSize(configured))
    {
      var batch := BatchSize(configured);
      for i := 0 to maxBatches
        invariant OnlyExpiredRemoved(old(rows), rows, now)
        invariant |Expired(rows, now)| == |Expired(old(rows), now)| - i * batch
      {
        if fails(i) {
          return StatementFailed;
        }
        var affected := DeleteBatch(now, batch);
        BatchesAddUp(i, maxBatches, batch);
        if affected < batch {
          return Swept;
        }
      }
      return BatchesUsedUp;
    }
  }

  /** Two expired rows and two batches of one: the sweep says rows remain, and none does. */
  method ExactMultipleIsMisreported() returns (result: SweepResult, left: set<string>)
    ensures result.BatchesUsedUp? && left == {}
  {
    var rows := map["a" := 0, "b" := 0];
    var table := new SessionTable(rows);
    assert Expired(rows, 1) == {"a", "b"};
    assert "a"[0] != "b"[0];
    assert |Expired(rows, 1)| == 2;
    result := table.DeleteExpired(1, 1, 2, i => false);
    left := Expired(table.rows, 1);
  }

  lemma BatchesAddUp(i: nat, n: nat, batch: nat)
    requires i < n
    ensures i * batch + batch == (i + 1) * batch <= n * batch
  {
  }
}
