/** Fencing and spawn exclusion over any sequence of committed authority transitions.
    Models the guarantees of src/lubko/lifecycle_authority.py. */
module AuthorityHistory {
  import opened Common
  import opened AuthorityRow
  import opened AuthorityOps

  /** Rows joined, one by one, by the transitions of committed operations. */
  ghost predicate RowRun(rows: seq<Row>, ops: seq<Op>) {
    && |rows| == |ops| + 1
    && (forall i :: 0 <= i < |rows| ==> Exclusive(rows[i]))
    && (forall i :: 0 <= i < |ops| ==> Effect(ops[i], rows[i], rows[i + 1]))
  }

  /** The epoch never decreases, and strictly rises across every committed take. */
  lemma {:induction false} EpochMonotone(rows: seq<Row>, ops: seq<Op>, i: nat, j: nat)
    requires RowRun(rows, ops) && i <= j <= |ops|
    ensures rows[i].epoch <= rows[j].epoch
    ensures forall k :: i <= k < j && ops[k].Take? ==> rows[i].epoch < rows[j].epoch
    decreases j
  {
    if i < j {
      EpochMonotone(rows, ops, i, j - 1);
      assert Effect(ops[j - 1], rows[j - 1], rows[j]);
    }
  }

  /** Each epoch value has one owner for the whole run. */
  lemma {:induction false} OneOwnerPerEpoch(rows: seq<Row>, ops: seq<Op>, i: nat, j: nat)
    requires RowRun(rows, ops) && i <= j <= |ops|
    requires rows[i].epoch == rows[j].epoch
    ensures rows[i].owner == rows[j].owner
    decreases j
  {
    if i < j {
      EpochMonotone(rows, ops, i, j - 1);
      assert Effect(ops[j - 1], rows[j - 1], rows[j]);
      OneOwnerPerEpoch(rows, ops, i, j - 1);
    }
  }

  predicate Claimed(op: Op) { !op.Take? && !op.Migrate? }

  /** Fencing: once a take commits, no commit, clear or publish under a claim from before it
      ever commits again - not even one that read the row before the take. What does commit
      is the holder of the epoch it claims. */
  lemma Fenced(rows: seq<Row>, ops: seq<Op>, i: nat, j: nat)
    requires RowRun(rows, ops) && i < j < |ops| && ops[i].Take? && Claimed(ops[j])
    ensures ops[j].claim.epoch > rows[i].epoch
    ensures ops[j].claim.epoch == rows[i + 1].epoch ==> ops[j].claim.holder == ops[i].owner
  {
    EpochMonotone(rows, ops, i, j);
    assert Effect(ops[j], rows[j], rows[j + 1]);
    assert Effect(ops[i], rows[i], rows[i + 1]);
    if ops[j].claim.epoch == rows[i + 1].epoch {
      OneOwnerPerEpoch(rows, ops, i + 1, j);
    }
  }

  /** Something released the obligation committed at i before k: a clear-spawn, or a publish
      followed by a clear-worker. */
  ghost predicate Released(ops: seq<Op>, i: nat, k: nat)
    requires k <= |ops|
  {
    || (exists m :: i < m < k && ops[m].ClearSpawn?)
    || (exists p, m :: i < p < m < k && ops[p].Publish? && ops[m].ClearWorker?)
  }

  ghost predicate PublishedBetween(ops: seq<Op>, i: nat, k: nat)
    requires k <= |ops|
  {
    exists p :: i < p < k && ops[p].Publish?
  }

  /** Until it is released, a committed obligation stays in the row as itself or, once
      published, as a worker with its token - across every takeover. */
  lemma {:induction false} ObligationPersists(rows: seq<Row>, ops: seq<Op>, i: nat, k: nat)
    requires RowRun(rows, ops) && i < k <= |ops| && ops[i].CommitSpawn? && !Released(ops, i, k)
    ensures if PublishedBetween(ops, i, k)
            then rows[k].worker.Some? && rows[k].worker.value.token == ops[i].spawn.token
            else rows[k].spawn == Some(ops[i].spawn)
    decreases k
  {
    assert Effect(ops[k - 1], rows[k - 1], rows[k]);
    if k > i + 1 {
      assert !Released(ops, i, k - 1);
      ObligationPersists(rows, ops, i, k - 1);
      assert ops[k - 1].Publish? ==> PublishedBetween(ops, i, k);
      assert Exclusive(rows[k - 1]);
      if PublishedBetween(ops, i, k - 1) {
        var p :| i < p < k - 1 && ops[p].Publish?;
        assert !ops[k - 1].ClearWorker?;
      }
    }
  }

  /** Between two committed spawns there is a release of the first. */
  lemma SpawnsAreSeparated(rows: seq<Row>, ops: seq<Op>, i: nat, j: nat)
    requires RowRun(rows, ops) && i < j < |ops| && ops[i].CommitSpawn? && ops[j].CommitSpawn?
    ensures Released(ops, i, j)
  {
    assert Effect(ops[j], rows[j], rows[j + 1]);
    if !Released(ops, i, j) {
      ObligationPersists(rows, ops, i, j);
    }
  }

  /** In a run that starts from a row without sections and never migrates, every obligation
      was committed, and every published worker carries the token of an obligation committed
      before it was published. */
  lemma {:induction false} TokensWereCommitted(rows: seq<Row>, ops: seq<Op>, k: nat)
    requires RowRun(rows, ops) && k <= |ops|
    requires rows[0].spawn.None? && rows[0].worker.None?
    requires forall i :: 0 <= i < |ops| ==> !ops[i].Migrate?
    ensures rows[k].spawn.Some? ==>
            exists i :: 0 <= i < k && ops[i].CommitSpawn? && ops[i].spawn == rows[k].spawn.value
    ensures rows[k].worker.Some? ==>
            exists i, p :: 0 <= i < p < k && ops[i].CommitSpawn? && ops[p].Publish?
              && ops[i].spawn.token == rows[k].worker.value.token == ops[p].worker.token
  {
    if k > 0 {
      TokensWereCommitted(rows, ops, k - 1);
      assert Effect(ops[k - 1], rows[k - 1], rows[k]);
      if ops[k - 1].Publish? {
        var i :| 0 <= i < k - 1 && ops[i].CommitSpawn? && ops[i].spawn == rows[k - 1].spawn.value;
        assert ops[i].spawn.token == ops[k - 1].worker.token;
      }
    }
  }
}
