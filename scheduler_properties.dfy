/**
 * Ordering guarantees of the sharded scheduler: every operation on one account goes to the same
 * shard queue, and a run of submissions leaves each account's operations in that queue in the
 * order they were submitted.
 */
module SchedulerProperties {
  import opened Domain
  import opened OperationManager

  /** The queues after `doAccountOperationAsync` has been called for each of `operations` in turn. */
  function SubmittedAll(queues: seq<seq<AccountOperation>>, operations: seq<AccountOperation>,
                        hash: AccountId -> Int32): (r: seq<seq<AccountOperation>>)
    requires 0 < |queues|
    ensures |r| == |queues|
    decreases |operations|
  {
    if operations == [] then queues
    else
      var n := |operations| - 1;
      var before := SubmittedAll(queues, operations[..n], hash);
      Enqueued(before, ShardIndex(hash(operations[n].accountId), |queues|), operations[n])
  }

  /** The operations, in order, that are addressed to the shard `shard` of `concurrency`. */
  function OnShard(operations: seq<AccountOperation>, shard: nat, concurrency: int, hash: AccountId -> Int32)
    : seq<AccountOperation>
    requires 0 < concurrency
    decreases |operations|
  {
    if operations == [] then []
    else
      var n := |operations| - 1;
      OnShard(operations[..n], shard, concurrency, hash)
      + (if ShardIndex(hash(operations[n].accountId), concurrency) == shard then [operations[n]] else [])
  }

  /** The operations, in order, on account `accountId`. */
  function ForAccount(operations: seq<AccountOperation>, accountId: AccountId): seq<AccountOperation>
    decreases |operations|
  {
    if operations == [] then []
    else
      var n := |operations| - 1;
      ForAccount(operations[..n], accountId) + (if operations[n].accountId == accountId then [operations[n]] else [])
  }

  /** Each queue receives exactly the operations addressed to it, appended in submission order. */
  lemma {:induction false} SubmissionsAppendPerShard(queues: seq<seq<AccountOperation>>,
                                                    operations: seq<AccountOperation>,
                                                    hash: AccountId -> Int32, shard: nat)
    requires 0 < |queues| && shard < |queues|
    ensures SubmittedAll(queues, operations, hash)[shard]
            == queues[shard] + OnShard(operations, shard, |queues|, hash)
    decreases |operations|
  {
    if operations != [] {
      var n := |operations| - 1;
      SubmissionsAppendPerShard(queues, operations[..n], hash, shard);
    }
  }

  /** Selecting the operations on one account from a concatenation selects from each part. */
  lemma {:induction false} ForAccountAppend(xs: seq<AccountOperation>, ys: seq<AccountOperation>, accountId: AccountId)
    ensures ForAccount(xs + ys, accountId) == ForAccount(xs, accountId) + ForAccount(ys, accountId)
    decreases |ys|
  {
    if ys != [] {
      var n := |ys| - 1;
      assert (xs + ys)[..|xs| + n] == xs + ys[..n];
      ForAccountAppend(xs, ys[..n], accountId);
    } else {
      assert xs + ys == xs;
    }
  }

  /** An account's shard receives every operation on that account, in order. */
  lemma {:induction false} ShardHoldsAllOfItsAccounts(operations: seq<AccountOperation>, concurrency: int,
                                                     hash: AccountId -> Int32, accountId: AccountId)
    requires 0 < concurrency
    ensures ForAccount(OnShard(operations, ShardIndex(hash(accountId), concurrency), concurrency, hash), accountId)
            == ForAccount(operations, accountId)
    decreases |operations|
  {
    if operations != [] {
      var n := |operations| - 1;
      var shard := ShardIndex(hash(accountId), concurrency);
      ShardHoldsAllOfItsAccounts(operations[..n], concurrency, hash, accountId);
      var last := if ShardIndex(hash(operations[n].accountId), concurrency) == shard then [operations[n]] else [];
      ForAccountAppend(OnShard(operations[..n], shard, concurrency, hash), last, accountId);
    }
  }

  /**
   * FIFO per account: after a run of submissions, the operations on one account sit in its
   * shard queue after those already queued for it, in the order they were submitted, so a
   * worker that takes heads runs them in that order.
   */
  lemma SubmissionOrderIsKept(queues: seq<seq<AccountOperation>>, operations: seq<AccountOperation>,
                              hash: AccountId -> Int32, accountId: AccountId)
    requires 0 < |queues|
    ensures var shard := ShardIndex(hash(accountId), |queues|);
            ForAccount(SubmittedAll(queues, operations, hash)[shard], accountId)
            == ForAccount(queues[shard], accountId) + ForAccount(operations, accountId)
  {
    var shard := ShardIndex(hash(accountId), |queues|);
    SubmissionsAppendPerShard(queues, operations, hash, shard);
    ForAccountAppend(queues[shard], OnShard(operations, shard, |queues|, hash), accountId);
    ShardHoldsAllOfItsAccounts(operations, |queues|, hash, accountId);
  }

  /** Operations on other shards never reach this one. */
  lemma {:induction false} OtherShardsStayAway(operations: seq<AccountOperation>, concurrency: int,
                                              hash: AccountId -> Int32, shard: nat, accountId: AccountId)
    requires 0 < concurrency
    requires ShardIndex(hash(accountId), concurrency) != shard
    ensures ForAccount(OnShard(operations, shard, concurrency, hash), accountId) == []
    decreases |operations|
  {
    if operations != [] {
      var n := |operations| - 1;
      OtherShardsStayAway(operations[..n], concurrency, hash, shard, accountId);
      var last := if ShardIndex(hash(operations[n].accountId), concurrency) == shard then [operations[n]] else [];
      ForAccountAppend(OnShard(operations[..n], shard, concurrency, hash), last, accountId);
    }
  }
}
