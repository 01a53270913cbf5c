/**
 * What a status pass promises: it only ever reports ERROR or SUCCESS, each with the status the
 * service's state maps to; a completed pass splits the queue into the entries it fired for and
 * the entries still PROCESSING; an aborted pass leaves every fired entry queued, so its handler
 * fires again on a later pass. The account absorbs such repeats.
 */
module ReconciliationProperties {
  import opened Integration
  import opened Account
  import opened ExternalWithdrawals
  import AccountProperties

  /**
   * Every completion a pass fires is for an entry of the queue, carries ERROR or SUCCESS, and
   * carries the status the service's (non-PROCESSING) state maps to.
   */
  lemma {:induction false} FiredCompletionsAreTerminal(queue: seq<AccountWithdrawalRequest>,
                                                      service: WithdrawalId -> StateQuery)
    ensures forall c :: c in Fired(queue, service) ==>
              && c.request in queue
              && !IsOpen(c.status)
              && service(c.request.withdrawalId).Answered?
              && service(c.request.withdrawalId).state != Integration.Processing
              && StatusOf(service(c.request.withdrawalId).state) == c.status
    decreases |queue|
  {
    if queue != [] {
      var n := |queue| - 1;
      FiredCompletionsAreTerminal(queue[..n], service);
      forall c | c in Fired(queue[..n], service) ensures c.request in queue {
        assert c.request in queue[..n];
      }
    }
  }

  /** Every entry a pass keeps is in the queue and was reported PROCESSING. */
  lemma {:induction false} KeptEntriesAreProcessing(queue: seq<AccountWithdrawalRequest>,
                                                   service: WithdrawalId -> StateQuery)
    ensures forall e :: e in Kept(queue, service) ==>
              e in queue && service(e.withdrawalId) == Answered(Integration.Processing)
    decreases |queue|
  {
    if queue != [] {
      var n := |queue| - 1;
      KeptEntriesAreProcessing(queue[..n], service);
      forall e | e in Kept(queue[..n], service) ensures e in queue {
        assert e in queue[..n];
      }
    }
  }

  lemma RequestsAppend(xs: seq<Completion>, ys: seq<Completion>)
    ensures Requests(xs + ys) == Requests(xs) + Requests(ys)
  {
    assert forall i :: 0 <= i < |xs + ys| ==> Requests(xs + ys)[i] == (Requests(xs) + Requests(ys))[i];
  }

  /**
   * A pass in which no query throws fires for some entries and keeps the others: together they
   * are exactly the queue, each entry once.
   */
  lemma {:induction false} CompletedPassPartitionsQueue(queue: seq<AccountWithdrawalRequest>,
                                                       service: WithdrawalId -> StateQuery)
    requires AllAnswered(queue, service)
    ensures multiset(Requests(Fired(queue, service))) + multiset(Kept(queue, service)) == multiset(queue)
    decreases |queue|
  {
    if queue != [] {
      var n := |queue| - 1;
      var prefix := queue[..n];
      AnsweredPrefix(queue, service, n);
      CompletedPassPartitionsQueue(prefix, service);
      PartitionStep(queue, service);
      LastSplitsOff(queue);
      AddOne(multiset(Requests(Fired(queue, service))), multiset(Kept(queue, service)),
             multiset(Requests(Fired(prefix, service))), multiset(Kept(prefix, service)),
             multiset(queue), multiset(prefix), queue[n]);
    }
  }

  lemma LastSplitsOff(queue: seq<AccountWithdrawalRequest>)
    requires queue != []
    ensures multiset(queue) == multiset(queue[..|queue| - 1]) + multiset{queue[|queue| - 1]}
  {
    assert queue == queue[..|queue| - 1] + [queue[|queue| - 1]];
  }

  lemma AddOne<T>(fired: multiset<T>, kept: multiset<T>, fired0: multiset<T>, kept0: multiset<T>,
                  all: multiset<T>, all0: multiset<T>, x: T)
    requires fired0 + kept0 == all0
    requires fired + kept == fired0 + kept0 + multiset{x}
    requires all == all0 + multiset{x}
    ensures fired + kept == all
  {
  }

  lemma AnsweredPrefix(queue: seq<AccountWithdrawalRequest>, service: WithdrawalId -> StateQuery, n: nat)
    requires n <= |queue|
    requires AllAnswered(queue, service)
    ensures AllAnswered(queue[..n], service)
  {
    forall j | 0 <= j < n ensures service(queue[..n][j].withdrawalId).Answered? {
      assert queue[..n][j] == queue[j];
    }
  }

  /** The last entry of a queue is either fired for or kept. */
  lemma {:induction false} PartitionStep(queue: seq<AccountWithdrawalRequest>, service: WithdrawalId -> StateQuery)
    requires queue != []
    requires service(queue[|queue| - 1].withdrawalId).Answered?
    ensures var n := |queue| - 1;
            multiset(Requests(Fired(queue, service))) + multiset(Kept(queue, service))
            == multiset(Requests(Fired(queue[..n], service))) + multiset(Kept(queue[..n], service)) + multiset{queue[n]}
  {
    var n := |queue| - 1;
    var prefix := queue[..n];
    var last := queue[n];
    RequestsAppend(Fired(prefix, service), FiredFor(last, service));
    if service(last.withdrawalId).state == Integration.Processing {
      assert Requests(FiredFor(last, service)) == [];
      assert Kept(queue, service) == Kept(prefix, service) + [last];
    } else {
      assert Requests(FiredFor(last, service)) == [last];
      assert Kept(queue, service) == Kept(prefix, service);
    }
  }

  /** A completed pass never grows the queue. */
  lemma CompletedPassNeverGrows(queue: seq<AccountWithdrawalRequest>, service: WithdrawalId -> StateQuery)
    requires AllAnswered(queue, service)
    ensures |Fired(queue, service)| + |Kept(queue, service)| == |queue|
    ensures |Kept(queue, service)| <= |queue|
  {
    CompletedPassPartitionsQueue(queue, service);
    assert |multiset(Requests(Fired(queue, service)))| == |Fired(queue, service)|;
  }

  /**
   * When a query throws, the pass removes nothing although it has already fired handlers: every
   * fired completion concerns an entry that is still queued, and the next pass that gets the
   * same answers fires it again.
   */
  lemma AbortedPassKeepsFiredEntries(queue: seq<AccountWithdrawalRequest>, service: WithdrawalId -> StateQuery)
    requires FirstThrow(queue, service) < |queue|
    ensures forall c :: c in Fired(queue[..FirstThrow(queue, service)], service) ==> c.request in queue
  {
    var k := FirstThrow(queue, service);
    FiredCompletionsAreTerminal(queue[..k], service);
    forall c | c in Fired(queue[..k], service) ensures c.request in queue {
      assert c.request in queue[..k];
    }
  }

  /**
   * Entries queued behind a query that throws are never queried in that pass: no completion is
   * fired for an entry that does not occur before the throwing one. The aborted pass leaves the
   * queue as it was, so while that query keeps throwing, those entries never complete.
   */
  lemma EntriesBehindAThrowNeverFire(queue: seq<AccountWithdrawalRequest>, service: WithdrawalId -> StateQuery,
                                     e: AccountWithdrawalRequest)
    requires FirstThrow(queue, service) < |queue|
    requires e !in queue[..FirstThrow(queue, service)]
    ensures forall c :: c in Fired(queue[..FirstThrow(queue, service)], service) ==> c.request != e
  {
    FiredCompletionsAreTerminal(queue[..FirstThrow(queue, service)], service);
  }

  /**
   * A completion fired twice (once by an aborted pass, again by the next) reaches the account
   * as the same terminal status twice, which has the effect of delivering it once.
   */
  lemma RefiredCompletionIsAbsorbed(s: AccountState, c: Completion)
    requires HasId(s.withdrawals, c.request.withdrawalId)
    requires !IsOpen(c.status)
    ensures AccountProperties.StatusesApplied(s, c.request.withdrawalId, [c.status, c.status])
            == AccountProperties.StatusesApplied(s, c.request.withdrawalId, [c.status])
  {
    var id := c.request.withdrawalId;
    var once := StatusUpdated(s, id, c.status).value;
    AccountProperties.TerminalUpdateIsIdempotent(s, id, c.status);
    AccountProperties.IndexOfSameKeys(s.withdrawals, once.withdrawals, id);
    assert [c.status, c.status][1..] == [c.status];
    assert [c.status][1..] == [];
    assert AccountProperties.StatusesApplied(once, id, [c.status]) == once by {
      AccountProperties.TerminalWithdrawalIsFrozen(once, id, [c.status]);
    }
  }
}
