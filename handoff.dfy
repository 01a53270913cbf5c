/**
 * The closure the HTTP layer submits for a new withdrawal (`Accounts.createWithdrawal`): it
 * records the withdrawal on the account and then forwards it to the external service through
 * `ExternalWithdrawalManager.withdraw`, whatever the account decided. The completion handler it
 * registers (`Accounts.updateWithdrawalStatus`) submits the reported status to the account's
 * shard queue.
 */
module Handoff {
  import opened Wrappers
  import opened Account
  import opened Integration
  import opened OperationManager
  import opened ExternalWithdrawals
  import AccountProperties

  /** `Accounts.updateWithdrawalStatus`: a completion becomes a status update on its account. */
  function StatusOperation(c: Completion): AccountOperation
  {
    AccountOperation(c.request.accountId, UpdateStatus(c.request.withdrawalId, c.status))
  }

  /**
   * The submitted closure run on the stored account: `withdraw` on the account, then the
   * request (the fresh id, the address, the amount) goes to the external manager, which queues
   * it as outstanding; if the service refuses it, the handler at once submits an ERROR update
   * for that withdrawal to the account's own shard queue.
   */
  method WithdrawAndForward(account: AccountImpl, addressId: string, amount: int, candidates: seq<WithdrawalId>,
                            external: ExternalWithdrawalManager, requestAccepted: bool,
                            manager: InMemoryAccountOperationManager)
    returns (id: WithdrawalId)
    requires account.Valid()
    requires HasUnused(candidates, account.withdrawals)
    requires manager.Valid()
    modifies account, external, manager
    ensures account.Valid() && manager.Valid()
    ensures id == FirstUnused(candidates, old(account.withdrawals))
    ensures account.State() == Withdrawn(old(account.State()), id, addressId, amount)
    ensures external.withdrawalQueue
            == old(external.withdrawalQueue) + [AccountWithdrawalRequest(account.accountId, id, Address(addressId), amount)]
    ensures manager.queues
            == if requestAccepted then old(manager.queues)
               else Enqueued(old(manager.queues), manager.ShardOf(account.accountId),
                             AccountOperation(account.accountId, UpdateStatus(id, Error)))
  {
    id := account.Withdraw(addressId, amount, candidates);
    var request := AccountWithdrawalRequest(account.accountId, id, Address(addressId), amount);
    var fired := external.Withdraw(request, requestAccepted);
    if fired != [] {
      manager.DoAccountOperationAsync(StatusOperation(fired[0]));
    }
  }

  /**
   * A withdrawal the account recorded as ERROR (insufficient balance) is still forwarded, and
   * whatever status the service later reports for it, SUCCESS included, leaves the account as
   * it is: a payout the service makes for it is never debited.
   */
  lemma RejectedWithdrawalIgnoresSettlement(s: AccountState, id: WithdrawalId, addressId: string, amount: int,
                                            status: WithdrawalStatus)
    requires !HasId(s.withdrawals, id)
    requires s.snapshot.balance - s.snapshot.lockedBalance < amount
    ensures var t := Withdrawn(s, id, addressId, amount);
            StatusUpdated(t, id, status) == Some(t)
  {
    AccountProperties.WithdrawRecordsOneEntry(s, id, addressId, amount);
  }

  /**
   * An admitted withdrawal that the service refuses is undone by the ERROR update the handler
   * submits: both balances are back where they were, and the entry stays, as ERROR with no
   * message.
   */
  lemma RefusedWithdrawalIsRolledBack(s: AccountState, id: WithdrawalId, addressId: string, amount: int)
    requires !HasId(s.withdrawals, id)
    requires amount <= s.snapshot.balance - s.snapshot.lockedBalance
    ensures StatusUpdated(Withdrawn(s, id, addressId, amount), id, Error)
            == Some(AccountState(s.snapshot, s.withdrawals + [Withdrawal(id, addressId, amount, Error, NoMessage)]))
  {
    var t := Withdrawn(s, id, addressId, amount);
    AccountProperties.WithdrawRecordsOneEntry(s, id, addressId, amount);
    assert IndexOf(t.withdrawals, id) == |s.withdrawals|;
    assert t.withdrawals[|s.withdrawals| := Withdrawal(id, addressId, amount, Error, NoMessage)]
           == s.withdrawals + [Withdrawal(id, addressId, amount, Error, NoMessage)];
  }
}
