/**
 * What the account mutations guarantee: the locked-balance invariant, the effect of one
 * withdrawal, greedy admission of consecutive withdrawals, and that status updates settle a
 * withdrawal at most once however often they are repeated.
 */
module AccountProperties {
  import opened Wrappers
  import opened Account

  // ---------------------------------------------------------------------------------------
  // The invariant: locked = sum of the amounts of open withdrawals, 0 <= locked <= balance
  // ---------------------------------------------------------------------------------------

  /** What a withdrawal contributes to the locked balance. */
  function Locked(w: Withdrawal): int
  {
    if IsOpen(w.status) then w.amount else 0
  }

  /** Sum of the amounts of the PENDING and PROCESSING withdrawals. */
  function OpenSum(ws: seq<Withdrawal>): int
  {
    if ws == [] then 0 else OpenSum(ws[..|ws| - 1]) + Locked(ws[|ws| - 1])
  }

  predicate NonNegativeAmounts(ws: seq<Withdrawal>)
  {
    forall i :: 0 <= i < |ws| ==> 0 <= ws[i].amount
  }

  predicate Consistent(s: AccountState)
  {
    && DistinctIds(s.withdrawals)
    && NonNegativeAmounts(s.withdrawals)
    && s.snapshot.lockedBalance == OpenSum(s.withdrawals)
    && 0 <= s.snapshot.lockedBalance <= s.snapshot.balance
  }

  lemma OpenSumAppend(ws: seq<Withdrawal>, w: Withdrawal)
    ensures OpenSum(ws + [w]) == OpenSum(ws) + Locked(w)
  {
    assert (ws + [w])[..|ws|] == ws;
  }

  /** Replacing one entry changes the sum by the difference of the two contributions. */
  lemma {:induction false} OpenSumReplace(ws: seq<Withdrawal>, i: nat, w: Withdrawal)
    requires i < |ws|
    ensures OpenSum(ws[i := w]) == OpenSum(ws) - Locked(ws[i]) + Locked(w)
  {
    var n := |ws| - 1;
    if i == n {
      assert ws[i := w][..n] == ws[..n];
    } else {
      OpenSumReplace(ws[..n], i, w);
      assert ws[i := w][..n] == ws[..n][i := w];
    }
  }

  /** With non-negative amounts, the sum is non-negative and covers each open amount. */
  lemma {:induction false} OpenSumCovers(ws: seq<Withdrawal>, i: nat)
    requires NonNegativeAmounts(ws)
    requires i < |ws|
    ensures 0 <= Locked(ws[i]) <= OpenSum(ws)
  {
    var n := |ws| - 1;
    if i < n {
      OpenSumCovers(ws[..n], i);
    } else if n > 0 {
      OpenSumCovers(ws[..n], 0);
    }
  }

  /** A new account holds a consistent state exactly when its initial balance is not negative. */
  lemma NewAccountConsistent(initialBalance: int)
    ensures Consistent(AccountState(AccountBalance(initialBalance, 0), [])) <==> 0 <= initialBalance
  {
  }

  lemma CreditKeepsConsistent(s: AccountState, amount: int)
    requires Consistent(s)
    requires 0 <= amount
    ensures Consistent(Credited(s, amount))
  {
  }

  lemma AppendKeepsDistinct(ws: seq<Withdrawal>, w: Withdrawal)
    requires DistinctIds(ws)
    requires !HasId(ws, w.withdrawalId)
    ensures DistinctIds(ws + [w])
  {
    var ws' := ws + [w];
    forall i, j | 0 <= i < j < |ws'|
      ensures ws'[i].withdrawalId != ws'[j].withdrawalId
    {
      assert ws'[i] == ws[i];
      if j < |ws| {
        assert ws'[j] == ws[j];
      }
    }
  }

  lemma WithdrawKeepsConsistent(s: AccountState, id: WithdrawalId, addressId: string, amount: int)
    requires Consistent(s)
    requires !HasId(s.withdrawals, id)
    requires 0 <= amount
    ensures Consistent(Withdrawn(s, id, addressId, amount))
  {
    var t := Withdrawn(s, id, addressId, amount);
    var w := t.withdrawals[|s.withdrawals|];
    assert t.withdrawals == s.withdrawals + [w];
    assert w.withdrawalId == id && w.amount == amount;
    OpenSumAppend(s.withdrawals, w);
    AppendKeepsDistinct(s.withdrawals, w);
  }

  lemma StatusUpdateKeepsConsistent(s: AccountState, id: WithdrawalId, status: WithdrawalStatus)
    requires Consistent(s)
    requires HasId(s.withdrawals, id)
    ensures Consistent(StatusUpdated(s, id, status).value)
  {
    var i := IndexOf(s.withdrawals, id);
    var w := s.withdrawals[i];
    if IsOpen(w.status) {
      var w' := Withdrawal(w.withdrawalId, w.addressId, w.amount, status, NoMessage);
      OpenSumReplace(s.withdrawals, i, w');
      OpenSumCovers(s.withdrawals, i);
      var t := StatusUpdated(s, id, status).value;
      assert t.withdrawals == s.withdrawals[i := w'];
    }
  }

  /**
   * A status update for an open withdrawal rewrites its entry in place: same id, address and
   * amount, the new status, the message cleared. SUCCESS debits and unlocks the amount, ERROR
   * only unlocks it, PENDING and PROCESSING leave both balances alone.
   */
  lemma OpenWithdrawalUpdated(s: AccountState, id: WithdrawalId, status: WithdrawalStatus)
    requires HasId(s.withdrawals, id)
    requires IsOpen(Get(s.withdrawals, id).value.status)
    ensures var i := IndexOf(s.withdrawals, id);
            var w := s.withdrawals[i];
            var b := s.snapshot;
            var t := StatusUpdated(s, id, status).value;
            && t.withdrawals == s.withdrawals[i := Withdrawal(id, w.addressId, w.amount, status, NoMessage)]
            && Get(t.withdrawals, id) == Some(Withdrawal(id, w.addressId, w.amount, status, NoMessage))
            && t.snapshot == (match status
                              case Success => AccountBalance(b.balance - w.amount, b.lockedBalance - w.amount)
                              case Error => AccountBalance(b.balance, b.lockedBalance - w.amount)
                              case _ => b)
  {
    var i := IndexOf(s.withdrawals, id);
    var t := StatusUpdated(s, id, status).value;
    IndexOfSameKeys(s.withdrawals, t.withdrawals, id);
  }

  // ---------------------------------------------------------------------------------------
  // One withdrawal
  // ---------------------------------------------------------------------------------------

  /**
   * `withdraw` appends exactly one entry, under the fresh id, carrying the address and the
   * amount; ERROR with the insufficient-balance message and no lock when
   * `balance - lockedBalance < amount`, PENDING with an empty message and the amount locked
   * otherwise. The balance never changes and earlier entries keep their order and contents.
   */
  lemma WithdrawRecordsOneEntry(s: AccountState, id: WithdrawalId, addressId: string, amount: int)
    requires !HasId(s.withdrawals, id)
    ensures var t := Withdrawn(s, id, addressId, amount);
            var insufficient := s.snapshot.balance - s.snapshot.lockedBalance < amount;
            && |t.withdrawals| == |s.withdrawals| + 1
            && t.withdrawals[..|s.withdrawals|] == s.withdrawals
            && Get(t.withdrawals, id) == Some(
                 if insufficient then Withdrawal(id, addressId, amount, Error, InsufficientBalance(amount))
                 else Withdrawal(id, addressId, amount, Pending, NoMessage))
            && t.snapshot.balance == s.snapshot.balance
            && t.snapshot.lockedBalance == s.snapshot.lockedBalance + (if insufficient then 0 else amount)
  {
    var t := Withdrawn(s, id, addressId, amount);
    assert t.withdrawals[|s.withdrawals|].withdrawalId == id;
    assert IndexOf(t.withdrawals, id) == |s.withdrawals|;
  }

  // ---------------------------------------------------------------------------------------
  // Consecutive withdrawals: admission is greedy in submission order
  // ---------------------------------------------------------------------------------------

  datatype WithdrawalRequest = WithdrawalRequest(id: WithdrawalId, addressId: string, amount: int)

  /** The state after `withdraw` is applied, in turn, for each of the first `m` requests. */
  function WithdrawnFirst(s: AccountState, requests: seq<WithdrawalRequest>, m: nat): (t: AccountState)
    requires m <= |requests|
    ensures |t.withdrawals| == |s.withdrawals| + m
    ensures forall i :: 0 <= i < |s.withdrawals| ==> t.withdrawals[i] == s.withdrawals[i]
  {
    if m == 0 then s
    else
      var r := requests[m - 1];
      Withdrawn(WithdrawnFirst(s, requests, m - 1), r.id, r.addressId, r.amount)
  }

  /** Total amount locked by admitting, in order, each of the first `m` requests that fits what is still spendable. */
  function GreedyLocked(available: int, requests: seq<WithdrawalRequest>, m: nat): int
    requires m <= |requests|
  {
    if m == 0 then 0
    else
      var prior := GreedyLocked(available, requests, m - 1);
      prior + (if requests[m - 1].amount <= available - prior then requests[m - 1].amount else 0)
  }

  /** Request `k` fits what its predecessors left spendable. */
  predicate Admitted(available: int, requests: seq<WithdrawalRequest>, k: nat)
    requires k < |requests|
  {
    requests[k].amount <= available - GreedyLocked(available, requests, k)
  }

  /** The balance is unchanged and the locked balance grows by exactly the admitted amounts. */
  lemma {:induction false} AdmissionLocksGreedily(s: AccountState, requests: seq<WithdrawalRequest>, m: nat)
    requires m <= |requests|
    ensures var t := WithdrawnFirst(s, requests, m);
            && t.snapshot.balance == s.snapshot.balance
            && t.snapshot.lockedBalance
               == s.snapshot.lockedBalance + GreedyLocked(s.snapshot.balance - s.snapshot.lockedBalance, requests, m)
  {
    if m > 0 {
      var r := requests[m - 1];
      AdmissionLocksGreedily(s, requests, m - 1);
      WithdrawnSnapshot(WithdrawnFirst(s, requests, m - 1), r.id, r.addressId, r.amount);
    }
  }

  /** One withdrawal keeps the balance and locks its amount exactly when it fits. */
  lemma WithdrawnSnapshot(s: AccountState, id: WithdrawalId, addressId: string, amount: int)
    ensures var t := Withdrawn(s, id, addressId, amount);
            var fits := amount <= s.snapshot.balance - s.snapshot.lockedBalance;
            && t.snapshot.balance == s.snapshot.balance
            && t.snapshot.lockedBalance == s.snapshot.lockedBalance + (if fits then amount else 0)
  {
  }

  /**
   * Each withdrawal is checked against the snapshot its predecessor left: it is PENDING exactly
   * when it fits the spendable balance remaining after the earlier admitted ones, and ERROR
   * otherwise. Later withdrawals do not change its entry.
   */
  lemma {:induction false} AdmissionIsGreedy(s: AccountState, requests: seq<WithdrawalRequest>, m: nat, k: nat)
    requires k < m <= |requests|
    ensures var available := s.snapshot.balance - s.snapshot.lockedBalance;
            WithdrawnFirst(s, requests, m).withdrawals[|s.withdrawals| + k].status
            == (if Admitted(available, requests, k) then Pending else Error)
  {
    var prior := WithdrawnFirst(s, requests, m - 1);
    var r := requests[m - 1];
    WithdrawnEntries(prior, r.id, r.addressId, r.amount);
    if k == m - 1 {
      AdmissionLocksGreedily(s, requests, m - 1);
    } else {
      AdmissionIsGreedy(s, requests, m - 1, k);
    }
  }

  /** One withdrawal leaves the earlier entries alone and records PENDING exactly when it fits. */
  lemma WithdrawnEntries(s: AccountState, id: WithdrawalId, addressId: string, amount: int)
    ensures var t := Withdrawn(s, id, addressId, amount);
            && |t.withdrawals| == |s.withdrawals| + 1
            && (forall i :: 0 <= i < |s.withdrawals| ==> t.withdrawals[i] == s.withdrawals[i])
            && t.withdrawals[|s.withdrawals|].status
               == (if amount <= s.snapshot.balance - s.snapshot.lockedBalance then Pending else Error)
  {
  }

  /**
   * Admission is not "the longest prefix that fits": with a balance of 10, a withdrawal of 100
   * is rejected and a later one of 5 is still admitted.
   */
  lemma LaterSmallerWithdrawalIsAdmitted(first: WithdrawalId, second: WithdrawalId, addressId: string)
    requires first != second
    ensures var requests := [WithdrawalRequest(first, addressId, 100), WithdrawalRequest(second, addressId, 5)];
            var t := WithdrawnFirst(AccountState(AccountBalance(10, 0), []), requests, 2);
            && t.withdrawals[0].status == Error
            && t.withdrawals[1].status == Pending
            && t.snapshot == AccountBalance(10, 5)
  {
    var requests := [WithdrawalRequest(first, addressId, 100), WithdrawalRequest(second, addressId, 5)];
    var s := AccountState(AccountBalance(10, 0), []);
    AdmissionIsGreedy(s, requests, 2, 0);
    AdmissionIsGreedy(s, requests, 2, 1);
    AdmissionLocksGreedily(s, requests, 2);
    assert GreedyLocked(10, requests, 1) == 0;
  }

  // ---------------------------------------------------------------------------------------
  // Repeated status updates
  // ---------------------------------------------------------------------------------------

  /** Two ledgers with the same keys in the same positions locate a key at the same position. */
  lemma IndexOfSameKeys(ws: seq<Withdrawal>, ws': seq<Withdrawal>, id: WithdrawalId)
    requires HasId(ws, id)
    requires |ws'| == |ws|
    requires forall i :: 0 <= i < |ws| ==> ws'[i].withdrawalId == ws[i].withdrawalId
    ensures HasId(ws', id)
    ensures IndexOf(ws', id) == IndexOf(ws, id)
  {
    assert ws'[IndexOf(ws, id)].withdrawalId == id;
  }

  /** The state after the status updates `statuses` arrive for withdrawal `id`, in order. */
  function StatusesApplied(s: AccountState, id: WithdrawalId, statuses: seq<WithdrawalStatus>): (t: AccountState)
    requires HasId(s.withdrawals, id)
    ensures |t.withdrawals| == |s.withdrawals|
    ensures forall i :: 0 <= i < |s.withdrawals| ==>
      && t.withdrawals[i].withdrawalId == s.withdrawals[i].withdrawalId
      && t.withdrawals[i].amount == s.withdrawals[i].amount
    ensures HasId(t.withdrawals, id) && IndexOf(t.withdrawals, id) == IndexOf(s.withdrawals, id)
    decreases |statuses|
  {
    if statuses == [] then s
    else
      var next := StatusUpdated(s, id, statuses[0]).value;
      IndexOfSameKeys(s.withdrawals, next.withdrawals, id);
      StatusesApplied(next, id, statuses[1..])
  }

  /** The first ERROR or SUCCESS among the updates, if any. */
  function FirstTerminal(statuses: seq<WithdrawalStatus>): Option<WithdrawalStatus>
  {
    if statuses == [] then None
    else if !IsOpen(statuses[0]) then Some(statuses[0])
    else FirstTerminal(statuses[1..])
  }

  /** Once ERROR or SUCCESS, a withdrawal ignores every further update, and so does its account. */
  lemma {:induction false} TerminalWithdrawalIsFrozen(s: AccountState, id: WithdrawalId, statuses: seq<WithdrawalStatus>)
    requires HasId(s.withdrawals, id)
    requires !IsOpen(Get(s.withdrawals, id).value.status)
    ensures StatusesApplied(s, id, statuses) == s
    decreases |statuses|
  {
    if statuses != [] {
      assert StatusUpdated(s, id, statuses[0]) == Some(s);
      TerminalWithdrawalIsFrozen(s, id, statuses[1..]);
    }
  }

  /** Delivering the same terminal status twice has the effect of delivering it once. */
  lemma TerminalUpdateIsIdempotent(s: AccountState, id: WithdrawalId, status: WithdrawalStatus)
    requires HasId(s.withdrawals, id)
    requires !IsOpen(status)
    ensures var once := StatusUpdated(s, id, status).value;
            StatusUpdated(once, id, status) == Some(once)
  {
    var once := StatusUpdated(s, id, status).value;
    IndexOfSameKeys(s.withdrawals, once.withdrawals, id);
  }

  /**
   * However many status updates arrive for an open withdrawal, only the first ERROR or SUCCESS
   * among them takes effect: the balance drops by the amount once if that is SUCCESS, the
   * locked balance drops by the amount once if there is one, and the withdrawal keeps it.
   */
  lemma {:induction false} SettlesAtMostOnce(s: AccountState, id: WithdrawalId, statuses: seq<WithdrawalStatus>)
    requires HasId(s.withdrawals, id)
    requires IsOpen(Get(s.withdrawals, id).value.status)
    ensures var w := Get(s.withdrawals, id).value;
            var t := StatusesApplied(s, id, statuses);
            var first := FirstTerminal(statuses);
            && t.snapshot.balance == s.snapshot.balance - (if first == Some(Success) then w.amount else 0)
            && t.snapshot.lockedBalance == s.snapshot.lockedBalance - (if first.Some? then w.amount else 0)
            && (first.Some? ==> Get(t.withdrawals, id).value.status == first.value)
    decreases |statuses|
  {
    if statuses != [] {
      var w := Get(s.withdrawals, id).value;
      var next := StatusUpdated(s, id, statuses[0]).value;
      IndexOfSameKeys(s.withdrawals, next.withdrawals, id);
      var i := IndexOf(s.withdrawals, id);
      assert next.withdrawals[i] == Withdrawal(w.withdrawalId, w.addressId, w.amount, statuses[0], NoMessage);
      if IsOpen(statuses[0]) {
        SettlesAtMostOnce(next, id, statuses[1..]);
      } else {
        TerminalWithdrawalIsFrozen(next, id, statuses[1..]);
      }
    }
  }
}
