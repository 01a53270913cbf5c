/**
 * The account aggregate (`AccountImpl`): a `{balance, lockedBalance}` snapshot and an
 * insertion-ordered ledger of withdrawals keyed by withdrawal id.
 *
 * The value-level functions `Credited`, `Withdrawn` and `StatusUpdated` say what each mutation
 * does to an `AccountState`; the class `AccountImpl` performs the mutations in place and its
 * methods are proved to produce exactly those states.
 */
module Account {
  import opened Wrappers
  import opened Domain
  import opened Format
  import Integration

  type WithdrawalId = Integration.WithdrawalId

  datatype WithdrawalStatus = Pending | Processing | Error | Success

  /** `WithdrawalStatus.of`: the account-side status for a state reported by the external service. */
  function StatusOf(state: Integration.WithdrawalState): (r: WithdrawalStatus)
    ensures r != Pending
    ensures r == Processing <==> state == Integration.Processing
    ensures r == Success <==> state == Integration.Completed
    ensures r == Error <==> state == Integration.Failed
  {
    match state
    case Processing => Processing
    case Completed => Success
    case Failed => Error
  }

  /** A withdrawal still holds its amount locked while it is PENDING or PROCESSING. */
  predicate IsOpen(status: WithdrawalStatus)
  {
    status == Pending || status == Processing
  }

  datatype AccountBalance = AccountBalance(balance: int, lockedBalance: int)

  /**
   * The message a withdrawal carries. The source only ever stores two: the empty one, and the
   * insufficient-balance message for the withdrawal's amount; `Text` gives the exact string.
   */
  datatype Message = NoMessage | InsufficientBalance(amount: int)

  datatype Withdrawal = Withdrawal(withdrawalId: WithdrawalId, addressId: string, amount: int,
                                   status: WithdrawalStatus, message: Message)

  /** The three-argument `Withdrawal` constructor: a new withdrawal is PENDING with an empty message. */
  function NewWithdrawal(id: WithdrawalId, addressId: string, amount: int): Withdrawal
  {
    Withdrawal(id, addressId, amount, Pending, NoMessage)
  }

  const InsufficientBalancePrefix := "You do not have enough balance to cover the withdrawal of amount "

  /** The string a message stands for: "" or the insufficient-balance text with the amount in `%d`. */
  function Text(m: Message): (s: string)
    ensures m.NoMessage? <==> s == ""
    ensures m.InsufficientBalance? ==>
              |InsufficientBalancePrefix| < |s| && s[..|InsufficientBalancePrefix|] == InsufficientBalancePrefix
  {
    match m
    case NoMessage => ""
    case InsufficientBalance(amount) => InsufficientBalancePrefix + Decimal(amount)
  }

  /** Different messages have different texts: holding the message instead of its text loses nothing. */
  lemma TextIsInjective(m: Message, m': Message)
    ensures Text(m) == Text(m') ==> m == m'
  {
    if Text(m) == Text(m') && m.InsufficientBalance? && m'.InsufficientBalance? {
      var k := |InsufficientBalancePrefix|;
      assert Text(m)[k..] == Decimal(m.amount);
      assert Text(m')[k..] == Decimal(m'.amount);
      DecimalRoundTrip(m.amount);
      DecimalRoundTrip(m'.amount);
    }
  }

  /** Everything an account holds besides its id. */
  datatype AccountState = AccountState(snapshot: AccountBalance, withdrawals: seq<Withdrawal>)

  // ---------------------------------------------------------------------------------------
  // The ledger: a LinkedHashMap from withdrawal id to withdrawal, as a sequence of entries
  // ---------------------------------------------------------------------------------------

  predicate HasId(ws: seq<Withdrawal>, id: WithdrawalId)
  {
    exists i :: 0 <= i < |ws| && ws[i].withdrawalId == id
  }

  /** No two entries share a key. */
  predicate DistinctIds(ws: seq<Withdrawal>)
  {
    forall i, j :: 0 <= i < j < |ws| ==> ws[i].withdrawalId != ws[j].withdrawalId
  }

  /** Position of the entry with key `id`. */
  function IndexOf(ws: seq<Withdrawal>, id: WithdrawalId): (i: nat)
    requires HasId(ws, id)
    ensures i < |ws| && ws[i].withdrawalId == id
    ensures forall j :: 0 <= j < i ==> ws[j].withdrawalId != id
  {
    if ws[0].withdrawalId == id then 0
    else
      assert HasId(ws[1..], id) by {
        var k :| 0 <= k < |ws| && ws[k].withdrawalId == id;
        assert ws[1..][k - 1].withdrawalId == id;
      }
      1 + IndexOf(ws[1..], id)
  }

  /** `LinkedHashMap.get`: the entry with key `id`, or null. */
  function Get(ws: seq<Withdrawal>, id: WithdrawalId): (r: Option<Withdrawal>)
    ensures r.Some? <==> HasId(ws, id)
    ensures r.Some? ==> r.value.withdrawalId == id && r.value in ws
  {
    if HasId(ws, id) then Some(ws[IndexOf(ws, id)]) else None
  }

  /** `LinkedHashMap.put`: an existing key keeps its position, a new key goes last. */
  function Put(ws: seq<Withdrawal>, w: Withdrawal): seq<Withdrawal>
  {
    if HasId(ws, w.withdrawalId) then ws[IndexOf(ws, w.withdrawalId) := w] else ws + [w]
  }

  // ---------------------------------------------------------------------------------------
  // Fresh withdrawal ids: the retry loop of createWithdrawal over the generator's outputs
  // ---------------------------------------------------------------------------------------

  /** The generator eventually yields an id that is not yet a key of the ledger. */
  predicate HasUnused(candidates: seq<WithdrawalId>, ws: seq<Withdrawal>)
  {
    exists k :: 0 <= k < |candidates| && !HasId(ws, candidates[k])
  }

  /** The first generated id that is not a key of the ledger: the one the retry loop keeps. */
  function FirstUnused(candidates: seq<WithdrawalId>, ws: seq<Withdrawal>): (id: WithdrawalId)
    requires HasUnused(candidates, ws)
    ensures !HasId(ws, id)
    ensures id in candidates
  {
    if !HasId(ws, candidates[0]) then candidates[0]
    else
      assert HasUnused(candidates[1..], ws) by {
        var k :| 0 <= k < |candidates| && !HasId(ws, candidates[k]);
        assert candidates[1..][k - 1] == candidates[k];
      }
      FirstUnused(candidates[1..], ws)
  }

  // ---------------------------------------------------------------------------------------
  // The three mutations, on values
  // ---------------------------------------------------------------------------------------

  /** `addToBalance`. */
  function Credited(s: AccountState, amount: int): AccountState
  {
    AccountState(AccountBalance(s.snapshot.balance + amount, s.snapshot.lockedBalance), s.withdrawals)
  }

  /**
   * `withdraw` once the retry loop has settled on the id `id` (one that is not yet in the
   * ledger): the withdrawal is recorded last; it locks its amount when the spendable balance
   * covers it and is recorded as ERROR otherwise.
   */
  function Withdrawn(s: AccountState, id: WithdrawalId, addressId: string, amount: int): AccountState
  {
    var b := s.snapshot;
    var insufficient := b.balance - b.lockedBalance < amount;
    var recorded := if insufficient then Withdrawal(id, addressId, amount, Error, InsufficientBalance(amount))
                    else NewWithdrawal(id, addressId, amount);
    var locked := if insufficient then b.lockedBalance else b.lockedBalance + amount;
    AccountState(AccountBalance(b.balance, locked), s.withdrawals + [recorded])
  }

  /**
   * `updateWithdrawalStatus`: None when `id` is not in the ledger (the source dereferences
   * null); the state unchanged when the withdrawal is already ERROR or SUCCESS; otherwise the
   * new status with an empty message, SUCCESS debiting and unlocking, ERROR only unlocking.
   */
  function StatusUpdated(s: AccountState, id: WithdrawalId, status: WithdrawalStatus): (r: Option<AccountState>)
    ensures r.Some? <==> HasId(s.withdrawals, id)
    ensures r.Some? ==> |r.value.withdrawals| == |s.withdrawals|
    ensures r.Some? ==> forall i :: 0 <= i < |s.withdrawals| ==>
      && r.value.withdrawals[i].withdrawalId == s.withdrawals[i].withdrawalId
      && r.value.withdrawals[i].amount == s.withdrawals[i].amount
    ensures r.Some? ==> forall i :: 0 <= i < |s.withdrawals| && s.withdrawals[i].withdrawalId != id ==>
      r.value.withdrawals[i] == s.withdrawals[i]
  {
    if !HasId(s.withdrawals, id) then None
    else
      var i := IndexOf(s.withdrawals, id);
      var w := s.withdrawals[i];
      if !IsOpen(w.status) then Some(s)
      else
        var b := s.snapshot;
        var b' := if status == Success then AccountBalance(b.balance - w.amount, b.lockedBalance - w.amount)
                  else if status == Error then AccountBalance(b.balance, b.lockedBalance - w.amount)
                  else b;
        Some(AccountState(b', s.withdrawals[i := Withdrawal(w.withdrawalId, w.addressId, w.amount, status, NoMessage)]))
  }

  // ---------------------------------------------------------------------------------------
  // The account object
  // ---------------------------------------------------------------------------------------

  class AccountImpl {
    const accountId: AccountId
    /** The `AtomicReference<AccountBalance>`: both balances are replaced together. */
    var snapshot: AccountBalance
    /** The `LinkedHashMap<WithdrawalId, Withdrawal>`, in insertion order. */
    var withdrawals: seq<Withdrawal>

    ghost predicate Valid()
      reads this
    {
      DistinctIds(withdrawals)
    }

    function State(): AccountState
      reads this
    {
      AccountState(snapshot, withdrawals)
    }

    /** `new AccountImpl(accountId)`: balance 0. */
    constructor (accountId: AccountId)
      ensures Valid()
      ensures this.accountId == accountId
      ensures State() == AccountState(AccountBalance(0, 0), [])
    {
      this.accountId := accountId;
      snapshot := AccountBalance(0, 0);
      withdrawals := [];
    }

    /** `new AccountImpl(accountId, initialBalance)`. */
    constructor WithInitialBalance(accountId: AccountId, initialBalance: int)
      ensures Valid()
      ensures this.accountId == accountId
      ensures State() == AccountState(AccountBalance(initialBalance, 0), [])
    {
      this.accountId := accountId;
      snapshot := AccountBalance(initialBalance, 0);
      withdrawals := [];
    }

    method AddToBalance(amount: int)
      requires Valid()
      modifies this
      ensures Valid()
      ensures State() == Credited(old(State()), amount)
    {
      var current := snapshot;
      snapshot := AccountBalance(current.balance + amount, current.lockedBalance);
    }

    /**
     * `createWithdrawal`: retries the generator until its id is not a key of the ledger, then
     * records a PENDING withdrawal under it, last.
     */
    method CreateWithdrawal(addressId: string, amount: int, candidates: seq<WithdrawalId>) returns (id: WithdrawalId)
      requires Valid()
      requires HasUnused(candidates, withdrawals)
      modifies this
      ensures Valid()
      ensures id == FirstUnused(candidates, old(withdrawals))
      ensures withdrawals == old(withdrawals) + [NewWithdrawal(id, addressId, amount)]
      ensures snapshot == old(snapshot)
    {
      var i := 0;
      while HasId(withdrawals, candidates[i])
        invariant 0 <= i < |candidates|
        invariant HasUnused(candidates[i..], withdrawals)
        invariant FirstUnused(candidates[i..], withdrawals) == FirstUnused(candidates, withdrawals)
        decreases |candidates| - i
      {
        assert candidates[i..][1..] == candidates[i + 1..];
        i := i + 1;
      }
      id := candidates[i];
      withdrawals := withdrawals + [NewWithdrawal(id, addressId, amount)];
    }

    /**
     * `withdraw`: always records a new withdrawal and returns its id; locks the amount when
     * `balance - lockedBalance >= amount`, otherwise turns the new withdrawal into ERROR.
     */
    method Withdraw(addressId: string, amount: int, candidates: seq<WithdrawalId>) returns (id: WithdrawalId)
      requires Valid()
      requires HasUnused(candidates, withdrawals)
      modifies this
      ensures Valid()
      ensures id == FirstUnused(candidates, old(withdrawals))
      ensures State() == Withdrawn(old(State()), id, addressId, amount)
    {
      ghost var before := withdrawals;
      id := CreateWithdrawal(addressId, amount, candidates);
      assert withdrawals[|before|].withdrawalId == id;
      assert IndexOf(withdrawals, id) == |before|;
      var current := snapshot;
      if current.balance - current.lockedBalance < amount {
        var withdrawal := Get(withdrawals, id).value;
        var message := InsufficientBalance(amount);
        withdrawals := Put(withdrawals, Withdrawal(withdrawal.withdrawalId, withdrawal.addressId, withdrawal.amount, Error, message));
      } else {
        snapshot := AccountBalance(current.balance, current.lockedBalance + amount);
      }
    }

    /** `updateWithdrawalStatus`; a missing withdrawal fails with a null dereference. */
    method UpdateWithdrawalStatus(id: WithdrawalId, status: WithdrawalStatus) returns (outcome: Outcome<Failure>)
      requires Valid()
      modifies this
      ensures Valid()
      ensures outcome.Fail? <==> !HasId(old(withdrawals), id)
      ensures outcome.Fail? ==> outcome.error == NullPointer && State() == old(State())
      ensures outcome.Pass? ==> StatusUpdated(old(State()), id, status) == Some(State())
    {
      var found := Get(withdrawals, id);
      if found.None? {
        return Fail(NullPointer);
      }
      var withdrawal := found.value;
      if withdrawal.status != Pending && withdrawal.status != Processing {
        return Pass;
      }
      var current := snapshot;
      if status == Success {
        snapshot := AccountBalance(current.balance - withdrawal.amount, current.lockedBalance - withdrawal.amount);
      }
      if status == Error {
        snapshot := AccountBalance(current.balance, current.lockedBalance - withdrawal.amount);
      }
      withdrawals := Put(withdrawals, Withdrawal(withdrawal.withdrawalId, withdrawal.addressId, withdrawal.amount, status, NoMessage));
      outcome := Pass;
    }
  }
}
