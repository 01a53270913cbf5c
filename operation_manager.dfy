/**
 * The sharded operation scheduler (`InMemoryAccountOperationManager`). Operations on accounts are
 * queued on one FIFO per shard, the shard being chosen from the account id, and a worker step
 * (`processTask`) takes the head of a queue and applies it to the stored account.
 *
 * The closures the HTTP layer submits are modelled as the three commands it actually builds:
 * crediting, withdrawing, and delivering a withdrawal status.
 */
module OperationManager {
  import opened Wrappers
  import opened Domain
  import opened Account
  import opened Repository

  // ---------------------------------------------------------------------------------------
  // Shard selection
  // ---------------------------------------------------------------------------------------

  function Abs(x: int): (r: nat)
    ensures r == x || r == -x
  {
    if x < 0 then -x else x
  }

  /** Java's `%` on `int`: the remainder takes the sign of the dividend. */
  function JavaRemainder(a: int, b: int): (r: int)
    requires b > 0
    ensures a >= 0 ==> r >= 0
    ensures a < 0 ==> r <= 0
    ensures Abs(r) == Abs(a) % b
  {
    if a >= 0 then a % b else -((-a) % b)
  }

  /**
   * `Math.abs(hashCode % concurrency)`: a valid shard index, equal to `|hashCode| mod
   * concurrency`.
   */
  function ShardIndex(hash: Int32, concurrency: int): (r: nat)
    requires concurrency > 0
    ensures r < concurrency
    ensures r == Abs(hash as int) % concurrency
  {
    Abs(JavaRemainder(hash as int, concurrency))
  }

  // ---------------------------------------------------------------------------------------
  // Operations
  // ---------------------------------------------------------------------------------------

  /** The operations the HTTP layer submits for an account. */
  datatype Command =
    | Credit(amount: int)
    | Withdraw(addressId: string, amount: int)
    | UpdateStatus(withdrawalId: WithdrawalId, status: WithdrawalStatus)

  /** `AccountOperation`: the account to act on and what to do to it. */
  datatype AccountOperation = AccountOperation(accountId: AccountId, command: Command)

  /**
   * What one worker step did: nothing (empty queue); applied the operation, reporting the id of
   * the withdrawal it created, if any; or passed the failure to the operation's error handler.
   */
  datatype StepOutcome =
    | Idle
    | Applied(operation: AccountOperation, created: Option<WithdrawalId>)
    | Failed(operation: AccountOperation, error: Failure)

  /** The generator can supply a fresh withdrawal id to a withdrawal on this ledger. */
  predicate CanRun(command: Command, candidates: seq<WithdrawalId>, ws: seq<Withdrawal>)
  {
    command.Withdraw? ==> HasUnused(candidates, ws)
  }

  /**
   * The effect of a command on an account: the new state and the created withdrawal id, or the
   * exception the command raises (only a status update for an unknown withdrawal raises one).
   */
  function Execute(s: AccountState, command: Command, candidates: seq<WithdrawalId>)
    : (r: Result<(AccountState, Option<WithdrawalId>), Failure>)
    requires CanRun(command, candidates, s.withdrawals)
    ensures r.Err? <==> command.UpdateStatus? && !HasId(s.withdrawals, command.withdrawalId)
    ensures r.Err? ==> r.error == NullPointer
    ensures r.Ok? ==> (r.value.1.Some? <==> command.Withdraw?)
    ensures r.Ok? && command.Withdraw? ==>
              var id := r.value.1.value;
              && !HasId(s.withdrawals, id) && id in candidates
              && r.value.0 == Withdrawn(s, id, command.addressId, command.amount)
    ensures r.Ok? && command.Credit? ==> r.value.0 == Credited(s, command.amount)
    ensures r.Ok? && command.UpdateStatus? ==>
              StatusUpdated(s, command.withdrawalId, command.status) == Some(r.value.0)
  {
    match command
    case Credit(amount) => Ok((Credited(s, amount), None))
    case Withdraw(addressId, amount) =>
      var id := FirstUnused(candidates, s.withdrawals);
      Ok((Withdrawn(s, id, addressId, amount), Some(id)))
    case UpdateStatus(withdrawalId, status) =>
      match StatusUpdated(s, withdrawalId, status)
      case None => Err(NullPointer)
      case Some(t) => Ok((t, None))
  }

  /**
   * One worker step on a queue whose head is `operation`, over the states of the stored
   * accounts: the account is resolved (or the step fails with NotFound) and the command applied
   * (or the step fails with its exception). Only the operation's own account can change, and a
   * failed step changes no account.
   */
  function Apply(accounts: map<AccountId, AccountState>, operation: AccountOperation, candidates: seq<WithdrawalId>)
    : (r: (map<AccountId, AccountState>, StepOutcome))
    requires operation.accountId in accounts ==>
               CanRun(operation.command, candidates, accounts[operation.accountId].withdrawals)
    ensures r.1.Applied? || r.1.Failed?
    ensures r.1.operation == operation
    ensures r.1.Failed? ==> r.0 == accounts
    ensures operation.accountId !in accounts ==>
              r.1 == Failed(operation, NotFound(AccountNotFoundMessage(operation.accountId)))
    ensures r.0.Keys == accounts.Keys
    ensures forall id :: id in accounts && id != operation.accountId ==> r.0[id] == accounts[id]
    ensures r.1.Applied? ==>
              && operation.accountId in accounts
              && Execute(accounts[operation.accountId], operation.command, candidates)
                 == Ok((r.0[operation.accountId], r.1.created))
    ensures operation.accountId in accounts ==>
              (r.1.Applied? <==> Execute(accounts[operation.accountId], operation.command, candidates).Ok?)
    ensures r.1.Failed? && operation.accountId in accounts ==>
              Execute(accounts[operation.accountId], operation.command, candidates) == Err(r.1.error)
  {
    if operation.accountId !in accounts then
      (accounts, Failed(operation, NotFound(AccountNotFoundMessage(operation.accountId))))
    else
      match Execute(accounts[operation.accountId], operation.command, candidates)
      case Err(e) => (accounts, Failed(operation, e))
      case Ok((t, created)) => (accounts[operation.accountId := t], Applied(operation, created))
  }

  /**
   * The body of a submitted closure: runs the command on the account object in place. Its
   * effect is the one `Execute` describes; an exception leaves the account as it was.
   */
  method RunCommand(account: AccountImpl, command: Command, candidates: seq<WithdrawalId>)
    returns (r: Result<Option<WithdrawalId>, Failure>)
    requires account.Valid()
    requires CanRun(command, candidates, account.withdrawals)
    modifies account
    ensures account.Valid()
    ensures r.Ok? ==> Execute(old(account.State()), command, candidates) == Ok((account.State(), r.value))
    ensures r.Err? ==> Execute(old(account.State()), command, candidates) == Err(r.error)
    ensures r.Err? ==> account.State() == old(account.State())
  {
    match command {
      case Credit(amount) =>
        account.AddToBalance(amount);
        r := Ok(None);
      case Withdraw(addressId, amount) =>
        var id := account.Withdraw(addressId, amount, candidates);
        r := Ok(Some(id));
      case UpdateStatus(withdrawalId, status) =>
        var outcome := account.UpdateWithdrawalStatus(withdrawalId, status);
        if outcome.Fail? {
          r := Err(outcome.error);
        } else {
          r := Ok(None);
        }
    }
  }

  /** One response of `getWithdrawalStatus`. */
  datatype WithdrawalResponse =
    WithdrawalResponse(withdrawalId: WithdrawalId, status: WithdrawalStatus, amount: int, message: string)

  /** The ledger as responses: one per withdrawal, in ledger order, copying its fields. */
  function Responses(ws: seq<Withdrawal>): (r: seq<WithdrawalResponse>)
    ensures |r| == |ws|
    ensures forall i :: 0 <= i < |ws| ==>
              && r[i].withdrawalId == ws[i].withdrawalId
              && r[i].status == ws[i].status
              && r[i].amount == ws[i].amount
              && r[i].message == Text(ws[i].message)
  {
    if ws == [] then []
    else [WithdrawalResponse(ws[0].withdrawalId, ws[0].status, ws[0].amount, Text(ws[0].message))] + Responses(ws[1..])
  }

  // ---------------------------------------------------------------------------------------
  // The manager
  // ---------------------------------------------------------------------------------------

  class InMemoryAccountOperationManager {
    const accountRepository: AccountRepository
    const concurrency: int
    /** `AccountId.hashCode`. */
    const hash: AccountId -> Int32
    /** The shard queues, indexed by shard. */
    var queues: seq<seq<AccountOperation>>

    ghost predicate Valid()
      reads this, accountRepository, accountRepository.accountStorage.Values
    {
      && 0 < concurrency
      && |queues| == concurrency
      && accountRepository.Valid()
    }

    /** The state of every stored account. */
    ghost function Accounts(): map<AccountId, AccountState>
      reads accountRepository, accountRepository.accountStorage.Values
    {
      map id | id in accountRepository.accountStorage :: accountRepository.accountStorage[id].State()
    }

    /** The shard that serves every operation on `accountId`. */
    function ShardOf(accountId: AccountId): (r: nat)
      reads this
      requires 0 < concurrency
      ensures r < concurrency
    {
      ShardIndex(hash(accountId), concurrency)
    }

    /** One empty queue per shard index `0 .. concurrency - 1`. */
    constructor (accountRepository: AccountRepository, concurrency: int, hash: AccountId -> Int32)
      requires 0 < concurrency
      requires accountRepository.Valid()
      ensures Valid()
      ensures this.accountRepository == accountRepository
      ensures this.concurrency == concurrency && this.hash == hash
      ensures |queues| == concurrency
      ensures forall i :: 0 <= i < concurrency ==> queues[i] == []
    {
      this.accountRepository := accountRepository;
      this.concurrency := concurrency;
      this.hash := hash;
      var created: seq<seq<AccountOperation>> := [];
      var i := 0;
      while i < concurrency
        invariant 0 <= i <= concurrency
        invariant |created| == i
        invariant forall k :: 0 <= k < i ==> created[k] == []
      {
        created := created + [[]];
        i := i + 1;
      }
      queues := created;
    }

    /** `doAccountOperationAsync`: appends the operation to its account's shard queue. */
    method DoAccountOperationAsync(operation: AccountOperation)
      requires Valid()
      modifies this
      ensures Valid()
      ensures queues == Enqueued(old(queues), ShardOf(operation.accountId), operation)
    {
      var shard := ShardIndex(hash(operation.accountId), concurrency);
      queues := queues[shard := queues[shard] + [operation]];
    }

    /**
     * `processTask`: on an empty queue, nothing; otherwise removes the head and applies it to
     * the stored account, a failure going to the operation's error handler (`outcome`).
     * `candidates` are the ids the withdrawal id generator yields.
     */
    method ProcessTask(shard: nat, candidates: seq<WithdrawalId>) returns (outcome: StepOutcome)
      requires Valid()
      requires shard < concurrency
      requires queues[shard] != [] && queues[shard][0].accountId in Accounts() ==>
                 CanRun(queues[shard][0].command, candidates, Accounts()[queues[shard][0].accountId].withdrawals)
      modifies this, accountRepository.accountStorage.Values
      ensures Valid()
      ensures old(queues[shard]) == [] ==> outcome == Idle && queues == old(queues) && Accounts() == old(Accounts())
      ensures old(queues[shard]) != [] ==>
                && queues == old(queues)[shard := old(queues[shard])[1..]]
                && (Accounts(), outcome) == Apply(old(Accounts()), old(queues[shard])[0], candidates)
    {
      if queues[shard] == [] {
        return Idle;
      }
      var operation := queues[shard][0];
      queues := queues[shard := queues[shard][1..]];
      var found := accountRepository.Find(operation.accountId);
      if found.None? {
        return Failed(operation, NotFound(AccountNotFoundMessage(operation.accountId)));
      }
      var account := found.value;
      var result := RunCommand(account, operation.command, candidates);
      AccountsAfterUpdate(old(Accounts()), account);
      if result.Err? {
        outcome := Failed(operation, result.error);
        assert Accounts() == old(Accounts());
      } else {
        outcome := Applied(operation, result.value);
      }
    }

    /** After one account changed in place, the stored states differ in that account only. */
    lemma AccountsAfterUpdate(before: map<AccountId, AccountState>, account: AccountImpl)
      requires accountRepository.Valid()
      requires account.accountId in accountRepository.accountStorage
      requires accountRepository.accountStorage[account.accountId] == account
      requires before.Keys == accountRepository.accountStorage.Keys
      requires forall id :: id in before && id != account.accountId ==>
                 before[id] == accountRepository.accountStorage[id].State()
      ensures Accounts() == before[account.accountId := account.State()]
    {
    }

    /** `createAccount`: saves a new account with balance 0 and an empty ledger. */
    method CreateAccount(accountId: AccountId) returns (r: Result<AccountImpl, Failure>)
      requires Valid()
      modifies accountRepository
      ensures Valid()
      ensures accountId in old(Accounts()) ==>
                r == Err(Duplicate(DuplicateAccountMessage(accountId))) && Accounts() == old(Accounts())
      ensures accountId !in old(Accounts()) ==>
                && r.Ok? && fresh(r.value) && r.value.accountId == accountId
                && Accounts() == old(Accounts())[accountId := AccountState(AccountBalance(0, 0), [])]
    {
      var account := new AccountImpl(accountId);
      r := accountRepository.Save(account);
    }

    /** `getAccount`: the stored account, or NotFound. */
    function GetAccount(accountId: AccountId): (r: Result<AccountImpl, Failure>)
      reads this, accountRepository, accountRepository.accountStorage.Values
      requires Valid()
      ensures r.Ok? <==> accountId in Accounts()
      ensures r.Ok? ==> r.value.accountId == accountId && r.value.State() == Accounts()[accountId]
      ensures r.Err? ==> r.error == NotFound(AccountNotFoundMessage(accountId))
    {
      match accountRepository.Find(accountId)
      case None => Err(NotFound(AccountNotFoundMessage(accountId)))
      case Some(account) => Ok(account)
    }

    /** `validateAccountId`: passes exactly for stored accounts, failing with NotFound otherwise. */
    function ValidateAccountId(accountId: AccountId): (r: Outcome<Failure>)
      reads this, accountRepository, accountRepository.accountStorage.Values
      requires Valid()
      ensures r.Pass? <==> accountId in Accounts()
      ensures r.Fail? ==> r.error == NotFound(AccountNotFoundMessage(accountId))
    {
      match accountRepository.Find(accountId)
      case None => Fail(NotFound(AccountNotFoundMessage(accountId)))
      case Some(_) => Pass
    }

    /**
     * `getWithdrawalStatus`: one response per withdrawal of the account, in ledger order; an
     * unknown account fails with NotFound "<id> is not found".
     */
    function GetWithdrawalStatus(accountId: AccountId): (r: Result<seq<WithdrawalResponse>, Failure>)
      reads this, accountRepository, accountRepository.accountStorage.Values
      requires Valid()
      ensures r.Ok? <==> accountId in Accounts()
      ensures r.Ok? ==> r.value == Responses(Accounts()[accountId].withdrawals)
      ensures r.Err? ==> r.error == NotFound(AccountIdText(accountId) + " is not found")
    {
      match accountRepository.Find(accountId)
      case None => Err(NotFound(AccountIdText(accountId) + " is not found"))
      case Some(account) => Ok(Responses(account.withdrawals))
    }
  }

  /** The queues after `operation` is added to the tail of queue `shard`. */
  function Enqueued(queues: seq<seq<AccountOperation>>, shard: nat, operation: AccountOperation)
    : (r: seq<seq<AccountOperation>>)
    requires shard < |queues|
    ensures |r| == |queues|
    ensures r[shard] == queues[shard] + [operation]
    ensures forall k :: 0 <= k < |queues| && k != shard ==> r[k] == queues[k]
  {
    queues[shard := queues[shard] + [operation]]
  }
}
