/**
 * Reconciliation with the external withdrawal service (`ExternalWithdrawalManager`). Each
 * withdrawal is forwarded to the service and registered on an outstanding queue; a status pass
 * asks the service for the state of every registered withdrawal, calls the completion handler
 * for those that finished and drops them from the queue.
 *
 * The service is an oracle: whether `requestWithdrawal` was accepted, and what
 * `getRequestState` answers for each id during a pass (a state, or an exception). A fired
 * handler call is returned as a `Completion`; the only handler ever registered is the one that
 * submits the status to the account's shard queue.
 */
module ExternalWithdrawals {
  import opened Domain
  import opened Integration
  import Account

  /** `AccountWithdrawalRequest`. */
  datatype AccountWithdrawalRequest =
    AccountWithdrawalRequest(accountId: AccountId, withdrawalId: WithdrawalId, address: Address, amount: int)

  /** One call of the completion handler. */
  datatype Completion = Completion(request: AccountWithdrawalRequest, status: Account.WithdrawalStatus)

  /** What `getRequestState` does for one id: answers with a state, or throws (unknown id). */
  datatype StateQuery = Answered(state: WithdrawalState) | Threw

  /** Position of the first entry whose state query throws, or `|queue|` when none does. */
  function FirstThrow(queue: seq<AccountWithdrawalRequest>, service: WithdrawalId -> StateQuery): (k: nat)
    ensures k <= |queue|
    ensures forall j :: 0 <= j < k ==> service(queue[j].withdrawalId).Answered?
    ensures k < |queue| ==> service(queue[k].withdrawalId).Threw?
    ensures k == |queue| <==> AllAnswered(queue, service)
  {
    if queue == [] then 0
    else if service(queue[0].withdrawalId).Threw? then 0
    else 1 + FirstThrow(queue[1..], service)
  }

  /** No state query throws for the entries of `queue`. */
  predicate AllAnswered(queue: seq<AccountWithdrawalRequest>, service: WithdrawalId -> StateQuery)
  {
    forall j :: 0 <= j < |queue| ==> service(queue[j].withdrawalId).Answered?
  }

  /** The handler call the filter makes for one entry, if its state is not PROCESSING. */
  function FiredFor(request: AccountWithdrawalRequest, service: WithdrawalId -> StateQuery): seq<Completion>
  {
    match service(request.withdrawalId)
    case Answered(state) =>
      if state != Processing then [Completion(request, Account.StatusOf(state))] else []
    case Threw => []
  }

  /** The handler calls made while filtering `queue`, in queue order. */
  function Fired(queue: seq<AccountWithdrawalRequest>, service: WithdrawalId -> StateQuery): seq<Completion>
    decreases |queue|
  {
    if queue == [] then []
    else
      var n := |queue| - 1;
      Fired(queue[..n], service) + FiredFor(queue[n], service)
  }

  /** The entries of `queue` the service reports as PROCESSING, in queue order. */
  function Kept(queue: seq<AccountWithdrawalRequest>, service: WithdrawalId -> StateQuery): seq<AccountWithdrawalRequest>
    decreases |queue|
  {
    if queue == [] then []
    else
      var n := |queue| - 1;
      Kept(queue[..n], service) + (if service(queue[n].withdrawalId) == Answered(Processing) then [queue[n]] else [])
  }

  /** The requests the completions are about. */
  function Requests(completions: seq<Completion>): (r: seq<AccountWithdrawalRequest>)
    ensures |r| == |completions|
    ensures forall i :: 0 <= i < |completions| ==> r[i] == completions[i].request
  {
    if completions == [] then [] else [completions[0].request] + Requests(completions[1..])
  }

  class ExternalWithdrawalManager {
    /** The outstanding queue of (request, completion handler) pairs. */
    var withdrawalQueue: seq<AccountWithdrawalRequest>

    constructor ()
      ensures withdrawalQueue == []
    {
      withdrawalQueue := [];
    }

    /**
     * `withdraw`: forwards the request to the service; if the service refuses it the handler is
     * called at once with ERROR. Either way the request joins the tail of the outstanding queue.
     */
    method Withdraw(request: AccountWithdrawalRequest, requestAccepted: bool) returns (fired: seq<Completion>)
      modifies this
      ensures fired == if requestAccepted then [] else [Completion(request, Account.Error)]
      ensures withdrawalQueue == old(withdrawalQueue) + [request]
    {
      fired := [];
      if !requestAccepted {
        fired := [Completion(request, Account.Error)];
      }
      withdrawalQueue := withdrawalQueue + [request];
    }

    /**
     * One pass of `checkWithdrawalStatus`: queries the service for each outstanding entry in
     * order, firing the handler with the mapped status for each one that is no longer
     * PROCESSING, then removes the fired entries. A query that throws aborts the pass: the
     * handlers fired before it stay fired and nothing is removed.
     */
    method CheckWithdrawalStatus(service: WithdrawalId -> StateQuery) returns (fired: seq<Completion>)
      modifies this
      ensures fired == Fired(old(withdrawalQueue)[..FirstThrow(old(withdrawalQueue), service)], service)
      ensures !AllAnswered(old(withdrawalQueue), service) ==> withdrawalQueue == old(withdrawalQueue)
      ensures AllAnswered(old(withdrawalQueue), service) ==> withdrawalQueue == Kept(old(withdrawalQueue), service)
    {
      fired := [];
      var kept := [];
      var i := 0;
      while i < |withdrawalQueue|
        invariant 0 <= i <= |withdrawalQueue|
        invariant withdrawalQueue == old(withdrawalQueue)
        invariant forall j :: 0 <= j < i ==> service(withdrawalQueue[j].withdrawalId).Answered?
        invariant fired == Fired(withdrawalQueue[..i], service)
        invariant kept == Kept(withdrawalQueue[..i], service)
      {
        var request := withdrawalQueue[i];
        assert withdrawalQueue[..i + 1][..i] == withdrawalQueue[..i];
        var currentState := service(request.withdrawalId);
        if currentState.Threw? {
          assert FirstThrow(withdrawalQueue, service) == i;
          return;
        }
        if currentState.state != Processing {
          fired := fired + [Completion(request, Account.StatusOf(currentState.state))];
        } else {
          kept := kept + [request];
        }
        i := i + 1;
      }
      assert withdrawalQueue[..i] == withdrawalQueue;
      withdrawalQueue := kept;
    }
  }
}
