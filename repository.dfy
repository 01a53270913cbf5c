/**
 * The account store (`AccountRepositoryImpl`): a map from account id to account object that
 * only ever grows, where an id can be saved once.
 */
module Repository {
  import opened Wrappers
  import opened Domain
  import opened Account

  /** `putIfAbsent` on a map value: a key already present keeps its value. */
  function PutIfAbsent<V>(m: map<AccountId, V>, id: AccountId, v: V): (r: map<AccountId, V>)
    ensures id in r
    ensures id in m ==> r == m
    ensures id !in m ==> r[id] == v
    ensures forall other :: other != id ==> (other in r <==> other in m)
    ensures forall other :: other != id && other in m ==> r[other] == m[other]
  {
    if id in m then m else m[id := v]
  }

  /** The store after saving each of `saves` in turn, ignoring the saves that fail as duplicates. */
  function SavedAll<V>(m: map<AccountId, V>, saves: seq<(AccountId, V)>): map<AccountId, V>
    decreases |saves|
  {
    if saves == [] then m
    else
      var n := |saves| - 1;
      PutIfAbsent(SavedAll(m, saves[..n]), saves[n].0, saves[n].1)
  }

  /** Whether some save in `saves` is for `id`. */
  predicate SavesId<V>(saves: seq<(AccountId, V)>, id: AccountId)
  {
    exists i :: 0 <= i < |saves| && saves[i].0 == id
  }

  /** Position of the first save for `id`. */
  function FirstSave<V>(saves: seq<(AccountId, V)>, id: AccountId): (i: nat)
    requires SavesId(saves, id)
    ensures i < |saves| && saves[i].0 == id
    ensures forall j :: 0 <= j < i ==> saves[j].0 != id
  {
    if saves[0].0 == id then 0
    else
      assert SavesId(saves[1..], id) by {
        var k :| 0 <= k < |saves| && saves[k].0 == id;
        assert saves[1..][k - 1].0 == id;
      }
      1 + FirstSave(saves[1..], id)
  }

  /**
   * The store never shrinks and holds exactly the ids it held plus the ids saved; an id keeps
   * the account it already had, and otherwise holds the account of its FIRST save: every later
   * save of the same id failed as a duplicate.
   */
  lemma {:induction false} FirstSaveWins<V>(m: map<AccountId, V>, saves: seq<(AccountId, V)>, id: AccountId)
    ensures var r := SavedAll(m, saves);
            && (id in r <==> id in m || SavesId(saves, id))
            && (id in m ==> r[id] == m[id])
            && (id !in m && SavesId(saves, id) ==> r[id] == saves[FirstSave(saves, id)].1)
    decreases |saves|
  {
    if saves != [] {
      var n := |saves| - 1;
      var prefix := saves[..n];
      FirstSaveWins(m, prefix, id);
      if SavesId(saves, id) && !SavesId(prefix, id) {
        assert forall j :: 0 <= j < n ==> saves[j].0 != id by {
          forall j | 0 <= j < n ensures saves[j].0 != id {
            assert prefix[j] == saves[j];
          }
        }
        assert FirstSave(saves, id) == n;
      } else if SavesId(prefix, id) {
        var k := FirstSave(prefix, id);
        assert saves[k] == prefix[k];
        assert FirstSave(saves, id) == k by {
          forall j | 0 <= j < k ensures saves[j].0 != id {
            assert prefix[j] == saves[j];
          }
        }
      } else {
        assert !SavesId(saves, id) by {
          forall j | 0 <= j < |saves| ensures saves[j].0 != id {
            if j < n {
              assert prefix[j] == saves[j];
            }
          }
        }
      }
    }
  }

  class AccountRepository {
    /** The `ConcurrentHashMap<AccountId, Account>`. */
    var accountStorage: map<AccountId, AccountImpl>

    /** Every account is stored under its own id and is itself well formed. */
    ghost predicate Valid()
      reads this, accountStorage.Values
    {
      forall id :: id in accountStorage ==> accountStorage[id].accountId == id && accountStorage[id].Valid()
    }

    constructor ()
      ensures Valid()
      ensures accountStorage == map[]
    {
      accountStorage := map[];
    }

    /**
     * `save`: stores the account under its id unless the id is taken, in which case it fails
     * with a Duplicate error and keeps the account already stored.
     */
    method Save(account: AccountImpl) returns (r: Result<AccountImpl, Failure>)
      requires Valid() && account.Valid()
      modifies this
      ensures Valid()
      ensures accountStorage == PutIfAbsent(old(accountStorage), account.accountId, account)
      ensures account.accountId in old(accountStorage) ==>
                r == Err(Duplicate(DuplicateAccountMessage(account.accountId)))
      ensures account.accountId !in old(accountStorage) ==> r == Ok(account)
    {
      if account.accountId in accountStorage {
        return Err(Duplicate(DuplicateAccountMessage(account.accountId)));
      }
      accountStorage := accountStorage[account.accountId := account];
      return Ok(account);
    }

    /** `find`: the account stored under `id`, if any. */
    function Find(id: AccountId): (r: Option<AccountImpl>)
      reads this, accountStorage.Values
      requires Valid()
      ensures r.Some? <==> id in accountStorage
      ensures r.Some? ==> r.value == accountStorage[id] && r.value.accountId == id
    {
      if id in accountStorage then Some(accountStorage[id]) else None
    }
  }
}
