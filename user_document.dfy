/** A stored user document with its embedded Telegram accounts, as the
    account operations load, change field by field and save it. */
module UserDocuments {
  import opened Wrappers
  import opened Models

  /** The first account with the given id: `telegramAccounts.id(id)`. */
  function FindAccount(accounts: seq<TelegramAccount>, id: DocId): (r: Option<nat>)
    ensures r.Some? ==> r.value < |accounts| && accounts[r.value].id == id
    ensures r.None? ==> forall j :: 0 <= j < |accounts| ==> accounts[j].id != id
    decreases |accounts|
  {
    if |accounts| == 0 then None
    else if accounts[0].id == id then Some(0)
    else match FindAccount(accounts[1..], id)
      case None => None
      case Some(j) => Some(j + 1)
  }

  /** The first active account: `telegramAccounts.find(a => a.isActive)`. */
  function FirstActive(accounts: seq<TelegramAccount>): (r: Option<nat>)
    ensures r.Some? ==> r.value < |accounts| && accounts[r.value].isActive
    ensures r.Some? ==> forall j :: 0 <= j < r.value ==> !accounts[j].isActive
    ensures r.None? ==> forall j :: 0 <= j < |accounts| ==> !accounts[j].isActive
    decreases |accounts|
  {
    if |accounts| == 0 then None
    else if accounts[0].isActive then Some(0)
    else match FirstActive(accounts[1..])
      case None => None
      case Some(j) => Some(j + 1)
  }

  /** Exactly the account at `i` is active. */
  predicate ActiveAt(accounts: seq<TelegramAccount>, i: int) {
    0 <= i < |accounts| && accounts[i].isActive
    && forall j :: 0 <= j < |accounts| && j != i ==> !accounts[j].isActive
  }

  /** The account rule: no accounts and no active id, or exactly one
      active account whose id is `activeAccountId`. */
  predicate OneActive(accounts: seq<TelegramAccount>, active: Option<DocId>) {
    if |accounts| == 0 then active.None?
    else exists i :: 0 <= i < |accounts| && ActiveAt(accounts, i) && active == Some(accounts[i].id)
  }

  /** The accounts with the entry at `i` removed. */
  function Without(accounts: seq<TelegramAccount>, i: nat): (r: seq<TelegramAccount>)
    requires i < |accounts|
    ensures |r| == |accounts| - 1
    ensures forall j :: 0 <= j < |r| ==> r[j] == accounts[if j < i then j else j + 1]
  {
    accounts[..i] + accounts[i + 1..]
  }

  predicate AccountIdsDistinct(accounts: seq<TelegramAccount>) {
    forall i, j :: 0 <= i < j < |accounts| ==> accounts[i].id != accounts[j].id
  }

  class UserDocument {
    var id: UserId
    var username: string
    var password: string
    var telegramAccounts: seq<TelegramAccount>
    var activeAccountId: Option<DocId>
    var lastLogin: int
    var settings: Settings
    /** Where the next embedded object id comes from. */
    var nextAccountId: DocId

    function State(): User
      reads this
    {
      User(id, username, password, telegramAccounts, activeAccountId, lastLogin, settings)
    }

    /** A stored document: it passed validation, and embedded ids are
        distinct and below the allocator. */
    ghost predicate Valid()
      reads this
    {
      UserSaveable(State()) && AccountIdsDistinct(telegramAccounts)
      && forall i :: 0 <= i < |telegramAccounts| ==> telegramAccounts[i].id < nextAccountId
    }

    /** `new User({...})`: a document in memory holding the given value,
        not yet validated. */
    constructor (u: User, next: DocId)
      ensures State() == u && nextAccountId == next
    {
      id := u.id;
      username := u.username;
      password := u.password;
      telegramAccounts := u.telegramAccounts;
      activeAccountId := u.activeAccountId;
      lastLogin := u.lastLogin;
      settings := u.settings;
      nextAccountId := next;
    }

    /** `telegramAccounts.push(a)`: the entry is a copy of `a` carrying a
        fresh object id. */
    method Push(a: TelegramAccount) returns (entry: TelegramAccount)
      modifies this
      ensures entry == a.(id := old(nextAccountId))
      ensures telegramAccounts == old(telegramAccounts) + [entry]
      ensures nextAccountId == old(nextAccountId) + 1
      ensures State() == old(State()).(telegramAccounts := old(telegramAccounts) + [entry])
    {
      entry := a.(id := nextAccountId);
      telegramAccounts := telegramAccounts + [entry];
      nextAccountId := nextAccountId + 1;
    }

    /** `subdocument.remove()` on the entry at `i`. */
    method RemoveAccount(i: nat)
      requires i < |telegramAccounts|
      modifies this
      ensures telegramAccounts == Without(old(telegramAccounts), i)
      ensures State() == old(State()).(telegramAccounts := telegramAccounts)
      ensures nextAccountId == old(nextAccountId)
    {
      telegramAccounts := Without(telegramAccounts, i);
    }

    /** `telegramAccounts.forEach(a => a.isActive = false)`. */
    method DeactivateAll()
      modifies this
      ensures |telegramAccounts| == |old(telegramAccounts)|
      ensures forall j :: 0 <= j < |telegramAccounts| ==>
                telegramAccounts[j] == old(telegramAccounts)[j].(isActive := false)
      ensures State() == old(State()).(telegramAccounts := telegramAccounts)
      ensures nextAccountId == old(nextAccountId)
    {
      var i := 0;
      while i < |telegramAccounts|
        invariant 0 <= i <= |telegramAccounts| == |old(telegramAccounts)|
        invariant forall j :: 0 <= j < i ==> telegramAccounts[j] == old(telegramAccounts)[j].(isActive := false)
        invariant forall j :: i <= j < |telegramAccounts| ==> telegramAccounts[j] == old(telegramAccounts)[j]
        invariant State() == old(State()).(telegramAccounts := telegramAccounts)
        invariant nextAccountId == old(nextAccountId)
      {
        telegramAccounts := telegramAccounts[i := telegramAccounts[i].(isActive := false)];
        i := i + 1;
      }
    }
  }
}
