/** The authentication store of the frontend: the token, the user, the
    Telegram account list keyed by `id` and the active account; its
    getters, the mutations that change it in place, and the account
    actions' commit sequences around the requests, whose replies are
    parameters. */
module AuthStore {
  import opened Wrappers
  import opened JsObjects
  import opened ApiErrors

  const IdKey := "id"
  const ActiveKey := "isActive"

  datatype Snapshot = Snapshot(token: Option<string>, user: Option<Obj>, accounts: seq<Obj>, activeAccount: Option<Obj>,
                               loading: bool, error: Option<string>, sessionStatus: string,
                               sessionError: Option<string>, syncLoading: bool, lastSyncTime: Option<Json>)

  /** The initial state, given the token kept in local storage. */
  function InitialState(stored: Option<string>): Snapshot {
    Snapshot(if stored.Some? && stored.value != "" then stored else None, None, [], None,
             false, None, "idle", None, false, None)
  }

  // ------------------------------------------------------------ getters

  predicate IsAuthenticated(s: Snapshot) {
    s.token.Some? && s.token.value != ""
  }

  /** The store starts authenticated exactly when local storage held a
      non-empty token, and setting a token authenticates exactly when it
      is non-empty. */
  lemma AuthenticatedIffToken(s: Snapshot, stored: Option<string>)
    ensures IsAuthenticated(InitialState(stored)) <==> stored.Some? && stored.value != ""
    ensures IsAuthenticated(s.(token := stored)) <==> stored.Some? && stored.value != ""
  {
  }

  predicate HasActiveAccount(s: Snapshot) {
    s.activeAccount.Some?
  }

  /** `username`: the user's name, or '' without a user. */
  function Username(s: Snapshot): Option<Json> {
    if s.user.Some? then Get(s.user.value, "username") else Some(JStr(""))
  }

  predicate MarkedActive(o: Obj) {
    Truthy(Get(o, ActiveKey))
  }

  /** `accounts.find(acc => acc.isActive) || null`. */
  function FirstMarked(accounts: seq<Obj>): (r: Option<Obj>)
    ensures r.Some? <==> exists j :: 0 <= j < |accounts| && MarkedActive(accounts[j])
    ensures r.Some? ==> exists j :: 0 <= j < |accounts| && accounts[j] == r.value && MarkedActive(accounts[j])
                                    && forall k :: 0 <= k < j ==> !MarkedActive(accounts[k])
    decreases |accounts|
  {
    if |accounts| == 0 then None
    else if MarkedActive(accounts[0]) then Some(accounts[0])
    else
      var r := FirstMarked(accounts[1..]);
      if r.None? then r
      else
        var j :| 0 <= j < |accounts[1..]| && accounts[1..][j] == r.value && MarkedActive(accounts[1..][j])
                 && forall k :: 0 <= k < j ==> !MarkedActive(accounts[1..][k]);
        assert accounts[j + 1] == r.value && forall k :: 1 <= k < j + 1 ==> accounts[k] == accounts[1..][k - 1];
        r
  }

  /** A JSON array of objects, as a list of objects. */
  function ObjectsOf(j: Json): Option<seq<Obj>> {
    if j.JArr? && forall i :: 0 <= i < |j.items| ==> j.items[i].JObj? then
      Some(seq(|j.items|, i requires 0 <= i < |j.items| => j.items[i].fields))
    else None
  }

  /** `user && user.accounts`: the user object carries a truthy `accounts`. */
  predicate CarriesAccounts(user: Option<Obj>) {
    user.Some? && Truthy(Get(user.value, "accounts"))
  }

  // ------------------------------------------------------------ mutations

  /** `SET_USER`: with an account list, the list is taken and the first
      account marked active becomes the active one; without, both stay. */
  function WithUser(s: Snapshot, user: Option<Obj>): Snapshot
    requires CarriesAccounts(user) ==> ObjectsOf(user.value["accounts"]).Some?
  {
    if CarriesAccounts(user) then
      var accs := ObjectsOf(user.value["accounts"]).value;
      s.(user := user, accounts := accs, activeAccount := FirstMarked(accs))
    else s.(user := user)
  }

  /** With the account rule of the backend (exactly one account marked
      active), the active account is that one. */
  lemma WithUserPicksMarked(s: Snapshot, user: Option<Obj>, i: nat)
    requires CarriesAccounts(user) && ObjectsOf(user.value["accounts"]).Some?
    requires var accs := ObjectsOf(user.value["accounts"]).value;
             i < |accs| && MarkedActive(accs[i]) && forall j :: 0 <= j < |accs| && j != i ==> !MarkedActive(accs[j])
    ensures var t := WithUser(s, user);
            t.accounts == ObjectsOf(user.value["accounts"]).value && t.activeAccount == Some(t.accounts[i])
            && HasActiveAccount(t) && t.token == s.token
  {
  }

  /** `{ ...updated, isActive: previous.isActive }`; an `isActive` the
      previous account lacks reads as missing. */
  function KeepFlag(updated: Obj, previous: Obj): (r: Obj)
    ensures Get(r, ActiveKey) == Get(previous, ActiveKey)
    ensures forall k :: k != ActiveKey ==> Get(r, k) == Get(updated, k)
  {
    if ActiveKey in previous then updated[ActiveKey := previous[ActiveKey]] else updated - {ActiveKey}
  }

  /** Whether the active account has the given id. */
  predicate ActiveHas(s: Snapshot, id: Option<Json>) {
    s.activeAccount.Some? && Get(s.activeAccount.value, IdKey) == id
  }

  /** `UPDATE_ACCOUNT`: the account with the same id is replaced in place
      but keeps its active flag, and the update is spread over the active
      account when the ids match. */
  function UpdatedAccount(s: Snapshot, updated: Obj): Snapshot {
    var i := FindIndex(s.accounts, IdKey, Get(updated, IdKey));
    s.(accounts := if i == -1 then s.accounts else s.accounts[i := KeepFlag(updated, s.accounts[i])],
       activeAccount := if ActiveHas(s, Get(updated, IdKey)) then Some(s.activeAccount.value + updated)
                        else s.activeAccount)
  }

  /** An update never changes an active flag in the list, keeps the length
      and the other accounts, and spreading the update over the active
      account a second time (as `updateTelegramAccount` does) changes
      nothing more. */
  lemma UpdatedAccountKeepsFlags(s: Snapshot, updated: Obj)
    ensures var t := UpdatedAccount(s, updated);
            var i := FindIndex(s.accounts, IdKey, Get(updated, IdKey));
            |t.accounts| == |s.accounts|
            && (forall j :: 0 <= j < |s.accounts| ==> Get(t.accounts[j], ActiveKey) == Get(s.accounts[j], ActiveKey))
            && (forall j :: 0 <= j < |s.accounts| && j != i ==> t.accounts[j] == s.accounts[j])
            && (i >= 0 ==> forall k :: k != ActiveKey ==> Get(t.accounts[i], k) == Get(updated, k))
            && (ActiveHas(s, Get(updated, IdKey)) ==> t.activeAccount == Some(t.activeAccount.value + updated))
  {
    if ActiveHas(s, Get(updated, IdKey)) {
      SpreadTwice(s.activeAccount.value, updated);
    }
  }

  /** `{...{...a, ...u}, ...u}` is `{...a, ...u}`. */
  lemma SpreadTwice(a: Obj, u: Obj)
    ensures (a + u) + u == a + u
  {
    assert forall k :: k in (a + u) + u <==> k in a + u;
  }

  /** `REMOVE_ACCOUNT`: every account with the id goes; when the active
      one went, the first remaining account is marked active and becomes
      the active one, or there is none. */
  function RemovedAccount(s: Snapshot, id: Option<Json>): Snapshot {
    var rest := FilterOut(s.accounts, IdKey, id);
    if !ActiveHas(s, id) then s.(accounts := rest)
    else if |rest| == 0 then s.(accounts := rest, activeAccount := None)
    else
      var first := rest[0][ActiveKey := JBool(true)];
      s.(accounts := rest[0 := first], activeAccount := Some(first))
  }

  /** After a removal no account has the id; when the active account was
      removed and others remain, the first of them is the active account
      and is marked active in the list too. */
  lemma RemovedAccountActive(s: Snapshot, id: Option<Json>)
    ensures var t := RemovedAccount(s, id);
            (forall j :: 0 <= j < |t.accounts| ==> Get(t.accounts[j], IdKey) != id)
            && |t.accounts| == |s.accounts| - Matching(s.accounts, IdKey, id)
            && (!ActiveHas(s, id) ==> t.activeAccount == s.activeAccount && t.accounts == FilterOut(s.accounts, IdKey, id))
            && (ActiveHas(s, id) && |t.accounts| > 0 ==>
                  t.activeAccount == Some(t.accounts[0]) && MarkedActive(t.accounts[0]))
            && (ActiveHas(s, id) && |t.accounts| == 0 ==> t.activeAccount.None?)
  {
    FilterOutLength(s.accounts, IdKey, id);
    var rest := FilterOut(s.accounts, IdKey, id);
    var t := RemovedAccount(s, id);
    forall j | 0 <= j < |t.accounts| ensures Get(t.accounts[j], IdKey) != id {
      assert rest[j] in rest;
      assert Get(t.accounts[j], IdKey) == Get(rest[j], IdKey);
    }
  }

  /** `accounts.map(acc => ({ ...acc, isActive: acc.id === accountId }))`. */
  function MarkOnly(accounts: seq<Obj>, id: Option<Json>): (r: seq<Obj>)
    ensures |r| == |accounts|
    ensures forall j :: 0 <= j < |accounts| ==> r[j] == accounts[j][ActiveKey := JBool(Get(accounts[j], IdKey) == id)]
  {
    seq(|accounts|, j requires 0 <= j < |accounts| => accounts[j][ActiveKey := JBool(Get(accounts[j], IdKey) == id)])
  }

  /** After the remap exactly the accounts with the chosen id are marked
      active, and nothing but the flags changed. */
  lemma MarkOnlyChosen(accounts: seq<Obj>, id: Option<Json>)
    ensures var r := MarkOnly(accounts, id);
            (forall j :: 0 <= j < |r| ==> (MarkedActive(r[j]) <==> Get(accounts[j], IdKey) == id))
            && (forall j, k :: 0 <= j < |r| && k != ActiveKey ==> Get(r[j], k) == Get(accounts[j], k))
            && (FirstMarked(r).Some? <==> exists j :: 0 <= j < |accounts| && Get(accounts[j], IdKey) == id)
  {
    var r := MarkOnly(accounts, id);
    assert forall j :: 0 <= j < |r| ==> Get(r[j], ActiveKey) == Some(JBool(Get(accounts[j], IdKey) == id));
    assert forall j :: 0 <= j < |r| ==> Get(r[j], IdKey) == Get(accounts[j], IdKey);
  }

  /** `LOGOUT`: every field back to its initial value, without a token. */
  const LoggedOut := InitialState(None)

  /** Logging out leaves no token, no user, no accounts and no active
      account, whatever the state was. */
  lemma LoggedOutEmpty()
    ensures !IsAuthenticated(LoggedOut) && !HasActiveAccount(LoggedOut)
    ensures LoggedOut.user.None? && LoggedOut.accounts == [] && Username(LoggedOut) == Some(JStr(""))
  {
  }

  // ------------------------------------------------------------ the class

  class AuthState {
    var token: Option<string>
    var user: Option<Obj>
    var accounts: seq<Obj>
    var activeAccount: Option<Obj>
    var loading: bool
    var error: Option<string>
    var sessionStatus: string
    var sessionError: Option<string>
    var syncLoading: bool
    var lastSyncTime: Option<Json>

    function State(): Snapshot
      reads this
    {
      Snapshot(token, user, accounts, activeAccount, loading, error, sessionStatus, sessionError, syncLoading, lastSyncTime)
    }

    /** The store as created, with `localStorage.getItem('token')`. */
    constructor (stored: Option<string>)
      ensures State() == InitialState(stored)
    {
      token := if stored.Some? && stored.value != "" then stored else None;
      user, accounts, activeAccount := None, [], None;
      loading, error, sessionStatus, sessionError, syncLoading, lastSyncTime := false, None, "idle", None, false, None;
    }

    method SetToken(t: Option<string>)
      modifies this
      ensures State() == old(State()).(token := t)
    {
      token := t;
    }

    method SetUser(u: Option<Obj>)
      requires CarriesAccounts(u) ==> ObjectsOf(u.value["accounts"]).Some?
      modifies this
      ensures State() == WithUser(old(State()), u)
    {
      user := u;
      if u.Some? && Truthy(Get(u.value, "accounts")) {
        accounts := ObjectsOf(u.value["accounts"]).value;
        activeAccount := FirstMarked(accounts);
      }
    }

    method SetAccounts(accs: seq<Obj>)
      modifies this
      ensures State() == old(State()).(accounts := accs)
    {
      accounts := accs;
    }

    method SetActiveAccount(a: Option<Obj>)
      modifies this
      ensures State() == old(State()).(activeAccount := a)
    {
      activeAccount := a;
    }

    method SetLoading(b: bool)
      modifies this
      ensures State() == old(State()).(loading := b)
    {
      loading := b;
    }

    method SetError(e: Option<string>)
      modifies this
      ensures State() == old(State()).(error := e)
    {
      error := e;
    }

    method AddAccount(a: Obj)
      modifies this
      ensures State() == old(State()).(accounts := old(accounts) + [a])
    {
      accounts := accounts + [a];
    }

    method UpdateAccount(updated: Obj)
      modifies this
      ensures State() == UpdatedAccount(old(State()), updated)
    {
      var i := FindIndex(accounts, IdKey, Get(updated, IdKey));
      if i != -1 {
        accounts := accounts[i := KeepFlag(updated, accounts[i])];
      }
      if activeAccount.Some? && Get(activeAccount.value, IdKey) == Get(updated, IdKey) {
        activeAccount := Some(activeAccount.value + updated);
      }
    }

    method RemoveAccount(id: Option<Json>)
      modifies this
      ensures State() == RemovedAccount(old(State()), id)
    {
      var wasActive := activeAccount.Some? && Get(activeAccount.value, IdKey) == id;
      accounts := FilterOut(accounts, IdKey, id);
      if wasActive {
        activeAccount := if |accounts| > 0 then Some(accounts[0]) else None;
        if activeAccount.Some? {
          // the active account is the first list element itself
          var first := activeAccount.value[ActiveKey := JBool(true)];
          activeAccount := Some(first);
          accounts := accounts[0 := first];
        }
      }
    }

    method Logout()
      modifies this
      ensures State() == LoggedOut
    {
      token, user, accounts, activeAccount := None, None, [], None;
      loading, error, sessionStatus, sessionError, syncLoading, lastSyncTime := false, None, "idle", None, false, None;
    }

    // ---------------------------------------------------------- account actions

    /** `addTelegramAccount`: the reply is appended, and becomes the active
        account only when it says it is active. */
    method AddTelegramAccount(reply: Result<Obj, ApiError>)
      modifies this
      ensures reply.Ok? ==>
                State() == old(State()).(accounts := old(accounts) + [reply.value], loading := false, error := None,
                                         activeAccount := if MarkedActive(reply.value) then Some(reply.value)
                                                          else old(activeAccount))
      ensures reply.Err? ==>
                State() == old(State()).(loading := false, error := Some(ShownMessage(reply.error, "添加Telegram账号失败")))
    {
      SetLoading(true);
      SetError(None);
      match reply
      case Err(e) =>
        SetError(Some(ShownMessage(e, "添加Telegram账号失败")));
        SetLoading(false);
      case Ok(a) =>
        AddAccount(a);
        if Truthy(Get(a, ActiveKey)) {
          SetActiveAccount(Some(a));
        }
        SetLoading(false);
    }

    /** `switchTelegramAccount`: the new token, the list remapped so that
        only the chosen id is marked active, and the reply's account as
        the active one. */
    method SwitchTelegramAccount(id: Option<Json>, reply: Result<(Option<string>, Option<Obj>), ApiError>)
      modifies this
      ensures reply.Ok? ==>
                State() == old(State()).(token := reply.value.0, accounts := MarkOnly(old(accounts), id),
                                         activeAccount := reply.value.1, loading := false, error := None)
      ensures reply.Err? ==>
                State() == old(State()).(loading := false, error := Some(ShownMessage(reply.error, "切换Telegram账号失败")))
    {
      SetLoading(true);
      SetError(None);
      match reply
      case Err(e) =>
        SetError(Some(ShownMessage(e, "切换Telegram账号失败")));
        SetLoading(false);
      case Ok((t, a)) =>
        SetToken(t);
        SetAccounts(MarkOnly(accounts, id));
        SetActiveAccount(a);
        SetLoading(false);
    }

    /** `updateTelegramAccount`: `UPDATE_ACCOUNT`, then the update spread
        over the active account once more when the ids match. */
    method UpdateTelegramAccount(reply: Result<Obj, ApiError>)
      modifies this
      ensures reply.Ok? ==> State() == UpdatedAccount(old(State()), reply.value).(loading := false, error := None)
      ensures reply.Err? ==>
                State() == old(State()).(loading := false, error := Some(ShownMessage(reply.error, "更新Telegram账号失败")))
    {
      SetLoading(true);
      SetError(None);
      match reply
      case Err(e) =>
        SetError(Some(ShownMessage(e, "更新Telegram账号失败")));
        SetLoading(false);
      case Ok(u) =>
        UpdateAccount(u);
        if activeAccount.Some? && Get(activeAccount.value, IdKey) == Get(u, IdKey) {
          UpdatedAccountKeepsFlags(old(State()).(loading := true, error := None), u);
          SetActiveAccount(Some(activeAccount.value + u));
        }
        SetLoading(false);
    }

    /** `deleteTelegramAccount`: `REMOVE_ACCOUNT`, the token when a new one
        came back, and the remaining accounts with the first one marked
        active as the active one when the reply lists them. */
    method DeleteTelegramAccount(id: Option<Json>, reply: Result<(Option<string>, Option<seq<Obj>>), ApiError>)
      modifies this
      ensures reply.Ok? ==> State() == AfterDeleteAccount(old(State()), id, reply.value.0, reply.value.1)
      ensures reply.Err? ==>
                State() == old(State()).(loading := false, error := Some(ShownMessage(reply.error, "删除Telegram账号失败")))
    {
      SetLoading(true);
      SetError(None);
      match reply
      case Err(e) =>
        SetError(Some(ShownMessage(e, "删除Telegram账号失败")));
        SetLoading(false);
      case Ok((t, remaining)) =>
        RemoveAccount(id);
        if t.Some? && t.value != "" {
          SetToken(t);
        }
        if remaining.Some? {
          SetAccounts(remaining.value);
          SetActiveAccount(FirstMarked(remaining.value));
        }
        SetLoading(false);
    }
  }

  /** The state after a successful `deleteTelegramAccount`. */
  function AfterDeleteAccount(s: Snapshot, id: Option<Json>, token: Option<string>, remaining: Option<seq<Obj>>): Snapshot {
    var t := RemovedAccount(s.(loading := true, error := None), id);
    var t1 := if token.Some? && token.value != "" then t.(token := token) else t;
    var t2 := if remaining.Some? then t1.(accounts := remaining.value, activeAccount := FirstMarked(remaining.value)) else t1;
    t2.(loading := false)
  }

  /** When the reply lists the remaining accounts they replace the local
      choice: the list is the reply's and the active account is its first
      account marked active; a token is replaced only by a non-empty one. */
  lemma AfterDeleteAccountFollowsReply(s: Snapshot, id: Option<Json>, token: Option<string>, remaining: seq<Obj>)
    ensures var t := AfterDeleteAccount(s, id, token, Some(remaining));
            t.accounts == remaining && t.activeAccount == FirstMarked(remaining)
            && (token.Some? && token.value != "" ==> t.token == token)
            && (!(token.Some? && token.value != "") ==> t.token == s.token)
            && !t.loading && t.error.None?
  {
  }
}
