/** The account service: registration and login, the views it returns,
    and the operations on a user's embedded Telegram accounts, which keep
    at most one account active and `activeAccountId` naming it.  Password
    hashing, token signing and the Telegram client are parameters. */
module AuthService {
  import opened Wrappers
  import opened Text
  import opened Models
  import opened Vault
  import opened UserDocuments
  import opened Hex
  import TelegramApi

  const UsernameTaken := "用户名已存在"
  const BadCredentials := "用户名或密码错误"
  const IncompleteCredentials := "API凭证不完整"
  const AccountNotFound := "账号不存在或无权访问"
  const NoActiveAccount := "没有活跃的Telegram账号"
  const RegisterOk := "用户注册成功"
  /** The prefix of every message a failed schema validation throws. */
  const UserValidationFailed := "User validation failed"
  const DetailsFailed := "无法连接Telegram API获取账户详情："

  /** `jwt.sign({id, activeAccountId}, secret, ...)`. */
  type Signer = (UserId, Option<DocId>) -> string

  function Token(sign: Signer, u: User): string {
    sign(u.id, u.activeAccountId)
  }

  // ------------------------------------------------------------ views

  /** The non-secret fields of an account handed to callers. */
  datatype AccountView = AccountView(id: Option<DocId>, name: string, isActive: bool, username: Option<string>,
                                     firstName: Option<string>, lastName: Option<string>,
                                     profilePhoto: Option<string>, telegramId: Option<string>)

  /** The views that also report `lastSync`. */
  datatype SyncView = SyncView(view: AccountView, lastSync: Option<int>)

  datatype UserView = UserView(id: UserId, username: string, settings: Settings,
                               accounts: seq<AccountView>, hasActiveAccount: bool)

  function View(a: TelegramAccount): AccountView {
    AccountView(Some(a.id), a.name, a.isActive, a.username, a.firstName, a.lastName, a.profilePhoto, a.telegramId)
  }

  function SyncViewOf(a: TelegramAccount): SyncView {
    SyncView(View(a), a.lastSync)
  }

  /** Views leave out the credentials: accounts that differ only in
      `apiId`, `apiHash` and `sessionString` look the same. */
  lemma ViewHidesCredentials(a: TelegramAccount, apiId: string, apiHash: string, session: string)
    ensures SyncViewOf(a) == SyncViewOf(a.(apiId := apiId, apiHash := apiHash, sessionString := session))
  {
  }

  /** The user object `login` and `fetchCurrentUser` return. */
  function UserViewOf(u: User): (v: UserView)
    ensures |v.accounts| == |u.telegramAccounts|
    ensures forall i :: 0 <= i < |u.telegramAccounts| ==> v.accounts[i] == View(u.telegramAccounts[i])
    ensures v.hasActiveAccount <==> u.activeAccountId.Some?
  {
    UserView(u.id, u.username, u.settings,
             seq(|u.telegramAccounts|, i requires 0 <= i < |u.telegramAccounts| => View(u.telegramAccounts[i])),
             u.activeAccountId.Some?)
  }

  // ------------------------------------------------------------ register

  /** An account as the registration request supplies it. */
  datatype AccountInput = AccountInput(name: Option<string>, apiId: Option<string>, apiHash: Option<string>,
                                       sessionString: Option<string>, isActive: Option<bool>)

  /** The entry `push` makes of a supplied account whose session string
      was replaced by `envelope`; a missing required field is stored
      empty, which validation rejects alike. */
  function InputAccount(input: AccountInput, id: DocId, envelope: string, now: int): TelegramAccount {
    NewAccount(id, input.name, input.apiId.GetOr(""), input.apiHash.GetOr(""), envelope, now)
      .(isActive := input.isActive.GetOr(false))
  }

  /** The encrypt-and-push loop of `register`: the k-th account is
      enciphered under the k-th random IV `ivs(k)` and gets embedded id k. */
  function EncryptAccounts(inputs: seq<AccountInput>, c: Crypto, ivs: nat -> seq<byte>, now: int)
    : (r: Result<seq<TelegramAccount>, string>)
    ensures r.Err? ==> r.error == EncryptFailed
    ensures r.Ok? ==> |r.value| == |inputs|
    decreases |inputs|
  {
    if |inputs| == 0 then Ok([])
    else
      var n := |inputs| - 1;
      var init := EncryptAccounts(inputs[..n], c, ivs, now);
      var last := Encrypt(c, ivs(n), inputs[n].sessionString);
      if init.Err? then init
      else if last.Err? then Err(last.error)
      else Ok(init.value + [InputAccount(inputs[n], n, last.value, now)])
  }

  /** The loop fails exactly when one of the session strings cannot be
      enciphered. */
  lemma {:induction false} EncryptAccountsFails(inputs: seq<AccountInput>, c: Crypto, ivs: nat -> seq<byte>, now: int)
    ensures EncryptAccounts(inputs, c, ivs, now).Err?
            <==> exists k :: 0 <= k < |inputs| && Encrypt(c, ivs(k), inputs[k].sessionString).Err?
    decreases |inputs|
  {
    if |inputs| > 0 {
      var n := |inputs| - 1;
      var init := inputs[..n];
      EncryptAccountsFails(init, c, ivs, now);
      assert forall k :: 0 <= k < n ==> init[k] == inputs[k];
    }
  }

  /** Otherwise the k-th stored account is the k-th input with its
      session string enciphered under `ivs(k)` and embedded id k. */
  lemma {:induction false} EncryptAccountsEntries(inputs: seq<AccountInput>, c: Crypto, ivs: nat -> seq<byte>, now: int)
    requires EncryptAccounts(inputs, c, ivs, now).Ok?
    ensures forall k :: 0 <= k < |inputs| ==>
              Encrypt(c, ivs(k), inputs[k].sessionString).Ok?
              && EncryptAccounts(inputs, c, ivs, now).value[k]
                 == InputAccount(inputs[k], k, Encrypt(c, ivs(k), inputs[k].sessionString).value, now)
    decreases |inputs|
  {
    if |inputs| > 0 {
      var n := |inputs| - 1;
      var init := inputs[..n];
      var r := EncryptAccounts(inputs, c, ivs, now);
      var r0 := EncryptAccounts(init, c, ivs, now);
      var last := Encrypt(c, ivs(n), inputs[n].sessionString);
      assert r0.Ok? && last.Ok?;
      assert r.value == r0.value + [InputAccount(inputs[n], n, last.value, now)];
      EncryptAccountsEntries(init, c, ivs, now);
      forall k | 0 <= k < |inputs|
        ensures Encrypt(c, ivs(k), inputs[k].sessionString).Ok?
                && r.value[k] == InputAccount(inputs[k], k, Encrypt(c, ivs(k), inputs[k].sessionString).value, now)
      {
        if k < n {
          assert init[k] == inputs[k];
          assert r.value[k] == r0.value[k];
        }
      }
    }
  }

  /** The first account becomes the active one. */
  function ActivateFirst(u: User): User {
    if |u.telegramAccounts| == 0 then u
    else u.(telegramAccounts := u.telegramAccounts[0 := u.telegramAccounts[0].(isActive := true)],
            activeAccountId := Some(u.telegramAccounts[0].id))
  }

  predicate UsernameIn(users: seq<User>, username: string) {
    exists i :: 0 <= i < |users| && users[i].username == username
  }

  /** `register`: the stored users, the new document's id, the request and
      `hashed`, the bcrypt hash of its password. */
  function Registered(users: seq<User>, id: UserId, username: string, hashed: string,
                      inputs: seq<AccountInput>, c: Crypto, ivs: nat -> seq<byte>, now: int): (r: Result<User, string>)
    ensures UsernameIn(users, username) ==> r == Err(UsernameTaken)
  {
    if UsernameIn(users, username) then Err(UsernameTaken)
    else match EncryptAccounts(inputs, c, ivs, now)
      case Err(e) => Err(e)
      case Ok(accs) =>
        var u := ActivateFirst(NewUser(id, username, hashed, now).(telegramAccounts := accs));
        if UserSaveable(u) then Ok(u) else Err(UserValidationFailed)
  }

  /** A successful registration stores every supplied account, in order,
      with a session string that deciphers back to the supplied one; the
      first account is the active one, and the others keep the flag they
      were sent with. */
  lemma RegisteredAccounts(users: seq<User>, id: UserId, username: string, hashed: string,
                           inputs: seq<AccountInput>, c: Crypto, ivs: nat -> seq<byte>, now: int)
    requires CipherInverse(c)
    requires Registered(users, id, username, hashed, inputs, c, ivs, now).Ok?
    ensures var u := Registered(users, id, username, hashed, inputs, c, ivs, now).value;
            var accs := u.telegramAccounts;
            !UsernameIn(users, username) && u.username == username && u.password == hashed
            && |accs| == |inputs|
            && (forall k :: 0 <= k < |inputs| ==>
                  inputs[k].sessionString.Some? && Decrypt(c, accs[k].sessionString) == Ok(inputs[k].sessionString.value))
            && (forall k :: 1 <= k < |inputs| ==> accs[k].isActive == inputs[k].isActive.GetOr(false))
            && (|inputs| > 0 ==> accs[0].isActive && u.activeAccountId == Some(accs[0].id))
            && (|inputs| == 0 ==> u.activeAccountId.None?)
  {
    var accs := EncryptAccounts(inputs, c, ivs, now).value;
    var u0 := NewUser(id, username, hashed, now).(telegramAccounts := accs);
    assert Registered(users, id, username, hashed, inputs, c, ivs, now).value == ActivateFirst(u0);
    ActivateFirstKeeps(u0);
    EncryptedSessions(inputs, c, ivs, now);
  }

  /** Every stored session string deciphers back to the supplied one. */
  lemma EncryptedSessions(inputs: seq<AccountInput>, c: Crypto, ivs: nat -> seq<byte>, now: int)
    requires CipherInverse(c)
    requires EncryptAccounts(inputs, c, ivs, now).Ok?
    ensures var accs := EncryptAccounts(inputs, c, ivs, now).value;
            forall k :: 0 <= k < |inputs| ==>
              inputs[k].sessionString.Some? && Decrypt(c, accs[k].sessionString) == Ok(inputs[k].sessionString.value)
    ensures var accs := EncryptAccounts(inputs, c, ivs, now).value;
            forall k :: 0 <= k < |inputs| ==> accs[k].isActive == inputs[k].isActive.GetOr(false)
  {
    var accs := EncryptAccounts(inputs, c, ivs, now).value;
    EncryptAccountsEntries(inputs, c, ivs, now);
    forall k | 0 <= k < |inputs|
      ensures inputs[k].sessionString.Some? && Decrypt(c, accs[k].sessionString) == Ok(inputs[k].sessionString.value)
    {
      RoundTrip(c, ivs(k), inputs[k].sessionString.value);
    }
  }

  /** Activating the first account changes only its flag and the user's
      `activeAccountId`. */
  lemma ActivateFirstKeeps(u: User)
    ensures var v := ActivateFirst(u);
            v.username == u.username && v.password == u.password
            && |v.telegramAccounts| == |u.telegramAccounts|
            && (forall k :: 0 <= k < |u.telegramAccounts| ==>
                  v.telegramAccounts[k].sessionString == u.telegramAccounts[k].sessionString)
            && (forall k :: 1 <= k < |u.telegramAccounts| ==> v.telegramAccounts[k] == u.telegramAccounts[k])
            && (|u.telegramAccounts| > 0 ==> v.telegramAccounts[0].isActive && v.activeAccountId == Some(v.telegramAccounts[0].id))
            && (|u.telegramAccounts| == 0 ==> v.activeAccountId == u.activeAccountId)
  {
  }

  /** When no account after the first is sent as active, the new user has
      exactly one active account, named by `activeAccountId`. */
  lemma RegisteredOneActive(users: seq<User>, id: UserId, username: string, hashed: string,
                            inputs: seq<AccountInput>, c: Crypto, ivs: nat -> seq<byte>, now: int)
    requires Registered(users, id, username, hashed, inputs, c, ivs, now).Ok?
    requires forall k :: 1 <= k < |inputs| ==> inputs[k].isActive != Some(true)
    ensures var u := Registered(users, id, username, hashed, inputs, c, ivs, now).value;
            OneActive(u.telegramAccounts, u.activeAccountId)
  {
    var u := Registered(users, id, username, hashed, inputs, c, ivs, now).value;
    EncryptAccountsEntries(inputs, c, ivs, now);
    if |inputs| > 0 {
      assert ActiveAt(u.telegramAccounts, 0);
    }
  }

  /** Registration keeps usernames unique; the new document is valid, with
      embedded ids 0.. below the allocator. */
  lemma RegisteredUnique(users: seq<User>, id: UserId, username: string, hashed: string,
                         inputs: seq<AccountInput>, c: Crypto, ivs: nat -> seq<byte>, now: int)
    requires UsernamesUnique(users)
    requires Registered(users, id, username, hashed, inputs, c, ivs, now).Ok?
    ensures var u := Registered(users, id, username, hashed, inputs, c, ivs, now).value;
            UsernamesUnique(users + [u]) && UserSaveable(u) && AccountIdsDistinct(u.telegramAccounts)
            && forall k :: 0 <= k < |u.telegramAccounts| ==> u.telegramAccounts[k].id == k
  {
    var u := Registered(users, id, username, hashed, inputs, c, ivs, now).value;
    EncryptAccountsEntries(inputs, c, ivs, now);
    var all := users + [u];
    forall i, j | 0 <= i < j < |all|
      ensures all[i].username != all[j].username
    {
      if j == |users| {
        assert all[i] == users[i];
      } else {
        assert all[i] == users[i] && all[j] == users[j];
      }
    }
  }

  /** `register` as the loop it is: each supplied account is enciphered
      and pushed onto the new document, which is then validated. */
  method Register(users: seq<User>, id: UserId, username: string, hashed: string,
                  inputs: seq<AccountInput>, c: Crypto, ivs: nat -> seq<byte>, now: int)
    returns (r: Result<User, string>)
    ensures r == Registered(users, id, username, hashed, inputs, c, ivs, now)
  {
    if UsernameIn(users, username) {
      return Err(UsernameTaken);
    }
    var doc := new UserDocument(NewUser(id, username, hashed, now), 0);
    var k := 0;
    while k < |inputs|
      invariant 0 <= k <= |inputs|
      invariant EncryptAccounts(inputs[..k], c, ivs, now) == Ok(doc.telegramAccounts)
      invariant doc.nextAccountId == k
      invariant doc.State() == NewUser(id, username, hashed, now).(telegramAccounts := doc.telegramAccounts)
    {
      var envelope := Encrypt(c, ivs(k), inputs[k].sessionString);
      if envelope.Err? {
        EncryptAccountsFails(inputs, c, ivs, now);
        return Err(EncryptFailed);
      }
      var entry := doc.Push(InputAccount(inputs[k], 0, envelope.value, now));
      assert entry == InputAccount(inputs[k], k, envelope.value, now);
      assert inputs[..k + 1][..k] == inputs[..k] && inputs[..k + 1][k] == inputs[k];
      k := k + 1;
    }
    assert inputs[..k] == inputs;
    if |doc.telegramAccounts| > 0 {
      doc.telegramAccounts := doc.telegramAccounts[0 := doc.telegramAccounts[0].(isActive := true)];
      doc.activeAccountId := Some(doc.telegramAccounts[0].id);
    }
    if !UserSaveable(doc.State()) {
      return Err(UserValidationFailed);
    }
    r := Ok(doc.State());
  }

  // ------------------------------------------------------------ login and the current user

  /** `login`: `user` is the document `findOne({username})` found, and
      `compare` is bcrypt's check of a password against a stored hash. */
  method Login(user: UserDocument?, password: string, compare: (string, string) -> bool, sign: Signer, now: int)
    returns (r: Result<(UserView, string), string>)
    requires user != null ==> user.Valid()
    modifies user
    ensures user == null ==> r == Err(BadCredentials)
    ensures user != null && !compare(password, old(user.password)) ==>
              r == Err(BadCredentials) && user.State() == old(user.State())
    ensures user != null && compare(password, old(user.password)) ==>
              user.State() == old(user.State()).(lastLogin := now)
              && r == Ok((UserViewOf(user.State()), Token(sign, user.State())))
    ensures user != null ==> user.Valid() && user.nextAccountId == old(user.nextAccountId)
  {
    if user == null || !compare(password, user.password) {
      return Err(BadCredentials);
    }
    user.lastLogin := now;
    r := Ok((UserViewOf(user.State()), Token(sign, user.State())));
  }

  /** `fetchCurrentUser` on the document `findById` found, if any. */
  function FetchCurrentUser(user: Option<User>): (r: Result<UserView, string>)
    ensures r.Err? <==> user.None?
    ensures r.Err? ==> r.error == TelegramApi.UserNotFound
    ensures r.Ok? ==> r.value == UserViewOf(user.value)
  {
    match user
    case None => Err(TelegramApi.UserNotFound)
    case Some(u) => Ok(UserViewOf(u))
  }

  /** Under the account rule, `hasActiveAccount` says whether one of the
      listed accounts is marked active. */
  lemma HasActiveAccountAgrees(u: User)
    requires OneActive(u.telegramAccounts, u.activeAccountId)
    ensures UserViewOf(u).hasActiveAccount <==> exists i :: 0 <= i < |u.telegramAccounts| && UserViewOf(u).accounts[i].isActive
  {
    var v := UserViewOf(u);
    if |u.telegramAccounts| > 0 {
      var i :| 0 <= i < |u.telegramAccounts| && ActiveAt(u.telegramAccounts, i) && u.activeAccountId == Some(u.telegramAccounts[i].id);
      assert v.accounts[i].isActive;
    }
  }

  // ------------------------------------------------------------ switch

  /** Every account inactive except the one at `i`. */
  function Activate(accounts: seq<TelegramAccount>, i: nat): (r: seq<TelegramAccount>)
    requires i < |accounts|
    ensures |r| == |accounts| && ActiveAt(r, i)
    ensures forall j :: 0 <= j < |r| ==> r[j] == accounts[j].(isActive := j == i)
  {
    seq(|accounts|, j requires 0 <= j < |accounts| => accounts[j].(isActive := j == i))
  }

  /** `switchTelegramAccount` on a found document. */
  function Switched(u: User, accountId: DocId): Result<User, string> {
    match FindAccount(u.telegramAccounts, accountId)
    case None => Err(AccountNotFound)
    case Some(i) => Ok(u.(telegramAccounts := Activate(u.telegramAccounts, i), activeAccountId := Some(accountId)))
  }

  /** Switching fails exactly for an id the user does not own; otherwise
      the chosen account is the only active one, `activeAccountId` names
      it, and nothing but the active flags changes. */
  lemma SwitchedActivates(u: User, accountId: DocId)
    ensures Switched(u, accountId).Err? <==> forall j :: 0 <= j < |u.telegramAccounts| ==> u.telegramAccounts[j].id != accountId
    ensures Switched(u, accountId).Ok? ==>
              var w := Switched(u, accountId).value;
              OneActive(w.telegramAccounts, w.activeAccountId) && w.activeAccountId == Some(accountId)
              && |w.telegramAccounts| == |u.telegramAccounts|
              && (forall j :: 0 <= j < |w.telegramAccounts| ==>
                    w.telegramAccounts[j] == u.telegramAccounts[j].(isActive := w.telegramAccounts[j].isActive))
              && (UserSaveable(u) ==> UserSaveable(w))
              && w.(telegramAccounts := u.telegramAccounts, activeAccountId := u.activeAccountId) == u
  {
    match FindAccount(u.telegramAccounts, accountId)
    case None =>
    case Some(i) =>
      var w := Switched(u, accountId).value;
      assert ActiveAt(w.telegramAccounts, i) && w.telegramAccounts[i].id == accountId;
      if UserSaveable(u) {
        assert forall j :: 0 <= j < |w.telegramAccounts| ==> AccountSaveable(w.telegramAccounts[j]) by {
          forall j | 0 <= j < |w.telegramAccounts| ensures AccountSaveable(w.telegramAccounts[j]) {
            assert AccountSaveable(u.telegramAccounts[j]);
          }
        }
      }
  }

  /** `switchTelegramAccount`: clears every active flag, sets the chosen
      one's, saves, and issues a token carrying the new active id. */
  method SwitchTelegramAccount(user: UserDocument?, accountId: DocId, sign: Signer)
    returns (r: Result<(string, AccountView), string>)
    requires user != null ==> user.Valid()
    modifies user
    ensures user == null ==> r == Err(TelegramApi.UserNotFound)
    ensures user != null ==>
              match Switched(old(user.State()), accountId)
              case Err(e) => r == Err(e) && user.State() == old(user.State())
              case Ok(w) =>
                user.State() == w
                && r == Ok((Token(sign, w), View(w.telegramAccounts[FindAccount(old(user.telegramAccounts), accountId).value])))
    ensures user != null ==> user.Valid() && user.nextAccountId == old(user.nextAccountId)
  {
    if user == null {
      return Err(TelegramApi.UserNotFound);
    }
    ghost var before := user.State();
    var found := FindAccount(user.telegramAccounts, accountId);
    if found.None? {
      return Err(AccountNotFound);
    }
    var i := found.value;
    SwitchedActivates(before, accountId);
    user.DeactivateAll();
    user.telegramAccounts := user.telegramAccounts[i := user.telegramAccounts[i].(isActive := true)];
    user.activeAccountId := Some(user.telegramAccounts[i].id);
    assert user.telegramAccounts == Activate(before.telegramAccounts, i);
    r := Ok((Token(sign, user.State()), View(user.telegramAccounts[i])));
  }

  // ------------------------------------------------------------ delete

  /** The document after `remove()` of the entry at `i` and the
      reassignment of the active account. */
  function AfterDelete(u: User, i: nat): User
    requires i < |u.telegramAccounts|
  {
    var accs := u.telegramAccounts;
    var rest := Without(accs, i);
    if accs[i].isActive && |rest| > 0 then
      u.(telegramAccounts := rest[0 := rest[0].(isActive := true)], activeAccountId := Some(rest[0].id))
    else if |rest| == 0 then u.(telegramAccounts := rest, activeAccountId := None)
    else u.(telegramAccounts := rest)
  }

  function Deleted(u: User, accountId: DocId): Result<User, string> {
    match FindAccount(u.telegramAccounts, accountId)
    case None => Err(AccountNotFound)
    case Some(i) => Ok(AfterDelete(u, i))
  }

  /** Removing an entry keeps a stored document valid. */
  lemma AfterDeleteValid(u: User, i: nat, next: DocId)
    requires i < |u.telegramAccounts|
    requires UserSaveable(u) && AccountIdsDistinct(u.telegramAccounts)
    requires forall j :: 0 <= j < |u.telegramAccounts| ==> u.telegramAccounts[j].id < next
    ensures var w := AfterDelete(u, i);
            UserSaveable(w) && AccountIdsDistinct(w.telegramAccounts)
            && forall j :: 0 <= j < |w.telegramAccounts| ==> w.telegramAccounts[j].id < next
  {
    var accs := u.telegramAccounts;
    var rest := Without(accs, i);
    WithoutSound(accs, i, next);
    if accs[i].isActive && |rest| > 0 {
      ActivatedSound(rest, next);
    }
  }

  /** The entries left after a removal are saveable, distinct and below
      the next id when all entries were. */
  lemma WithoutSound(accs: seq<TelegramAccount>, i: nat, next: DocId)
    requires i < |accs| && AccountIdsDistinct(accs)
    requires forall j :: 0 <= j < |accs| ==> AccountSaveable(accs[j]) && accs[j].id < next
    ensures var rest := Without(accs, i);
            AccountIdsDistinct(rest) && forall j :: 0 <= j < |rest| ==> AccountSaveable(rest[j]) && rest[j].id < next
  {
    var rest := Without(accs, i);
    forall j | 0 <= j < |rest| ensures AccountSaveable(rest[j]) && rest[j].id < next {
      var k := if j < i then j else j + 1;
      assert rest[j] == accs[k];
    }
    forall a, b | 0 <= a < b < |rest| ensures rest[a].id != rest[b].id {
      var ka := if a < i then a else a + 1;
      var kb := if b < i then b else b + 1;
      assert rest[a] == accs[ka] && rest[b] == accs[kb] && ka < kb;
    }
  }

  /** Marking the first entry active keeps the entries sound. */
  lemma ActivatedSound(rest: seq<TelegramAccount>, next: DocId)
    requires |rest| > 0 && AccountIdsDistinct(rest)
    requires forall j :: 0 <= j < |rest| ==> AccountSaveable(rest[j]) && rest[j].id < next
    ensures var w := rest[0 := rest[0].(isActive := true)];
            AccountIdsDistinct(w) && forall j :: 0 <= j < |w| ==> AccountSaveable(w[j]) && w[j].id < next
  {
    var w := rest[0 := rest[0].(isActive := true)];
    assert forall j :: 0 <= j < |w| ==> w[j].id == rest[j].id && w[j].(isActive := false) == rest[j].(isActive := false);
  }

  /** Deleting keeps the account rule: the account is gone, the others
      stay in order, and when the active one went the first remaining
      one takes over. */
  lemma DeleteKeepsOneActive(u: User, accountId: DocId)
    requires OneActive(u.telegramAccounts, u.activeAccountId) && AccountIdsDistinct(u.telegramAccounts)
    requires Deleted(u, accountId).Ok?
    ensures var w := Deleted(u, accountId).value;
            var i := FindAccount(u.telegramAccounts, accountId).value;
            OneActive(w.telegramAccounts, w.activeAccountId)
            && |w.telegramAccounts| == |u.telegramAccounts| - 1
            && (forall j :: 0 <= j < |w.telegramAccounts| ==> w.telegramAccounts[j].id != accountId)
            && (forall j :: 0 <= j < |w.telegramAccounts| ==>
                  w.telegramAccounts[j].(isActive := false) == Without(u.telegramAccounts, i)[j].(isActive := false))
            && (!u.telegramAccounts[i].isActive ==> w.activeAccountId == u.activeAccountId)
  {
    var i := FindAccount(u.telegramAccounts, accountId).value;
    assert Deleted(u, accountId).value == AfterDelete(u, i);
    AfterDeleteShape(u, i);
    AfterDeleteOneActive(u, i);
  }

  /** The entries left are the others, in order, up to the flag of the one
      promoted; none carries the removed id. */
  lemma AfterDeleteShape(u: User, i: nat)
    requires i < |u.telegramAccounts| && AccountIdsDistinct(u.telegramAccounts)
    ensures var w := AfterDelete(u, i);
            var accs := u.telegramAccounts;
            |w.telegramAccounts| == |accs| - 1
            && (forall j :: 0 <= j < |w.telegramAccounts| ==> w.telegramAccounts[j].id != accs[i].id)
            && (forall j :: 0 <= j < |w.telegramAccounts| ==>
                  w.telegramAccounts[j].(isActive := false) == Without(accs, i)[j].(isActive := false))
  {
    var accs := u.telegramAccounts;
    var rest := Without(accs, i);
    forall j | 0 <= j < |rest| ensures rest[j].id != accs[i].id {
      var k := if j < i then j else j + 1;
      assert rest[j] == accs[k] && k != i;
    }
  }

  /** Removing an entry keeps the one-active rule, and removing an inactive
      one keeps the active account. */
  lemma AfterDeleteOneActive(u: User, i: nat)
    requires i < |u.telegramAccounts| && OneActive(u.telegramAccounts, u.activeAccountId)
    ensures OneActive(AfterDelete(u, i).telegramAccounts, AfterDelete(u, i).activeAccountId)
    ensures !u.telegramAccounts[i].isActive ==> AfterDelete(u, i).activeAccountId == u.activeAccountId
  {
    var accs := u.telegramAccounts;
    var a :| 0 <= a < |accs| && ActiveAt(accs, a) && u.activeAccountId == Some(accs[a].id);
    if accs[i].isActive {
      DeleteActive(accs, i, a);
    } else {
      DeleteInactive(accs, i, a);
    }
  }

  lemma DeleteActive(accs: seq<TelegramAccount>, i: nat, a: nat)
    requires i < |accs| && ActiveAt(accs, a) && accs[i].isActive
    ensures a == i
    ensures |accs| > 1 ==> var rest := Without(accs, i); ActiveAt(rest[0 := rest[0].(isActive := true)], 0)
  {
    if |accs| > 1 {
      var rest := Without(accs, i);
      var t := rest[0 := rest[0].(isActive := true)];
      forall j | 0 < j < |t| ensures !t[j].isActive {
        var k := if j < i then j else j + 1;
        assert t[j] == accs[k] && k != i;
      }
    }
  }

  lemma DeleteInactive(accs: seq<TelegramAccount>, i: nat, a: nat)
    requires i < |accs| && ActiveAt(accs, a) && !accs[i].isActive
    ensures var rest := Without(accs, i);
            var b := if a < i then a else a - 1;
            0 <= b < |rest| && ActiveAt(rest, b) && rest[b] == accs[a]
  {
    var rest := Without(accs, i);
    var b := if a < i then a else a - 1;
    assert rest[b] == accs[a];
    forall j | 0 <= j < |rest| && j != b ensures !rest[j].isActive {
      var k := if j < i then j else j + 1;
      assert rest[j] == accs[k] && k != a;
    }
  }

  function SyncViews(accounts: seq<TelegramAccount>): (r: seq<SyncView>)
    ensures |r| == |accounts| && forall j :: 0 <= j < |accounts| ==> r[j] == SyncViewOf(accounts[j])
  {
    seq(|accounts|, j requires 0 <= j < |accounts| => SyncViewOf(accounts[j]))
  }

  /** `deleteTelegramAccount`: a new token only when the active account was
      deleted, and the remaining accounts. */
  method DeleteTelegramAccount(user: UserDocument?, accountId: DocId, sign: Signer)
    returns (r: Result<(Option<string>, seq<SyncView>), string>)
    requires user != null ==> user.Valid()
    modifies user
    ensures user == null ==> r == Err(TelegramApi.UserNotFound)
    ensures user != null ==>
              match Deleted(old(user.State()), accountId)
              case Err(e) => r == Err(e) && user.State() == old(user.State())
              case Ok(w) =>
                var wasActive := old(user.telegramAccounts)[FindAccount(old(user.telegramAccounts), accountId).value].isActive;
                user.State() == w
                && r == Ok((if wasActive then Some(Token(sign, w)) else None, SyncViews(w.telegramAccounts)))
    ensures user != null ==> user.Valid() && user.nextAccountId == old(user.nextAccountId)
  {
    if user == null {
      return Err(TelegramApi.UserNotFound);
    }
    ghost var before := user.State();
    var found := FindAccount(user.telegramAccounts, accountId);
    if found.None? {
      return Err(AccountNotFound);
    }
    var i := found.value;
    var wasActive := user.telegramAccounts[i].isActive;
    user.RemoveAccount(i);
    if wasActive && |user.telegramAccounts| > 0 {
      user.telegramAccounts := user.telegramAccounts[0 := user.telegramAccounts[0].(isActive := true)];
      user.activeAccountId := Some(user.telegramAccounts[0].id);
    } else if |user.telegramAccounts| == 0 {
      user.activeAccountId := None;
    }
    assert user.State() == AfterDelete(before, i);
    AfterDeleteValid(before, i, user.nextAccountId);
    var token := if wasActive then Some(Token(sign, user.State())) else None;
    r := Ok((token, SyncViews(user.telegramAccounts)));
  }

  // ------------------------------------------------------------ add

  /** A request field that is present and not the empty string. */
  predicate Present(s: Option<string>) { s.Some? && s.value != "" }

  predicate CompleteCredentials(input: AccountInput) {
    Present(input.apiId) && Present(input.apiHash) && Present(input.sessionString)
  }

  /** The name of an account sent without one: '账号 ' and its position,
      counting from 1. */
  function PositionName(count: nat): string {
    "账号 " + NatToString(count + 1)
  }

  /** The plain object `addTelegramAccount` builds from the request; it
      has no object id of its own, so 0 stands in. */
  function PlainAccount(input: AccountInput, count: nat, envelope: string, now: int): TelegramAccount
    requires CompleteCredentials(input)
  {
    TelegramAccount(0, if Present(input.name) then input.name.value else PositionName(count),
                    input.apiId.value, input.apiHash.value, envelope, false,
                    None, None, None, None, None, None, now)
  }

  /** The document after the push: the entry becomes the active account
      when it is the only one. */
  function WithPushed(u: User, entry: TelegramAccount): User {
    if |u.telegramAccounts| == 0 then
      u.(telegramAccounts := [entry.(isActive := true)], activeAccountId := Some(entry.id))
    else u.(telegramAccounts := u.telegramAccounts + [entry])
  }

  /** Deciphering the stored envelope and asking the client for the
      account's details; every failure is reworded. */
  function FetchDetails(c: Crypto, connect: (string, string, string) -> TelegramApi.Client, a: TelegramAccount)
    : (r: Result<TelegramApi.AccountDetails, string>)
    ensures r.Err? ==> StartsWith(r.error, DetailsFailed)
  {
    match Decrypt(c, a.sessionString)
    case Err(e) => Err(DetailsFailed + e)
    case Ok(session) =>
      match TelegramApi.InitializeAndGetAccountDetails(connect(a.apiId, a.apiHash, session))
      case Err(e) => Err(DetailsFailed + e)
      case Ok(d) => Ok(d)
  }

  /** The reply, read off the plain object: the details land on it, but it
      never receives the object id or the active flag of the stored entry. */
  function PlainReply(a: TelegramAccount, d: TelegramApi.AccountDetails, now: int): SyncView {
    SyncView(AccountView(None, a.name, a.isActive, d.username, d.firstName, d.lastName, d.profilePhoto, Some(d.id)),
             Some(now))
  }

  /** What one call leaves behind: the reply, the stored document and the
      id allocator. */
  datatype AddStep = AddStep(result: Result<SyncView, string>, stored: User, next: DocId)

  /** `addTelegramAccount` as written: the first save stores the copy the
      push made, the details go to the plain object only, and the second
      save has nothing new to store. */
  function Added(u: User, next: DocId, input: AccountInput, c: Crypto, iv: seq<byte>,
                 connect: (string, string, string) -> TelegramApi.Client, now: int): AddStep
  {
    if !CompleteCredentials(input) then AddStep(Err(IncompleteCredentials), u, next)
    else match Encrypt(c, iv, input.sessionString)
      case Err(e) => AddStep(Err(e), u, next)
      case Ok(envelope) =>
        var plain := PlainAccount(input, |u.telegramAccounts|, envelope, now);
        var reply := match FetchDetails(c, connect, plain)
          case Err(e) => Err(e)
          case Ok(d) => Ok(PlainReply(plain, d, now));
        AddStep(reply, WithPushed(u, plain.(id := next)), next + 1)
  }

  /** The outcomes of adding: missing credentials and a failed encryption
      change nothing; past them the entry is stored with a fresh id and
      the next position, whatever the Telegram call then does, and a
      failure there is reported under the reworded message. */
  lemma AddedOutcomes(u: User, next: DocId, input: AccountInput, c: Crypto, iv: seq<byte>,
                      connect: (string, string, string) -> TelegramApi.Client, now: int)
    ensures var s := Added(u, next, input, c, iv, connect, now);
            (!CompleteCredentials(input) ==> s == AddStep(Err(IncompleteCredentials), u, next))
            && (CompleteCredentials(input) && Encrypt(c, iv, input.sessionString).Err? ==>
                  s == AddStep(Err(EncryptFailed), u, next))
            && (CompleteCredentials(input) && Encrypt(c, iv, input.sessionString).Ok? ==>
                  var n := |u.telegramAccounts|;
                  var e := s.stored.telegramAccounts[n];
                  |s.stored.telegramAccounts| == n + 1 && s.next == next + 1
                  && s.stored.telegramAccounts[..n] == u.telegramAccounts
                  && e.id == next && e.apiId == input.apiId.value && e.apiHash == input.apiHash.value
                  && e.name == (if Present(input.name) then input.name.value else PositionName(n))
                  && (s.result.Err? ==> StartsWith(s.result.error, DetailsFailed)))
  {
  }

  /** Adding keeps a stored document valid and keeps the account rule:
      the first account becomes the active one, a later one is added
      inactive. */
  lemma AddedKeepsRule(u: User, next: DocId, input: AccountInput, c: Crypto, iv: seq<byte>,
                       connect: (string, string, string) -> TelegramApi.Client, now: int)
    requires UserSaveable(u) && AccountIdsDistinct(u.telegramAccounts)
    requires forall j :: 0 <= j < |u.telegramAccounts| ==> u.telegramAccounts[j].id < next
    requires OneActive(u.telegramAccounts, u.activeAccountId)
    ensures var s := Added(u, next, input, c, iv, connect, now);
            var accs := s.stored.telegramAccounts;
            UserSaveable(s.stored) && AccountIdsDistinct(accs)
            && (forall j :: 0 <= j < |accs| ==> accs[j].id < s.next)
            && OneActive(accs, s.stored.activeAccountId)
            && (|u.telegramAccounts| > 0 ==> s.stored.activeAccountId == u.activeAccountId)
  {
    if CompleteCredentials(input) && Encrypt(c, iv, input.sessionString).Ok? {
      var envelope := Encrypt(c, iv, input.sessionString).value;
      EnvelopeShape(c, iv, input.sessionString);
      var entry := PlainAccount(input, |u.telegramAccounts|, envelope, now).(id := next);
      assert AccountSaveable(entry) by {
        assert entry.name != "" by {
          if !Present(input.name) {
            assert PositionName(|u.telegramAccounts|)[0] == '账';
          }
        }
      }
      assert Added(u, next, input, c, iv, connect, now).stored == WithPushed(u, entry);
      PushedKeepsRule(u, entry);
    }
  }

  /** Pushing a saveable, inactive entry whose id is above every stored one
      keeps the document saveable, its ids distinct and below `entry.id + 1`,
      and the one-active rule, with the active account unchanged when there
      was one. */
  lemma PushedKeepsRule(u: User, entry: TelegramAccount)
    requires UserSaveable(u) && AccountIdsDistinct(u.telegramAccounts)
    requires forall j :: 0 <= j < |u.telegramAccounts| ==> u.telegramAccounts[j].id < entry.id
    requires OneActive(u.telegramAccounts, u.activeAccountId)
    requires AccountSaveable(entry) && !entry.isActive
    ensures var v := WithPushed(u, entry);
            var accs := v.telegramAccounts;
            UserSaveable(v) && AccountIdsDistinct(accs)
            && (forall j :: 0 <= j < |accs| ==> accs[j].id < entry.id + 1)
            && OneActive(accs, v.activeAccountId)
            && (|u.telegramAccounts| > 0 ==> v.activeAccountId == u.activeAccountId)
  {
    var accs := u.telegramAccounts;
    if |accs| > 0 {
      var a :| 0 <= a < |accs| && ActiveAt(accs, a) && u.activeAccountId == Some(accs[a].id);
      assert ActiveAt(accs + [entry], a);
    } else {
      assert ActiveAt([entry.(isActive := true)], 0);
    }
  }

  /** The stored session string of the new entry deciphers back to the
      one sent. */
  lemma AddedStoresSession(u: User, next: DocId, input: AccountInput, c: Crypto, iv: seq<byte>,
                           connect: (string, string, string) -> TelegramApi.Client, now: int)
    requires CipherInverse(c)
    requires CompleteCredentials(input) && Encrypt(c, iv, input.sessionString).Ok?
    ensures var s := Added(u, next, input, c, iv, connect, now);
            |s.stored.telegramAccounts| == |u.telegramAccounts| + 1
            && Decrypt(c, s.stored.telegramAccounts[|u.telegramAccounts|].sessionString) == Ok(input.sessionString.value)
  {
    RoundTrip(c, iv, input.sessionString.value);
  }

  /** The reply of a successful add names no account id and always says
      inactive, although the only account of a user is stored active; the
      Telegram details it reports are not in the stored entry. */
  lemma AddedReplyDiffersFromStored(u: User, next: DocId, input: AccountInput, c: Crypto, iv: seq<byte>,
                                    connect: (string, string, string) -> TelegramApi.Client, now: int)
    requires Added(u, next, input, c, iv, connect, now).result.Ok?
    ensures var s := Added(u, next, input, c, iv, connect, now);
            var e := s.stored.telegramAccounts[|u.telegramAccounts|];
            s.result.value.view.id.None? && !s.result.value.view.isActive
            && (|u.telegramAccounts| == 0 ==> e.isActive)
            && s.result.value.view.telegramId.Some? && e.telegramId.None? && e.lastSync.None?
  {
  }

  /** The entry with the details written to it, as the second save was
      meant to store. */
  function WithDetails(a: TelegramAccount, d: TelegramApi.AccountDetails, now: int): TelegramAccount {
    a.(telegramId := Some(d.id), username := d.username, firstName := d.firstName, lastName := d.lastName,
       profilePhoto := d.profilePhoto, lastSync := Some(now))
  }

  /** `addTelegramAccount` with the details written to the stored entry and
      the reply read from it. */
  function AddedIntended(u: User, next: DocId, input: AccountInput, c: Crypto, iv: seq<byte>,
                         connect: (string, string, string) -> TelegramApi.Client, now: int): AddStep
  {
    if !CompleteCredentials(input) then AddStep(Err(IncompleteCredentials), u, next)
    else match Encrypt(c, iv, input.sessionString)
      case Err(e) => AddStep(Err(e), u, next)
      case Ok(envelope) =>
        var plain := PlainAccount(input, |u.telegramAccounts|, envelope, now);
        var saved := WithPushed(u, plain.(id := next));
        var n := |u.telegramAccounts|;
        match FetchDetails(c, connect, plain)
        case Err(e) => AddStep(Err(e), saved, next + 1)
        case Ok(d) =>
          var entry := WithDetails(saved.telegramAccounts[n], d, now);
          var stored := saved.(telegramAccounts := saved.telegramAccounts[n := entry]);
          AddStep(Ok(SyncViewOf(entry)), stored, next + 1)
  }

  /** Corrected, the reply is the view of the stored entry: it carries the
      new id, the stored active flag and the details, which are kept. */
  lemma AddedIntendedReplyIsStored(u: User, next: DocId, input: AccountInput, c: Crypto, iv: seq<byte>,
                                   connect: (string, string, string) -> TelegramApi.Client, now: int)
    requires AddedIntended(u, next, input, c, iv, connect, now).result.Ok?
    ensures var s := AddedIntended(u, next, input, c, iv, connect, now);
            var n := |u.telegramAccounts|;
            |s.stored.telegramAccounts| == n + 1
            && s.result.value == SyncViewOf(s.stored.telegramAccounts[n])
            && s.result.value.view.id == Some(next)
            && s.result.value.view.isActive == (n == 0)
            && s.result.value.view.telegramId.Some? && s.result.value.lastSync == Some(now)
            && s.stored.telegramAccounts[..n] == u.telegramAccounts
  {
  }

  /** `addTelegramAccount` as written, on the document `findById` found. */
  method AddTelegramAccount(user: UserDocument?, input: AccountInput, c: Crypto, iv: seq<byte>,
                            connect: (string, string, string) -> TelegramApi.Client, now: int)
    returns (r: Result<SyncView, string>)
    requires user != null ==> user.Valid() && OneActive(user.telegramAccounts, user.activeAccountId)
    modifies user
    ensures user == null ==> r == Err(TelegramApi.UserNotFound)
    ensures user != null ==>
              AddStep(r, user.State(), user.nextAccountId)
              == Added(old(user.State()), old(user.nextAccountId), input, c, iv, connect, now)
    ensures user != null ==> user.Valid() && OneActive(user.telegramAccounts, user.activeAccountId)
  {
    if user == null {
      return Err(TelegramApi.UserNotFound);
    }
    ghost var before := user.State();
    ghost var next := user.nextAccountId;
    AddedKeepsRule(before, next, input, c, iv, connect, now);
    if !Present(input.apiId) || !Present(input.apiHash) || !Present(input.sessionString) {
      return Err(IncompleteCredentials);
    }
    var envelope := Encrypt(c, iv, input.sessionString);
    if envelope.Err? {
      return Err(envelope.error);
    }
    var plain := PlainAccount(input, |user.telegramAccounts|, envelope.value, now);
    var entry := user.Push(plain);
    if |user.telegramAccounts| == 1 {
      user.telegramAccounts := user.telegramAccounts[0 := user.telegramAccounts[0].(isActive := true)];
      user.activeAccountId := Some(user.telegramAccounts[0].id);
    }
    assert user.State() == WithPushed(before, plain.(id := next));
    var details := FetchDetails(c, connect, plain);
    if details.Err? {
      return Err(details.error);
    }
    r := Ok(PlainReply(plain, details.value, now));
  }

  // ------------------------------------------------------------ update

  /** The fields an update request may carry; a missing one is left alone. */
  datatype AccountUpdate = AccountUpdate(name: Option<string>, apiId: Option<string>, apiHash: Option<string>,
                                         sessionString: Option<string>)

  /** A session string replaces the stored one only when it is not blank. */
  predicate ReplacesSession(upd: AccountUpdate) {
    upd.sessionString.Some? && !IsBlank(upd.sessionString.value)
  }

  /** The account with the sent fields written over it and, when given,
      the new envelope. */
  function Amended(a: TelegramAccount, upd: AccountUpdate, envelope: Option<string>): TelegramAccount {
    a.(name := upd.name.GetOr(a.name), apiId := upd.apiId.GetOr(a.apiId), apiHash := upd.apiHash.GetOr(a.apiHash),
       sessionString := envelope.GetOr(a.sessionString))
  }

  /** `updateTelegramAccount` on a found document. */
  function Updated(u: User, accountId: DocId, upd: AccountUpdate, c: Crypto, iv: seq<byte>): Result<User, string> {
    match FindAccount(u.telegramAccounts, accountId)
    case None => Err(AccountNotFound)
    case Some(i) =>
      if ReplacesSession(upd) && Encrypt(c, iv, upd.sessionString).Err? then Err(EncryptFailed)
      else
        var envelope := if ReplacesSession(upd) then Some(Encrypt(c, iv, upd.sessionString).value) else None;
        var w := u.(telegramAccounts := u.telegramAccounts[i := Amended(u.telegramAccounts[i], upd, envelope)]);
        if UserSaveable(w) then Ok(w) else Err(UserValidationFailed)
  }

  /** An update changes only the sent fields of the chosen account: the
      active flags, the active id, the ids and every other account stay,
      so the account rule and validity are kept; a non-blank session
      string is stored enciphered, a blank one is ignored. */
  lemma UpdatedChangesOnlyFields(u: User, accountId: DocId, upd: AccountUpdate, c: Crypto, iv: seq<byte>)
    requires Updated(u, accountId, upd, c, iv).Ok?
    ensures var w := Updated(u, accountId, upd, c, iv).value;
            var i := FindAccount(u.telegramAccounts, accountId).value;
            var a := u.telegramAccounts[i];
            var b := w.telegramAccounts[i];
            |w.telegramAccounts| == |u.telegramAccounts| && UserSaveable(w)
            && w.(telegramAccounts := u.telegramAccounts) == u
            && (forall j :: 0 <= j < |w.telegramAccounts| && j != i ==> w.telegramAccounts[j] == u.telegramAccounts[j])
            && b.(name := a.name, apiId := a.apiId, apiHash := a.apiHash, sessionString := a.sessionString) == a
            && b.name == upd.name.GetOr(a.name) && b.apiId == upd.apiId.GetOr(a.apiId)
            && b.apiHash == upd.apiHash.GetOr(a.apiHash)
            && (!ReplacesSession(upd) ==> b.sessionString == a.sessionString)
            && (OneActive(u.telegramAccounts, u.activeAccountId) ==> OneActive(w.telegramAccounts, w.activeAccountId))
            && (AccountIdsDistinct(u.telegramAccounts) ==> AccountIdsDistinct(w.telegramAccounts))
  {
    var w := Updated(u, accountId, upd, c, iv).value;
    var i := FindAccount(u.telegramAccounts, accountId).value;
    if OneActive(u.telegramAccounts, u.activeAccountId) {
      var k :| 0 <= k < |u.telegramAccounts| && ActiveAt(u.telegramAccounts, k) && u.activeAccountId == Some(u.telegramAccounts[k].id);
      assert ActiveAt(w.telegramAccounts, k);
    }
  }

  /** A replaced session string deciphers back to the one sent. */
  lemma UpdatedStoresSession(u: User, accountId: DocId, upd: AccountUpdate, c: Crypto, iv: seq<byte>)
    requires CipherInverse(c)
    requires Updated(u, accountId, upd, c, iv).Ok? && ReplacesSession(upd)
    ensures var w := Updated(u, accountId, upd, c, iv).value;
            var i := FindAccount(u.telegramAccounts, accountId).value;
            i < |w.telegramAccounts| && Decrypt(c, w.telegramAccounts[i].sessionString) == Ok(upd.sessionString.value)
  {
    RoundTrip(c, iv, upd.sessionString.value);
  }

  /** `updateTelegramAccount`: a rejected update leaves the stored
      document as it was. */
  method UpdateTelegramAccount(user: UserDocument?, accountId: DocId, upd: AccountUpdate, c: Crypto, iv: seq<byte>)
    returns (r: Result<SyncView, string>)
    requires user != null ==> user.Valid()
    modifies user
    ensures user == null ==> r == Err(TelegramApi.UserNotFound)
    ensures user != null ==>
              match Updated(old(user.State()), accountId, upd, c, iv)
              case Err(e) => r == Err(e) && user.State() == old(user.State())
              case Ok(w) =>
                user.State() == w
                && r == Ok(SyncViewOf(w.telegramAccounts[FindAccount(old(user.telegramAccounts), accountId).value]))
    ensures user != null ==> user.Valid() && user.nextAccountId == old(user.nextAccountId)
  {
    if user == null {
      return Err(TelegramApi.UserNotFound);
    }
    ghost var before := user.State();
    var found := FindAccount(user.telegramAccounts, accountId);
    if found.None? {
      return Err(AccountNotFound);
    }
    var i := found.value;
    var envelope: Option<string> := None;
    if upd.sessionString.Some? && !IsBlank(upd.sessionString.value) {
      var enc := Encrypt(c, iv, upd.sessionString);
      if enc.Err? {
        return Err(EncryptFailed);
      }
      envelope := Some(enc.value);
    }
    var b := Amended(user.telegramAccounts[i], upd, envelope);
    var accs := user.telegramAccounts[i := b];
    if !UserSaveable(user.State().(telegramAccounts := accs)) {
      return Err(UserValidationFailed);
    }
    UpdatedChangesOnlyFields(before, accountId, upd, c, iv);
    user.telegramAccounts := accs;
    r := Ok(SyncViewOf(b));
  }

  // ------------------------------------------------------------ settings

  /** The settings fields a request may send; a missing one is kept. */
  datatype SettingsPatch = SettingsPatch(defaultView: Option<string>, itemsPerPage: Option<int>)

  /** `Object.assign({}, user.settings, patch)` cast back into the schema,
      where `defaultView` must be 'grid' or 'list'. */
  function MergedSettings(s: Settings, p: SettingsPatch): (r: Result<Settings, string>)
    ensures r.Ok? <==> p.defaultView.None? || p.defaultView.value in {"grid", "list"}
    ensures r.Err? ==> r.error == UserValidationFailed
    ensures r.Ok? ==> ViewName(r.value.defaultView) == p.defaultView.GetOr(ViewName(s.defaultView))
                      && r.value.itemsPerPage == p.itemsPerPage.GetOr(s.itemsPerPage)
  {
    var view := if p.defaultView.Some? then ParseView(p.defaultView.value) else Some(s.defaultView);
    match view
    case None => Err(UserValidationFailed)
    case Some(v) => Ok(Settings(v, p.itemsPerPage.GetOr(s.itemsPerPage)))
  }

  /** Sending the same settings twice is the same as sending them once,
      and sending nothing changes nothing. */
  lemma MergedSettingsIdempotent(s: Settings, p: SettingsPatch)
    ensures MergedSettings(s, SettingsPatch(None, None)) == Ok(s)
    ensures MergedSettings(s, p).Ok? ==> MergedSettings(MergedSettings(s, p).value, p) == MergedSettings(s, p)
  {
    if MergedSettings(s, p).Ok? && p.defaultView.Some? {
      assert ParseView(p.defaultView.value).Some?;
    }
  }

  /** `updateUserSettings`: the merged settings are saved and returned. */
  method UpdateUserSettings(user: UserDocument?, p: SettingsPatch) returns (r: Result<Settings, string>)
    requires user != null ==> user.Valid()
    modifies user
    ensures user == null ==> r == Err(TelegramApi.UserNotFound)
    ensures user != null ==> r == MergedSettings(old(user.settings), p)
    ensures user != null && r.Ok? ==> user.State() == old(user.State()).(settings := r.value)
    ensures user != null && r.Err? ==> user.State() == old(user.State())
    ensures user != null ==> user.Valid() && user.nextAccountId == old(user.nextAccountId)
  {
    if user == null {
      return Err(TelegramApi.UserNotFound);
    }
    r := MergedSettings(user.settings, p);
    if r.Ok? {
      user.settings := r.value;
    }
  }

  // ------------------------------------------------------------ credentials

  /** The credentials handed to the sync code, the session deciphered. */
  datatype Credentials = Credentials(apiId: string, apiHash: string, sessionString: string, telegramId: Option<string>)

  /** `getActiveAccountCredentials` on the document `findById` found. */
  function ActiveCredentials(user: Option<User>, c: Crypto): (r: Result<Credentials, string>)
    ensures user.None? ==> r == Err(TelegramApi.UserNotFound)
    ensures user.Some? && FirstActive(user.value.telegramAccounts).None? ==> r == Err(NoActiveAccount)
    ensures r.Ok? <==> user.Some? && FirstActive(user.value.telegramAccounts).Some?
                       && Decrypt(c, user.value.telegramAccounts[FirstActive(user.value.telegramAccounts).value].sessionString).Ok?
    ensures r.Ok? ==> var a := user.value.telegramAccounts[FirstActive(user.value.telegramAccounts).value];
                      r.value == Credentials(a.apiId, a.apiHash, Decrypt(c, a.sessionString).value, a.telegramId)
  {
    match user
    case None => Err(TelegramApi.UserNotFound)
    case Some(u) =>
      match FirstActive(u.telegramAccounts)
      case None => Err(NoActiveAccount)
      case Some(i) =>
        var a := u.telegramAccounts[i];
        match Decrypt(c, a.sessionString)
        case Err(e) => Err(e)
        case Ok(session) => Ok(Credentials(a.apiId, a.apiHash, session, a.telegramId))
  }

  /** Under the account rule the credentials are those of the account
      `activeAccountId` names, and a user without accounts has none. */
  lemma CredentialsOfActiveId(u: User, c: Crypto)
    requires OneActive(u.telegramAccounts, u.activeAccountId) && AccountIdsDistinct(u.telegramAccounts)
    ensures u.activeAccountId.None? ==> ActiveCredentials(Some(u), c) == Err(NoActiveAccount)
    ensures u.activeAccountId.Some? ==>
              exists i :: 0 <= i < |u.telegramAccounts| && u.telegramAccounts[i].id == u.activeAccountId.value
                          && FirstActive(u.telegramAccounts) == Some(i)
  {
    if |u.telegramAccounts| > 0 {
      var k :| 0 <= k < |u.telegramAccounts| && ActiveAt(u.telegramAccounts, k) && u.activeAccountId == Some(u.telegramAccounts[k].id);
      assert FirstActive(u.telegramAccounts) == Some(k);
    }
  }

  /** After a switch the sync code gets the chosen account's credentials. */
  lemma CredentialsAfterSwitch(u: User, accountId: DocId, c: Crypto)
    requires Switched(u, accountId).Ok?
    ensures var a := u.telegramAccounts[FindAccount(u.telegramAccounts, accountId).value];
            var r := ActiveCredentials(Some(Switched(u, accountId).value), c);
            (r.Ok? <==> Decrypt(c, a.sessionString).Ok?)
            && (r.Ok? ==> r.value == Credentials(a.apiId, a.apiHash, Decrypt(c, a.sessionString).value, a.telegramId))
  {
    var i := FindAccount(u.telegramAccounts, accountId).value;
    var w := Switched(u, accountId).value;
    assert FirstActive(w.telegramAccounts) == Some(i);
  }

  /** After the active account's session string is replaced, the sync code
      gets the new one back. */
  lemma CredentialsAfterUpdate(u: User, accountId: DocId, upd: AccountUpdate, c: Crypto, iv: seq<byte>)
    requires CipherInverse(c)
    requires Updated(u, accountId, upd, c, iv).Ok? && ReplacesSession(upd)
    requires FirstActive(u.telegramAccounts) == FindAccount(u.telegramAccounts, accountId)
    ensures ActiveCredentials(Some(Updated(u, accountId, upd, c, iv).value), c).Ok?
    ensures ActiveCredentials(Some(Updated(u, accountId, upd, c, iv).value), c).value.sessionString
            == upd.sessionString.value
  {
    var w := Updated(u, accountId, upd, c, iv).value;
    var i := FindAccount(u.telegramAccounts, accountId).value;
    UpdatedChangesOnlyFields(u, accountId, upd, c, iv);
    UpdatedStoresSession(u, accountId, upd, c, iv);
    assert FirstActive(w.telegramAccounts) == Some(i) by {
      assert forall j :: 0 <= j < |w.telegramAccounts| ==> w.telegramAccounts[j].isActive == u.telegramAccounts[j].isActive;
    }
  }
}
