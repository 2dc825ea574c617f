/** The three stored document kinds (tags, favorites, users with their
    embedded Telegram accounts) with the defaults, enumerations and
    required fields their schemas declare. */
module Models {
  import opened Wrappers
  import opened Text

  /** The string form of a user's object id. */
  type UserId = string

  /** The object id of a stored document or embedded account. */
  type DocId = nat

  // ------------------------------------------------------------------ Tag

  /** A tag row: `count` has no lower bound in the schema. */
  datatype Tag = Tag(id: DocId, userId: UserId, name: string, color: Option<string>,
                     count: int, createdAt: int)

  /** A tag as `new Tag({...})` builds it: `count` defaults to 0. */
  function NewTag(id: DocId, userId: UserId, name: string, color: Option<string>, now: int): (t: Tag)
    ensures t.count == 0 && t.userId == userId && t.name == name && t.color == color
  {
    Tag(id, userId, name, color, 0, now)
  }

  /** What the tag schema keeps of a tag on save: it declares no `color`
      path, and a strict schema drops undeclared fields, so the color is
      lost. */
  function SchemaCast(t: Tag): (s: Tag)
    ensures s.color.None?
    ensures s.(color := t.color) == t
  {
    t.(color := None)
  }

  /** A tag created with a color is stored without it, everything else
      kept. */
  lemma ColorDropped(id: DocId, userId: UserId, name: string, c: string, now: int)
    ensures var t := NewTag(id, userId, name, Some(c), now);
            SchemaCast(t).color != t.color && SchemaCast(t).(color := t.color) == t
  {
  }

  /** `required` on a string rejects it when missing or empty. */
  predicate TagSaveable(t: Tag) {
    t.userId != "" && t.name != ""
  }

  // ------------------------------------------------------------- Favorite

  datatype FavoriteType = TextType | PhotoType | VideoType | AudioType | DocumentType | LinkType

  function TypeName(t: FavoriteType): string {
    match t
    case TextType => "text"
    case PhotoType => "photo"
    case VideoType => "video"
    case AudioType => "audio"
    case DocumentType => "document"
    case LinkType => "link"
  }

  /** The `enum` validator: exactly the six names are accepted. */
  function ParseType(s: string): (r: Option<FavoriteType>)
    ensures r.Some? ==> TypeName(r.value) == s
    ensures forall t :: TypeName(t) == s ==> r == Some(t)
  {
    match s
    case "text" => Some(TextType)
    case "photo" => Some(PhotoType)
    case "video" => Some(VideoType)
    case "audio" => Some(AudioType)
    case "document" => Some(DocumentType)
    case "link" => Some(LinkType)
    case _ => None
  }

  /** The content sub-document; every field is optional. */
  datatype Content = Content(
    text: Option<string>, caption: Option<string>, fileId: Option<string>,
    fileName: Option<string>, fileSize: Option<int>, mimeType: Option<string>,
    duration: Option<int>, width: Option<int>, height: Option<int>,
    thumbnailUrl: Option<string>, url: Option<string>)

  const NoContent := Content(None, None, None, None, None, None, None, None, None, None, None)

  /** A favorite: `tags` is a plain list with no uniqueness constraint,
      and nothing makes `(userId, telegramMessageId)` unique. */
  datatype Favorite = Favorite(
    id: DocId, userId: UserId, telegramMessageId: string, kind: FavoriteType,
    content: Content, tags: seq<string>, category: Option<string>, savedAt: int,
    localPath: Option<string>, isDownloaded: bool)

  /** A favorite as `new Favorite({...})` builds it without `tags` or
      `isDownloaded`: an empty tag list and `isDownloaded` false. */
  function NewFavorite(id: DocId, userId: UserId, messageId: string, kind: FavoriteType,
                       content: Content, category: Option<string>, savedAt: int,
                       localPath: Option<string>): (f: Favorite)
    ensures f.tags == [] && !f.isDownloaded
    ensures f.userId == userId && f.telegramMessageId == messageId && f.kind == kind
  {
    Favorite(id, userId, messageId, kind, content, [], category, savedAt, localPath, false)
  }

  predicate FavoriteSaveable(f: Favorite) {
    f.userId != "" && f.telegramMessageId != ""
  }

  // ----------------------------------------------------------------- User

  const DefaultAccountName := "默认账号"

  /** An embedded Telegram account; `sessionString` holds the encrypted
      envelope. */
  datatype TelegramAccount = TelegramAccount(
    id: DocId, name: string, apiId: string, apiHash: string, sessionString: string,
    isActive: bool, telegramId: Option<string>, username: Option<string>,
    firstName: Option<string>, lastName: Option<string>, profilePhoto: Option<string>,
    lastSync: Option<int>, createdAt: int)

  /** An account built from the given credentials: `name` defaults to
      '默认账号' and `isActive` to false. */
  function NewAccount(id: DocId, name: Option<string>, apiId: string, apiHash: string,
                      sessionString: string, now: int): (a: TelegramAccount)
    ensures a.name == name.GetOr(DefaultAccountName) && !a.isActive
    ensures a.apiId == apiId && a.apiHash == apiHash && a.sessionString == sessionString
  {
    TelegramAccount(id, name.GetOr(DefaultAccountName), apiId, apiHash, sessionString,
                    false, None, None, None, None, None, None, now)
  }

  /** The four required account fields are present and non-empty. */
  predicate AccountSaveable(a: TelegramAccount) {
    a.name != "" && a.apiId != "" && a.apiHash != "" && a.sessionString != ""
  }

  datatype View = Grid | List

  function ViewName(v: View): string {
    match v
    case Grid => "grid"
    case List => "list"
  }

  /** The `defaultView` enum validator. */
  function ParseView(s: string): (r: Option<View>)
    ensures r.Some? ==> ViewName(r.value) == s
    ensures forall v :: ViewName(v) == s ==> r == Some(v)
  {
    if s == "grid" then Some(Grid) else if s == "list" then Some(List) else None
  }

  datatype Settings = Settings(defaultView: View, itemsPerPage: int)

  const DefaultSettings := Settings(Grid, 20)

  datatype User = User(
    id: UserId, username: string, password: string, telegramAccounts: seq<TelegramAccount>,
    activeAccountId: Option<DocId>, lastLogin: int, settings: Settings)

  /** A new user document: no accounts, no active account, default settings. */
  function NewUser(id: UserId, username: string, password: string, now: int): (u: User)
    ensures u.telegramAccounts == [] && u.activeAccountId.None? && u.settings == DefaultSettings
  {
    User(id, username, password, [], None, now, DefaultSettings)
  }

  predicate UserSaveable(u: User) {
    u.username != "" && u.password != ""
    && forall i :: 0 <= i < |u.telegramAccounts| ==> AccountSaveable(u.telegramAccounts[i])
  }

  /** The `unique` index on `username`. */
  predicate UsernamesUnique(users: seq<User>) {
    forall i, j :: 0 <= i < j < |users| ==> users[i].username != users[j].username
  }
}
