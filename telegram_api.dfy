/** The Telegram client service: the content classifier, the file name a
    download is stored under, the error rewording of the account-details
    call, and the ingestion loop that turns Saved Messages into favorites
    and tag counts.  The Telegram client itself is a set of oracles. */
module TelegramApi {
  import opened Wrappers
  import opened Text
  import opened Patterns
  import opened Models
  import opened Ledger
  import opened MongoStore
  import opened Vault
  import opened UserDocuments

  // ----------------------------------------------------------- classifier

  const ImageCategory := "图片"
  const VideoCategory := "视频"
  const AudioCategory := "音频"
  const DocumentCategory := "文档"
  const LinkCategory := "链接"
  const TextCategory := "文本"
  const OtherCategory := "其他"

  predicate IsCategory(s: string) {
    s == ImageCategory || s == VideoCategory || s == AudioCategory || s == DocumentCategory
    || s == LinkCategory || s == TextCategory || s == OtherCategory
  }

  /** JavaScript's `s || d` on an optional string. */
  function Or(s: Option<string>, d: string): string {
    if s.Some? && s.value != "" then s.value else d
  }

  /** Whether one of the four MIME rules decides the category. */
  predicate MimeDecides(c: Content) {
    c.mimeType.Some? && c.mimeType.value != ""
    && (StartsWith(c.mimeType.value, "image/") || StartsWith(c.mimeType.value, "video/")
        || StartsWith(c.mimeType.value, "audio/") || Contains(c.mimeType.value, "pdf"))
  }

  /** `categorizeContent({type: kind, content: c})`. */
  function Categorize(kind: string, c: Content): (r: string)
    ensures IsCategory(r)
  {
    if c.mimeType.Some? && c.mimeType.value != "" && StartsWith(c.mimeType.value, "image/") then ImageCategory
    else if c.mimeType.Some? && c.mimeType.value != "" && StartsWith(c.mimeType.value, "video/") then VideoCategory
    else if c.mimeType.Some? && c.mimeType.value != "" && StartsWith(c.mimeType.value, "audio/") then AudioCategory
    else if c.mimeType.Some? && c.mimeType.value != "" && Contains(c.mimeType.value, "pdf") then DocumentCategory
    else if kind == "photo" then ImageCategory
    else if kind == "video" then VideoCategory
    else if kind == "audio" then AudioCategory
    else if kind == "document" then DocumentCategory
    else if kind == "link" then LinkCategory
    else if kind == "text" then
      if c.text.Some? && c.text.value != "" && HasUrl(c.text.value) then LinkCategory else TextCategory
    else OtherCategory
  }

  /** A deciding MIME type wins over whatever type is declared. */
  lemma MimeWins(k1: string, k2: string, c: Content)
    requires MimeDecides(c)
    ensures Categorize(k1, c) == Categorize(k2, c)
  {
  }

  /** Without a deciding MIME type the declared type decides; text is a
      link exactly when it holds a URL, and an unknown type is 'other'. */
  lemma CategorizeByKind(kind: string, c: Content)
    requires !MimeDecides(c)
    ensures kind == "photo" ==> Categorize(kind, c) == ImageCategory
    ensures kind == "video" ==> Categorize(kind, c) == VideoCategory
    ensures kind == "audio" ==> Categorize(kind, c) == AudioCategory
    ensures kind == "document" ==> Categorize(kind, c) == DocumentCategory
    ensures kind == "link" ==> Categorize(kind, c) == LinkCategory
    ensures kind == "text" ==>
              (Categorize(kind, c) == LinkCategory <==> c.text.Some? && HasUrl(c.text.value))
    ensures kind !in ["photo", "video", "audio", "document", "link", "text"] ==>
              Categorize(kind, c) == OtherCategory
  {
  }

  // ------------------------------------------------- where a download goes

  /** The `mimeToExt` table. */
  function MimeExt(mime: string): (r: Option<string>)
    ensures r.Some? ==> |r.value| >= 1 && r.value[0] == '.' && '/' !in r.value
  {
    match mime
    case "image/jpeg" => Some(".jpg")
    case "image/png" => Some(".png")
    case "image/gif" => Some(".gif")
    case "video/mp4" => Some(".mp4")
    case "video/webm" => Some(".webm")
    case "audio/mpeg" => Some(".mp3")
    case "audio/ogg" => Some(".ogg")
    case "application/pdf" => Some(".pdf")
    case "application/zip" => Some(".zip")
    case "application/vnd.openxmlformats-officedocument.wordprocessingml.document" => Some(".docx")
    case _ => None
  }

  /** The lower-cased extension of the file name, or ''. */
  function NameExt(name: Option<string>): (e: string)
    ensures e == "" || (e[0] == '.' && '/' !in e)
  {
    var x := ExtName(Or(name, ""));
    var e := ToLower(x);
    assert forall i :: 0 <= i < |e| ==> e[i] != '/' by {
      forall i | 0 <= i < |e| ensures e[i] != '/' {
        assert x[i] != '/';
      }
    }
    e
  }

  /** The `fileExt` choice of `downloadFile`. */
  function FileExt(mimeType: Option<string>, name: Option<string>): (e: string)
    ensures |e| >= 1 && e[0] == '.' && '/' !in e
  {
    var ext :=
      if mimeType.Some? && mimeType.value != "" then
        if MimeExt(mimeType.value).Some? then MimeExt(mimeType.value).value else NameExt(name)
      else if name.Some? && name.value != "" then NameExt(name)
      else "";
    if ext == "" then ".bin" else ext
  }

  /** The two branches of the choice come to one order: the MIME table,
      then the name's extension, then '.bin'. */
  lemma FileExtOrder(mimeType: Option<string>, name: Option<string>)
    ensures FileExt(mimeType, name) ==
              if mimeType.Some? && mimeType.value != "" && MimeExt(mimeType.value).Some? then MimeExt(mimeType.value).value
              else if NameExt(name) != "" then NameExt(name)
              else ".bin"
  {
    if !(mimeType.Some? && mimeType.value != "") && !(name.Some? && name.value != "") {
      assert Or(name, "") == "";
      assert ExtName("") == "";
      assert |ToLower("")| == 0;
    }
  }

  /** What `downloadFile` is handed: the message's media object. */
  datatype Thumb = Thumb(name: Option<string>)
  datatype MediaObject = MediaObject(mimeType: Option<string>, name: Option<string>, thumb: Option<Thumb>)

  datatype Downloaded = Downloaded(localPath: string, thumbnailUrl: Option<string>)

  predicate HasMimePrefix(m: MediaObject, prefix: string) {
    m.mimeType.Some? && m.mimeType.value != "" && StartsWith(m.mimeType.value, prefix)
  }

  /** `downloadFile`; `ok` says whether the download, the file writes and
      any thumbnail generation succeed (otherwise it throws). */
  function DownloadFile(m: MediaObject, uploadDir: string, userId: UserId, messageId: string, ok: bool): (r: Option<Downloaded>)
    ensures r.Some? <==> ok
  {
    if !ok then None
    else
      var localPath := uploadDir + "/" + userId + "/" + messageId + FileExt(m.mimeType, m.name);
      var isVideo := HasMimePrefix(m, "video/");
      var thumb :=
        if isVideo && m.thumb.Some? then Some("/media/" + userId + "/" + messageId + "_thumb" + ExtName(Or(m.thumb.value.name, ".jpg")))
        else if isVideo then Some("/media/" + userId + "/" + messageId + "_thumb.jpg")
        else None;
      var url := if HasMimePrefix(m, "image/") && thumb.None? then Some("/media/" + userId + "/" + Basename(localPath)) else thumb;
      Some(Downloaded(localPath, url))
  }

  /** The file lands in the user's directory under the message id and the
      chosen extension. */
  lemma DownloadFilePath(m: MediaObject, uploadDir: string, userId: UserId, messageId: string)
    requires '/' !in messageId
    ensures var d := DownloadFile(m, uploadDir, userId, messageId, true).value;
            var ext := FileExt(m.mimeType, m.name);
            d.localPath == (uploadDir + "/" + userId) + "/" + (messageId + ext)
            && Basename(d.localPath) == messageId + ext
  {
    var ext := FileExt(m.mimeType, m.name);
    var dir := uploadDir + "/" + userId;
    var name := messageId + ext;
    NoSlashJoin(messageId, ext);
    assert DownloadFile(m, uploadDir, userId, messageId, true).value.localPath == uploadDir + "/" + userId + "/" + messageId + ext;
    assert uploadDir + "/" + userId + "/" + messageId + ext == dir + "/" + name;
    BasenameJoin(dir, name);
  }

  /** Two pieces without a '/' join into one without it. */
  lemma NoSlashJoin(a: string, b: string)
    requires '/' !in a && '/' !in b
    ensures '/' !in a + b
  {
    forall i | 0 <= i < |a + b| ensures (a + b)[i] != '/' {
      if i < |a| {
        assert (a + b)[i] == a[i];
      } else {
        assert (a + b)[i] == b[i - |a|];
      }
    }
  }

  /** No MIME type starts with both prefixes. */
  lemma PrefixesExclusive(m: MediaObject)
    ensures !(HasMimePrefix(m, "image/") && HasMimePrefix(m, "video/"))
  {
    if HasMimePrefix(m, "image/") {
      assert m.mimeType.value[0] == 'i';
    }
  }

  /** An image is its own thumbnail, a video gets a `_thumb` one, anything
      else none. */
  lemma DownloadFileThumbnail(m: MediaObject, uploadDir: string, userId: UserId, messageId: string)
    requires '/' !in messageId
    ensures var d := DownloadFile(m, uploadDir, userId, messageId, true).value;
            var ext := FileExt(m.mimeType, m.name);
            (HasMimePrefix(m, "image/") ==> d.thumbnailUrl == Some("/media/" + userId + "/" + (messageId + ext)))
            && (HasMimePrefix(m, "video/") ==> d.thumbnailUrl.Some? && StartsWith(d.thumbnailUrl.value, "/media/" + userId + "/" + messageId + "_thumb"))
            && (!HasMimePrefix(m, "image/") && !HasMimePrefix(m, "video/") ==> d.thumbnailUrl.None?)
  {
    DownloadFilePath(m, uploadDir, userId, messageId);
    PrefixesExclusive(m);
  }

  // --------------------------------------------------- account details

  const SessionInvalid := "Telegram会话字符串无效或过期，请重新生成或API凭证不匹配。"
  const PhoneUnoccupied := "Telegram手机号码未注册或API凭证不匹配。"
  const BadApiCredentials := "API ID或API Hash不正确。"
  const PasswordRequired := "Telegram账户启用了两步验证，" + "请确保Session String已包含密码验证（通过Telethon或GramJS交互式登录生成）。"
  const ConnectTimeout := "Telegram API 连接超时，请检查网络或凭证是否正确。服务器IP可能被限制。"
  const GenericPrefix := "Telegram API错误："
  const NotConnected := "Telegram客户端连接失败，无法建立连接。"
  const InvalidMe := "无法获取完整的Telegram账户信息，API凭证或Session String可能无效。"

  /** Whether a raw client error is one of the recognised kinds. */
  predicate KnownClientError(raw: string) {
    Contains(raw, "AuthKey must be set") || Contains(raw, "session string") || Contains(raw, "PHONE_NUMBER_REQUIRED")
    || Contains(raw, "PHONE_NUMBER_UNOCCUPIED") || Contains(raw, "AUTH_KEY_UNREGISTERED")
    || Contains(raw, "PASSWORD_REQUIRED") || raw == "TIMEOUT"
  }

  /** The catch block of `initializeAndGetAccountDetails`. */
  function ClientErrorMessage(raw: string): string {
    if Contains(raw, "AuthKey must be set") || Contains(raw, "session string") || Contains(raw, "PHONE_NUMBER_REQUIRED") then SessionInvalid
    else if Contains(raw, "PHONE_NUMBER_UNOCCUPIED") then PhoneUnoccupied
    else if Contains(raw, "AUTH_KEY_UNREGISTERED") then BadApiCredentials
    else if Contains(raw, "PASSWORD_REQUIRED") then PasswordRequired
    else if raw == "TIMEOUT" then ConnectTimeout
    else GenericPrefix + raw
  }

  /** A raw error is passed through under the generic prefix exactly when
      it is of no recognised kind. */
  lemma ClientErrorFallback(raw: string)
    ensures ClientErrorMessage(raw) == GenericPrefix + raw <==> !KnownClientError(raw)
  {
    var g := GenericPrefix + raw;
    assert g[8] == ' ' && g[12] == '错';
    assert SessionInvalid[8] == '会';
    assert PhoneUnoccupied[8] == '手';
    assert BadApiCredentials[0] == 'A' && g[0] == 'T';
    assert PasswordRequired[8] == '账';
    assert ConnectTimeout[12] == ' ';
  }

  /** The client's view of the logged-in user. */
  datatype Me = Me(id: nat, username: Option<string>, firstName: Option<string>, lastName: Option<string>, hasPhoto: bool)

  /** What the client calls return: `connect` fails or leaves the client
      connected or not, `getMe` fails or yields a user or nothing, and
      `photo` is the profile-photo download's error, if it fails. */
  datatype Client = Client(connect: Result<bool, string>, getMe: Result<Option<Me>, string>, photo: Option<string>)

  datatype AccountDetails = AccountDetails(id: string, username: Option<string>, firstName: Option<string>,
                                           lastName: Option<string>, profilePhoto: Option<string>)

  function NonEmpty(s: Option<string>): (r: Option<string>)
    ensures r.Some? ==> r.value != ""
  {
    if s.Some? && s.value != "" then s else None
  }

  function ProfilePhotoUrl(id: nat): string {
    "/media/profiles/" + NatToString(id) + "/" + NatToString(id) + "_profile.jpg"
  }

  /** `initializeAndGetAccountDetails`: every failure after the client is
      built, including its own two, goes through the rewording. Building the
      client and its session comes before the `try`, so a throw there is not
      reworded; the model takes the client as built. */
  function InitializeAndGetAccountDetails(c: Client): (r: Result<AccountDetails, string>)
    ensures r.Ok? <==> c.connect == Ok(true) && c.getMe.Ok? && c.getMe.value.Some? && c.getMe.value.value.id != 0
                       && (c.getMe.value.value.hasPhoto ==> c.photo.None?)
    ensures r.Ok? ==> r.value.id == NatToString(c.getMe.value.value.id)
    ensures r.Ok? ==> (r.value.profilePhoto.Some? <==> c.getMe.value.value.hasPhoto)
  {
    match c.connect
    case Err(e) => Err(ClientErrorMessage(e))
    case Ok(connected) =>
      if !connected then Err(ClientErrorMessage(NotConnected))
      else match c.getMe
        case Err(e) => Err(ClientErrorMessage(e))
        case Ok(me) =>
          if me.None? || me.value.id == 0 then Err(ClientErrorMessage(InvalidMe))
          else if me.value.hasPhoto && c.photo.Some? then Err(ClientErrorMessage(c.photo.value))
          else
            var m := me.value;
            Ok(AccountDetails(NatToString(m.id), NonEmpty(m.username), NonEmpty(m.firstName), NonEmpty(m.lastName),
                              if m.hasPhoto then Some(ProfilePhotoUrl(m.id)) else None))
  }

  // ------------------------------------------------- Saved Messages sync

  const UserNotFound := "用户不存在"
  const NoActiveToSync := "没有活跃的Telegram账号来同步收藏"
  /** What reading `.w` of the missing last size throws. */
  const NoPhotoSize := "Cannot read properties of undefined (reading 'w')"
  /** The `limit` of the `getMessages` call. */
  const MessageLimit := 100

  datatype PhotoSize = PhotoSize(w: int, h: int)
  datatype Photo = Photo(id: nat, sizes: seq<PhotoSize>)
  datatype FileAttribute = FileAttribute(fileName: Option<string>)
  /** A video, audio or document attachment. */
  datatype MediaFile = MediaFile(id: nat, duration: Option<int>, w: Option<int>, h: Option<int>,
                                 mimeType: Option<string>, attributes: seq<FileAttribute>, size: Option<int>)
  /** A Saved Messages entry as the client returns it. */
  datatype Message = Message(id: nat, message: Option<string>, date: int, media: Option<MediaObject>,
                             photo: Option<Photo>, video: Option<MediaFile>,
                             audio: Option<MediaFile>, document: Option<MediaFile>)

  /** The environment of one sync: the upload directory, which message
      ids' downloads succeed, and the clock. */
  datatype SyncEnv = SyncEnv(uploadDir: string, downloadOk: string -> bool, now: int)

  predicate HasText(m: Message) {
    m.message.Some? && m.message.value != ""
  }

  /** The file name of the first attribute, or `d` when there is none. */
  function FirstFileName(attributes: seq<FileAttribute>, d: string): Option<string> {
    if |attributes| > 0 then attributes[0].fileName else Some(d)
  }

  /** The type and content the message-type branches pick, before any
      download. */
  function Derive(m: Message): (r: Result<(FavoriteType, Content), string>)
    ensures r.Err? <==> m.media.Some? && m.photo.Some? && |m.photo.value.sizes| == 0
    ensures r.Err? ==> r.error == NoPhotoSize
    ensures r.Ok? && m.media.None? ==> r.value.0 == LinkType || r.value.0 == TextType
  {
    var caption := Some(Or(m.message, ""));
    if m.media.Some? then
      if m.photo.Some? then
        var sizes := m.photo.value.sizes;
        if |sizes| == 0 then Err(NoPhotoSize)
        else
          var largest := sizes[|sizes| - 1];
          Ok((PhotoType, NoContent.(fileId := Some(NatToString(m.photo.value.id)), caption := caption,
                                    width := Some(largest.w), height := Some(largest.h))))
      else if m.video.Some? then
        var v := m.video.value;
        Ok((VideoType, NoContent.(fileId := Some(NatToString(v.id)), caption := caption, duration := v.duration,
                                  width := v.w, height := v.h, mimeType := v.mimeType)))
      else if m.audio.Some? then
        var a := m.audio.value;
        Ok((AudioType, NoContent.(fileId := Some(NatToString(a.id)), caption := caption, duration := a.duration,
                                  mimeType := a.mimeType, fileName := FirstFileName(a.attributes, "audio.mp3"),
                                  fileSize := a.size)))
      else if m.document.Some? then
        var d := m.document.value;
        Ok((DocumentType, NoContent.(fileId := Some(NatToString(d.id)), caption := caption,
                                     mimeType := d.mimeType, fileName := FirstFileName(d.attributes, "document"),
                                     fileSize := d.size)))
      else Ok((TextType, NoContent.(text := caption)))
    else if HasText(m) && HasUrl(m.message.value) then
      Ok((LinkType, NoContent.(url := FirstUrl(m.message.value), text := m.message)))
    else Ok((TextType, NoContent.(text := caption)))
  }

  /** The tags of a message: its hashtags, in order and with repeats. */
  function MessageTags(m: Message): (tags: seq<string>)
    ensures forall i :: 0 <= i < |tags| ==> IsWord(tags[i])
    ensures !HasText(m) ==> tags == []
  {
    if HasText(m) then Hashtags(m.message.value) else []
  }

  /** The favorite one new message becomes, with the download's outcome:
      `Err` when reading the message throws. */
  function BuildFavorite(u: UserId, m: Message, env: SyncEnv): (r: Result<Favorite, string>)
    ensures r.Err? <==> Derive(m).Err?
    ensures r.Ok? ==> r.value.userId == u && r.value.telegramMessageId == NatToString(m.id)
                      && r.value.savedAt == m.date && r.value.tags == MessageTags(m)
                      && r.value.category.Some? && IsCategory(r.value.category.value)
                      && (r.value.isDownloaded <==> r.value.localPath.Some?)
  {
    match Derive(m)
    case Err(e) => Err(e)
    case Ok(d) =>
      var (kind, content0) := d;
      var mid := NatToString(m.id);
      var dl := if m.media.Some? then DownloadFile(m.media.value, env.uploadDir, u, mid, env.downloadOk(mid)) else None;
      var localPath := if dl.Some? then Some(dl.value.localPath) else None;
      var thumb :=
        if dl.None? then None
        else if kind == PhotoType && dl.value.thumbnailUrl.None? then Some("/media/" + u + "/" + Basename(dl.value.localPath))
        else dl.value.thumbnailUrl;
      var content := if dl.Some? then content0.(url := thumb) else content0;
      var category := Categorize(TypeName(kind), content);
      Ok(NewFavorite(0, u, mid, kind, content.(thumbnailUrl := thumb), Some(category), m.date, localPath)
           .(tags := MessageTags(m), isDownloaded := localPath.Some?))
  }

  /** The running state of the sync loop: the database, the count of new
      favorites, and the error that stopped the loop, if any. */
  datatype Progress = Progress(db: Db, count: nat, failure: Option<string>)

  /** One iteration: a message already stored for the user is skipped, a
      message that cannot be read stops the loop with its error, and any
      other is ingested and counted. */
  function SyncStep(p: Progress, u: UserId, m: Message, env: SyncEnv): Progress {
    if p.failure.Some? || HasMessage(p.db.favorites, u, NatToString(m.id)) then p
    else match BuildFavorite(u, m, env)
      case Err(e) => p.(failure := Some(e))
      case Ok(f) => Progress(Ingest(p.db, f, env.now), p.count + 1, None)
  }

  /** The loop over the fetched messages, in order. */
  function SyncAll(db: Db, u: UserId, msgs: seq<Message>, env: SyncEnv): Progress
    decreases |msgs|
  {
    if |msgs| == 0 then Progress(db, 0, None)
    else SyncStep(SyncAll(db, u, msgs[..|msgs| - 1], env), u, msgs[|msgs| - 1], env)
  }

  lemma SyncAllSnoc(db: Db, u: UserId, msgs: seq<Message>, m: Message, env: SyncEnv)
    ensures SyncAll(db, u, msgs + [m], env) == SyncStep(SyncAll(db, u, msgs, env), u, m, env)
  {
    assert (msgs + [m])[..|msgs|] == msgs;
  }

  // ------------------------------------------------ what one message gives

  /** A message without media whose text holds a URL is a link to the
      first URL, kept with its text; nothing is downloaded. */
  lemma BuildLink(u: UserId, m: Message, env: SyncEnv)
    requires m.media.None? && HasText(m) && HasUrl(m.message.value)
    ensures var r := BuildFavorite(u, m, env);
            r.Ok? && r.value.kind == LinkType && r.value.content.url == FirstUrl(m.message.value)
            && r.value.content.url.Some? && r.value.content.text == m.message
            && r.value.category == Some(LinkCategory) && r.value.localPath.None? && !r.value.isDownloaded
  {
    FirstUrlSpec(m.message.value);
  }

  /** A message without media or URL is plain text ('' when it has none). */
  lemma BuildPlainText(u: UserId, m: Message, env: SyncEnv)
    requires m.media.None? && !(HasText(m) && HasUrl(m.message.value))
    ensures var r := BuildFavorite(u, m, env);
            r.Ok? && r.value.kind == TextType && r.value.content.text == Some(Or(m.message, ""))
            && r.value.category == Some(TextCategory) && r.value.localPath.None?
  {
    var t := Or(m.message, "");
    if t != "" {
      assert HasText(m) && t == m.message.value;
    }
  }

  /** A photo keeps its largest (last) size; once downloaded, a photo whose
      media is not a video is shown from its own file. */
  lemma BuildPhoto(u: UserId, m: Message, env: SyncEnv)
    requires m.media.Some? && m.photo.Some? && |m.photo.value.sizes| > 0
    ensures var r := BuildFavorite(u, m, env);
            var last := m.photo.value.sizes[|m.photo.value.sizes| - 1];
            var mid := NatToString(m.id);
            r.Ok? && r.value.kind == PhotoType && r.value.category == Some(ImageCategory)
            && r.value.content.width == Some(last.w) && r.value.content.height == Some(last.h)
            && r.value.content.fileId == Some(NatToString(m.photo.value.id))
            && (env.downloadOk(mid) && !HasMimePrefix(m.media.value, "video/") ==>
                  r.value.isDownloaded
                  && r.value.content.thumbnailUrl == Some("/media/" + u + "/" + (mid + FileExt(m.media.value.mimeType, m.media.value.name)))
                  && r.value.content.url == r.value.content.thumbnailUrl)
  {
    var mid := NatToString(m.id);
    assert '/' !in mid by {
      assert forall i :: 0 <= i < |mid| ==> '0' <= mid[i] <= '9';
    }
    BuildKeepsDerived(u, m, env);
    if env.downloadOk(mid) && !HasMimePrefix(m.media.value, "video/") {
      PhotoShown(u, m, env);
    }
  }

  /** The favorite keeps the type and the file facts the message gave. */
  lemma BuildKeepsDerived(u: UserId, m: Message, env: SyncEnv)
    requires Derive(m).Ok?
    ensures var r := BuildFavorite(u, m, env);
            var c := Derive(m).value.1;
            r.Ok? && r.value.kind == Derive(m).value.0
            && r.value.content.width == c.width && r.value.content.height == c.height
            && r.value.content.fileId == c.fileId
  {
  }

  /** A downloaded photo whose media is not a video is shown from its own
      file. */
  lemma PhotoShown(u: UserId, m: Message, env: SyncEnv)
    requires Derive(m).Ok? && Derive(m).value.0 == PhotoType && m.media.Some?
    requires '/' !in NatToString(m.id) && env.downloadOk(NatToString(m.id))
    requires !HasMimePrefix(m.media.value, "video/")
    ensures var r := BuildFavorite(u, m, env);
            var mid := NatToString(m.id);
            r.Ok? && r.value.isDownloaded
            && r.value.content.thumbnailUrl == Some("/media/" + u + "/" + (mid + FileExt(m.media.value.mimeType, m.media.value.name)))
            && r.value.content.url == r.value.content.thumbnailUrl
  {
    var mid := NatToString(m.id);
    DownloadFilePath(m.media.value, env.uploadDir, u, mid);
    DownloadFileThumbnail(m.media.value, env.uploadDir, u, mid);
  }

  /** A failed download is not an error: the favorite is stored without a
      local file or thumbnail, with the content the message gave. */
  lemma BuildFailedDownload(u: UserId, m: Message, env: SyncEnv)
    requires Derive(m).Ok? && !(m.media.Some? && env.downloadOk(NatToString(m.id)))
    ensures var r := BuildFavorite(u, m, env);
            r.Ok? && r.value.localPath.None? && !r.value.isDownloaded
            && r.value.kind == Derive(m).value.0
            && r.value.content == Derive(m).value.1.(thumbnailUrl := None)
  {
  }

  // ---------------------------------------------------- the whole loop

  /** No user has two favorites for the same message. */
  predicate MessagesUnique(favs: seq<Favorite>) {
    forall i, j :: 0 <= i < j < |favs| && favs[i].userId == favs[j].userId ==>
      favs[i].telegramMessageId != favs[j].telegramMessageId
  }

  /** The loop only appends the user's new favorites, at most one per
      message. */
  lemma {:induction false} SyncAllGrowth(db: Db, u: UserId, msgs: seq<Message>, env: SyncEnv)
    ensures var p := SyncAll(db, u, msgs, env);
            p.count <= |msgs| && |p.db.favorites| == |db.favorites| + p.count
            && p.db.favorites[..|db.favorites|] == db.favorites
            && forall i :: |db.favorites| <= i < |p.db.favorites| ==> p.db.favorites[i].userId == u
    decreases |msgs|
  {
    if |msgs| > 0 {
      var init := msgs[..|msgs| - 1];
      SyncAllGrowth(db, u, init, env);
      var q := SyncAll(db, u, init, env);
      var p := SyncAll(db, u, msgs, env);
      var m := msgs[|msgs| - 1];
      if q.failure.None? && !HasMessage(q.db.favorites, u, NatToString(m.id)) && BuildFavorite(u, m, env).Ok? {
        var f := BuildFavorite(u, m, env).value;
        assert p.db.favorites == q.db.favorites + [f.(id := q.db.nextId)];
        assert p.db.favorites[..|q.db.favorites|] == q.db.favorites;
      }
    }
  }

  /** A stopped loop stays stopped: later messages change nothing. */
  lemma {:induction false} FailureSticks(db: Db, u: UserId, xs: seq<Message>, ys: seq<Message>, env: SyncEnv)
    requires SyncAll(db, u, xs, env).failure.Some?
    ensures SyncAll(db, u, xs + ys, env) == SyncAll(db, u, xs, env)
    decreases |ys|
  {
    if |ys| > 0 {
      var init := ys[..|ys| - 1];
      FailureSticks(db, u, xs, init, env);
      assert (xs + ys)[..|xs + ys| - 1] == xs + init;
    } else {
      assert xs + ys == xs;
    }
  }

  /** The loop keeps keys and ids sound. */
  lemma {:induction false} SyncAllValid(db: Db, u: UserId, msgs: seq<Message>, env: SyncEnv)
    requires Ledger.Valid(db)
    ensures Ledger.Valid(SyncAll(db, u, msgs, env).db)
    decreases |msgs|
  {
    if |msgs| > 0 {
      var init := msgs[..|msgs| - 1];
      SyncAllValid(db, u, init, env);
      var q := SyncAll(db, u, init, env);
      var b := BuildFavorite(u, msgs[|msgs| - 1], env);
      if b.Ok? {
        ValidIngest(q.db, b.value, env.now);
      }
    }
  }

  /** When no message names a tag twice, the tag counts stay equal to the
      number of favorites holding each tag. */
  lemma {:induction false} SyncAllConsistent(db: Db, u: UserId, msgs: seq<Message>, env: SyncEnv)
    requires Consistent(db)
    requires forall k :: 0 <= k < |msgs| ==> NoDup(MessageTags(msgs[k]))
    ensures Consistent(SyncAll(db, u, msgs, env).db)
    decreases |msgs|
  {
    if |msgs| > 0 {
      var init := msgs[..|msgs| - 1];
      SyncAllConsistent(db, u, init, env);
      var q := SyncAll(db, u, init, env);
      var b := BuildFavorite(u, msgs[|msgs| - 1], env);
      if b.Ok? {
        IngestConsistent(q.db, b.value, env.now);
      }
    }
  }

  /** The loop never stores a second favorite for a message. */
  lemma {:induction false} SyncAllUnique(db: Db, u: UserId, msgs: seq<Message>, env: SyncEnv)
    requires MessagesUnique(db.favorites)
    ensures MessagesUnique(SyncAll(db, u, msgs, env).db.favorites)
    decreases |msgs|
  {
    if |msgs| > 0 {
      var init := msgs[..|msgs| - 1];
      SyncAllUnique(db, u, init, env);
      var q := SyncAll(db, u, init, env);
      var p := SyncAll(db, u, msgs, env);
      var m := msgs[|msgs| - 1];
      if q.failure.None? && !HasMessage(q.db.favorites, u, NatToString(m.id)) && BuildFavorite(u, m, env).Ok? {
        var f := BuildFavorite(u, m, env).value;
        var favs := p.db.favorites;
        assert favs == q.db.favorites + [f.(id := q.db.nextId)];
        forall i, j | 0 <= i < j < |favs| && favs[i].userId == favs[j].userId
          ensures favs[i].telegramMessageId != favs[j].telegramMessageId
        {
          if j == |favs| - 1 {
            assert favs[i] == q.db.favorites[i];
          }
        }
      }
    }
  }

  /** Every message of the list is stored for the user. */
  predicate Covers(favs: seq<Favorite>, u: UserId, msgs: seq<Message>) {
    forall k :: 0 <= k < |msgs| ==> HasMessage(favs, u, NatToString(msgs[k].id))
  }

  /** After a loop that ran to the end, every fetched message is stored
      for the user. */
  lemma {:induction false} SyncAllCovers(db: Db, u: UserId, msgs: seq<Message>, env: SyncEnv)
    requires SyncAll(db, u, msgs, env).failure.None?
    ensures Covers(SyncAll(db, u, msgs, env).db.favorites, u, msgs)
    decreases |msgs|
  {
    if |msgs| > 0 {
      SyncAllLast(db, u, msgs, env);
      SyncAllCovers(db, u, msgs[..|msgs| - 1], env);
    }
  }

  /** The last step of a loop that went on: it went on before, and it
      covers the whole list once the earlier messages are covered. */
  lemma SyncAllLast(db: Db, u: UserId, msgs: seq<Message>, env: SyncEnv)
    requires |msgs| > 0 && SyncAll(db, u, msgs, env).failure.None?
    ensures SyncAll(db, u, msgs[..|msgs| - 1], env).failure.None?
    ensures Covers(SyncAll(db, u, msgs[..|msgs| - 1], env).db.favorites, u, msgs[..|msgs| - 1]) ==>
              Covers(SyncAll(db, u, msgs, env).db.favorites, u, msgs)
  {
    var init := msgs[..|msgs| - 1];
    var m := msgs[|msgs| - 1];
    var q := SyncAll(db, u, init, env);
    assert SyncAll(db, u, msgs, env) == SyncStep(q, u, m, env);
    StepGoesOn(q, u, m, env);
    if Covers(q.db.favorites, u, init) {
      StepCovers(q, u, init, m, env);
      CoversFromPrefix(SyncAll(db, u, msgs, env).db.favorites, u, msgs);
    }
  }

  /** A list is covered when its initial part and its last message are. */
  lemma CoversFromPrefix(favs: seq<Favorite>, u: UserId, msgs: seq<Message>)
    requires |msgs| > 0
    requires Covers(favs, u, msgs[..|msgs| - 1]) && HasMessage(favs, u, NatToString(msgs[|msgs| - 1].id))
    ensures Covers(favs, u, msgs)
  {
    forall k | 0 <= k < |msgs| - 1 ensures HasMessage(favs, u, NatToString(msgs[k].id)) {
      assert msgs[..|msgs| - 1][k] == msgs[k];
    }
  }

  /** A step that ends without failure started without one. */
  lemma StepGoesOn(q: Progress, u: UserId, m: Message, env: SyncEnv)
    ensures SyncStep(q, u, m, env).failure.None? ==> q.failure.None?
  {
  }

  /** A step that goes on covers the messages covered before and its own. */
  lemma StepCovers(q: Progress, u: UserId, init: seq<Message>, m: Message, env: SyncEnv)
    requires q.failure.None? && SyncStep(q, u, m, env).failure.None?
    requires Covers(q.db.favorites, u, init)
    ensures Covers(SyncStep(q, u, m, env).db.favorites, u, init)
    ensures HasMessage(SyncStep(q, u, m, env).db.favorites, u, NatToString(m.id))
  {
    StepKeepsMessages(q, u, m, env);
    CoversKept(q.db.favorites, SyncStep(q, u, m, env).db.favorites, u, init);
  }

  /** Favorites that keep every stored message keep a list covered. */
  lemma CoversKept(before: seq<Favorite>, after: seq<Favorite>, u: UserId, msgs: seq<Message>)
    requires forall id :: HasMessage(before, u, id) ==> HasMessage(after, u, id)
    requires Covers(before, u, msgs)
    ensures Covers(after, u, msgs)
  {
  }

  /** One step of a loop that goes on keeps every stored message and
      stores the step's own. */
  lemma StepKeepsMessages(q: Progress, u: UserId, m: Message, env: SyncEnv)
    requires q.failure.None? && SyncStep(q, u, m, env).failure.None?
    ensures HasMessage(SyncStep(q, u, m, env).db.favorites, u, NatToString(m.id))
    ensures forall id :: HasMessage(q.db.favorites, u, id) ==> HasMessage(SyncStep(q, u, m, env).db.favorites, u, id)
  {
    var p := SyncStep(q, u, m, env);
    if p != q {
      var f := BuildFavorite(u, m, env).value;
      var g := f.(id := q.db.nextId);
      assert p.db.favorites == q.db.favorites + [g];
      forall id | true
        ensures HasMessage(p.db.favorites, u, id) <==> HasMessage(q.db.favorites, u, id) || (g.userId == u && g.telegramMessageId == id)
      {
        HasMessageAppend(q.db.favorites, g, u, id);
      }
    }
  }

  /** Messages that are all stored already add nothing. */
  lemma {:induction false} SyncAllPresent(db: Db, u: UserId, msgs: seq<Message>, env: SyncEnv)
    requires forall k :: 0 <= k < |msgs| ==> HasMessage(db.favorites, u, NatToString(msgs[k].id))
    ensures SyncAll(db, u, msgs, env) == Progress(db, 0, None)
    decreases |msgs|
  {
    if |msgs| > 0 {
      var init := msgs[..|msgs| - 1];
      assert forall k :: 0 <= k < |init| ==> init[k] == msgs[k];
      SyncAllPresent(db, u, init, env);
    }
  }

  /** Syncing the same messages again right after a completed sync stores
      nothing and counts 0. */
  lemma Resync(db: Db, u: UserId, msgs: seq<Message>, env: SyncEnv)
    requires SyncAll(db, u, msgs, env).failure.None?
    ensures var p := SyncAll(db, u, msgs, env);
            SyncAll(p.db, u, msgs, env) == Progress(p.db, 0, None)
  {
    SyncAllCovers(db, u, msgs, env);
    SyncAllPresent(SyncAll(db, u, msgs, env).db, u, msgs, env);
  }

  // ------------------------------------------------------- the service

  /** The newest `MessageLimit` messages of the history. */
  function Newest(history: seq<Message>): (r: seq<Message>)
    ensures |r| <= MessageLimit && |r| <= |history| && r == history[..|r|]
    ensures |history| <= MessageLimit ==> r == history
  {
    if |history| <= MessageLimit then history else history[..MessageLimit]
  }

  /** Everything `syncUserFavorites` does before its loop: find the user
      and its first active account, decipher the session string, and
      fetch the messages.  `fetch` stands for the client: given the
      session string it yields the Saved Messages history, newest first,
      or the error of connecting or fetching, which is passed on as is.
      The result is the account's index and the messages to ingest. */
  function Preflight(user: Option<User>, c: Crypto, fetch: string -> Result<seq<Message>, string>)
    : (r: Result<(nat, seq<Message>), string>)
    ensures user.None? ==> r == Err(UserNotFound)
    ensures user.Some? && FirstActive(user.value.telegramAccounts).None? ==> r == Err(NoActiveToSync)
    ensures r.Ok? ==> user.Some? && FirstActive(user.value.telegramAccounts) == Some(r.value.0)
    ensures r.Ok? ==> var key := Decrypt(c, user.value.telegramAccounts[r.value.0].sessionString);
                      key.Ok? && fetch(key.value).Ok? && r.value.1 == Newest(fetch(key.value).value)
    ensures user.Some? && FirstActive(user.value.telegramAccounts).Some?
            && Decrypt(c, user.value.telegramAccounts[FirstActive(user.value.telegramAccounts).value].sessionString).Err?
            ==> r == Err(DecryptFailed)
  {
    match user
    case None => Err(UserNotFound)
    case Some(usr) =>
      match FirstActive(usr.telegramAccounts)
      case None => Err(NoActiveToSync)
      case Some(i) =>
        match Decrypt(c, usr.telegramAccounts[i].sessionString)
        case Err(e) => Err(e)
        case Ok(session) =>
          match fetch(session)
          case Err(e) => Err(e)
          case Ok(history) => Ok((i, Newest(history)))
  }

  function Loaded(user: UserDocument?): Option<User>
    reads user
  {
    if user == null then None else Some(user.State())
  }

  lemma SyncStepSkip(p: Progress, u: UserId, m: Message, env: SyncEnv)
    requires HasMessage(p.db.favorites, u, NatToString(m.id))
    ensures SyncStep(p, u, m, env) == p
  {
  }

  lemma SyncStepStop(p: Progress, u: UserId, m: Message, env: SyncEnv)
    requires p.failure.None? && !HasMessage(p.db.favorites, u, NatToString(m.id))
    requires BuildFavorite(u, m, env).Err?
    ensures SyncStep(p, u, m, env) == p.(failure := Some(BuildFavorite(u, m, env).error))
  {
  }

  lemma SyncStepIngest(p: Progress, u: UserId, m: Message, env: SyncEnv)
    requires p.failure.None? && !HasMessage(p.db.favorites, u, NatToString(m.id))
    requires BuildFavorite(u, m, env).Ok?
    ensures SyncStep(p, u, m, env) == Progress(Ingest(p.db, BuildFavorite(u, m, env).value, env.now), p.count + 1, None)
  {
  }

  /** The loop's bookkeeping: a turn extends the processed prefix by one
      message, and a turn that stops settles the whole list. */
  lemma LoopTurn(db0: Db, u: UserId, msgs: seq<Message>, k: nat, env: SyncEnv, p: Progress, q: Progress)
    requires k < |msgs| && SyncAll(db0, u, msgs[..k], env) == p
    requires SyncStep(p, u, msgs[k], env) == q
    ensures SyncAll(db0, u, msgs[..k + 1], env) == q
    ensures q.failure.Some? ==> SyncAll(db0, u, msgs, env) == q
  {
    SyncAllSnoc(db0, u, msgs[..k], msgs[k], env);
    assert msgs[..k + 1] == msgs[..k] + [msgs[k]];
    if q.failure.Some? {
      FailureSticks(db0, u, msgs[..k + 1], msgs[k + 1..], env);
      assert msgs[..k + 1] + msgs[k + 1..] == msgs;
    }
  }

  /** One turn of the loop over the messages, as one `SyncStep`. */
  method IngestOne(store: Store, u: UserId, m: Message, env: SyncEnv, count: nat)
    returns (count': nat, failure: Option<string>)
    requires store.Valid()
    modifies store
    ensures store.Valid()
    ensures SyncStep(Progress(old(store.State()), count, None), u, m, env) == Progress(store.State(), count', failure)
  {
    ghost var p := Progress(store.State(), count, None);
    count', failure := count, None;
    if HasMessage(store.favorites, u, NatToString(m.id)) {
      SyncStepSkip(p, u, m, env);
      return;
    }
    var b := BuildFavorite(u, m, env);
    if b.Err? {
      SyncStepStop(p, u, m, env);
      failure := Some(b.error);
      return;
    }
    SyncStepIngest(p, u, m, env);
    var f := b.value;
    assert f.userId == u;
    var saved := store.InsertFavorite(f);
    assert store.State() == Append(p.db, f);
    store.IncrementTags(u, f.tags, [], env.now);
    assert store.State() == IncAll(Append(p.db, f), f.userId, f.tags, [], env.now);
    ValidIngest(p.db, f, env.now);
    count' := count + 1;
  }

  /** The loop of `syncUserFavorites` over the fetched messages: each new
      message is saved as a favorite and its tags upsert-incremented; the
      first message that cannot be read stops the loop with its error. */
  method IngestMessages(store: Store, u: UserId, msgs: seq<Message>, env: SyncEnv)
    returns (count: nat, failure: Option<string>)
    requires store.Valid()
    modifies store
    ensures store.Valid()
    ensures SyncAll(old(store.State()), u, msgs, env) == Progress(store.State(), count, failure)
  {
    ghost var db0 := store.State();
    var k := 0;
    count := 0;
    while k < |msgs|
      invariant 0 <= k <= |msgs|
      invariant SyncAll(db0, u, msgs[..k], env) == Progress(store.State(), count, None)
      invariant store.Valid()
    {
      ghost var p := Progress(store.State(), count, None);
      var stop;
      count, stop := IngestOne(store, u, msgs[k], env, count);
      LoopTurn(db0, u, msgs, k, env, p, Progress(store.State(), count, stop));
      if stop.Some? {
        return count, stop;
      }
      k := k + 1;
    }
    assert msgs[..k] == msgs;
    failure := None;
  }

  /** `syncUserFavorites(u)`: `user` is what `User.findById(u)` loaded.
      A message that cannot be read ends the sync with its error, keeping
      what was stored before it; only a sync that runs to the end stamps
      the active account's `lastSync` and returns the count. */
  method SyncUserFavorites(store: Store, u: UserId, user: UserDocument?, c: Crypto,
                           fetch: string -> Result<seq<Message>, string>, env: SyncEnv)
    returns (r: Result<nat, string>)
    requires store.Valid()
    modifies store, user
    ensures store.Valid()
    ensures user != null && old(user.Valid()) ==> user.Valid()
    ensures match Preflight(old(Loaded(user)), c, fetch)
            case Err(e) =>
              r == Err(e) && store.State() == old(store.State()) && (user != null ==> user.State() == old(user.State()))
            case Ok(v) =>
              var p := SyncAll(old(store.State()), u, v.1, env);
              user != null && store.State() == p.db
              && (p.failure.Some? ==> r == Err(p.failure.value) && user.State() == old(user.State()))
              && (p.failure.None?
                  ==> r == Ok(p.count)
                      && user.State() == old(user.State()).(telegramAccounts := old(user.telegramAccounts)[v.0 := old(user.telegramAccounts)[v.0].(lastSync := Some(env.now))]))
  {
    var pre := Preflight(Loaded(user), c, fetch);
    if pre.Err? {
      return Err(pre.error);
    }
    var (i, msgs) := pre.value;
    var count, failure := IngestMessages(store, u, msgs, env);
    if failure.Some? {
      return Err(failure.value);
    }
    user.telegramAccounts := user.telegramAccounts[i := user.telegramAccounts[i].(lastSync := Some(env.now))];
    r := Ok(count);
  }
}
