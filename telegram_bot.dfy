/** The bot service's sync: a fixed list of three sample items stands in
    for the user's saved messages and is ingested like real ones, with
    the bot's own copy of the content classifier and its own download
    step.  The bot commands are not modelled. */
module TelegramBot {
  import opened Wrappers
  import opened Text
  import opened Patterns
  import opened Models
  import opened Ledger
  import opened MongoStore
  import TelegramApi

  /** The bot's `categorizeContent`, kept as the separate copy it is. */
  function BotCategorize(kind: string, c: Content): (r: string)
    ensures TelegramApi.IsCategory(r)
  {
    if c.mimeType.Some? && c.mimeType.value != "" && StartsWith(c.mimeType.value, "image/") then "图片"
    else if c.mimeType.Some? && c.mimeType.value != "" && StartsWith(c.mimeType.value, "video/") then "视频"
    else if c.mimeType.Some? && c.mimeType.value != "" && StartsWith(c.mimeType.value, "audio/") then "音频"
    else if c.mimeType.Some? && c.mimeType.value != "" && Contains(c.mimeType.value, "pdf") then "文档"
    else if kind == "photo" then "图片"
    else if kind == "video" then "视频"
    else if kind == "audio" then "音频"
    else if kind == "document" then "文档"
    else if kind == "link" then "链接"
    else if kind == "text" then
      if c.text.Some? && c.text.value != "" && HasUrl(c.text.value) then "链接" else "文本"
    else "其他"
  }

  /** The two copies of the classifier agree on every input. */
  lemma CategorizeCopiesAgree(kind: string, c: Content)
    ensures BotCategorize(kind, c) == TelegramApi.Categorize(kind, c)
  {
  }

  /** One item of the list the bot ingests. */
  datatype BotItem = BotItem(messageId: string, kind: FavoriteType, content: Content, savedAt: int)

  /** The three sample items, all stamped with the time of the sync. */
  function MockFavorites(now: int): (items: seq<BotItem>)
    ensures |items| == 3
  {
    [ BotItem("12345", PhotoType, NoContent.(fileId := Some("photo123"), caption := Some("美丽的风景"),
                                             width := Some(1280), height := Some(720)), now),
      BotItem("12346", VideoType, NoContent.(fileId := Some("video123"), caption := Some("有趣的视频"),
                                             duration := Some(30), width := Some(1280), height := Some(720)), now),
      BotItem("12347", TextType, NoContent.(text := Some("重要笔记：https://example.com")), now) ]
  }

  /** The environment of a bot sync: the upload directory and, per file
      id, the `file_path` the bot API reports when fetching the file,
      writing it and any video thumbnail all succeed (`None` otherwise),
      and the clock. */
  datatype BotEnv = BotEnv(uploadDir: string, getFile: string -> Option<string>, now: int)

  /** Kinds that carry a file. */
  predicate IsMediaKind(k: FavoriteType) {
    k == PhotoType || k == VideoType || k == AudioType || k == DocumentType
  }

  /** Whether the loop attempts a download for the item. */
  predicate Downloadable(item: BotItem) {
    IsMediaKind(item.kind) && item.content.fileId.Some? && item.content.fileId.value != ""
  }

  /** The tags of an item: the hashtags of its caption only. */
  function CaptionTags(item: BotItem): seq<string> {
    if item.content.caption.Some? && item.content.caption.value != "" then Hashtags(item.content.caption.value) else []
  }

  /** The favorite one new item becomes. */
  function BotBuild(u: UserId, item: BotItem, env: BotEnv): (f: Favorite)
    ensures f.userId == u && f.telegramMessageId == item.messageId && f.kind == item.kind
    ensures f.savedAt == item.savedAt && f.tags == CaptionTags(item)
    ensures f.isDownloaded <==> f.localPath.Some?
  {
    var filePath := if Downloadable(item) then env.getFile(item.content.fileId.value) else None;
    var userDir := env.uploadDir + "/" + u;
    var localPath := if filePath.Some? then Some(userDir + "/" + item.messageId + ExtName(filePath.value)) else None;
    var thumb :=
      if filePath.Some? && item.kind == VideoType then Some("/media/thumbnail/" + Basename(userDir + "/" + (item.messageId + "_thumb.jpg")))
      else None;
    var category := BotCategorize(TypeName(item.kind), item.content);
    NewFavorite(0, u, item.messageId, item.kind, item.content.(thumbnailUrl := thumb), Some(category), item.savedAt, localPath)
      .(tags := CaptionTags(item), isDownloaded := localPath.Some?)
  }

  /** Downloads are tried only for media items with a file id; a failed one
      leaves no local file; only a downloaded video gets a thumbnail, named
      after its message. */
  lemma BotBuildDownload(u: UserId, item: BotItem, env: BotEnv)
    requires '/' !in item.messageId
    ensures var f := BotBuild(u, item, env);
            (f.localPath.Some? <==> Downloadable(item) && env.getFile(item.content.fileId.value).Some?)
            && (f.content.thumbnailUrl.Some? <==> f.localPath.Some? && item.kind == VideoType)
            && (f.content.thumbnailUrl.Some? ==> f.content.thumbnailUrl.value == "/media/thumbnail/" + item.messageId + "_thumb.jpg")
            && f.content == item.content.(thumbnailUrl := f.content.thumbnailUrl)
  {
    assert '/' !in item.messageId + "_thumb.jpg";
    BasenameJoin(env.uploadDir + "/" + u, item.messageId + "_thumb.jpg");
  }

  /** The running state of the bot loop. */
  datatype Synced = Synced(db: Db, count: nat)

  /** The loop over the items: an item already stored for the user is
      skipped, any other is ingested and counted. */
  function BotSyncAll(db: Db, u: UserId, items: seq<BotItem>, env: BotEnv): Synced
    decreases |items|
  {
    if |items| == 0 then Synced(db, 0)
    else
      var s := BotSyncAll(db, u, items[..|items| - 1], env);
      var item := items[|items| - 1];
      if HasMessage(s.db.favorites, u, item.messageId) then s
      else Synced(Ingest(s.db, BotBuild(u, item, env), env.now), s.count + 1)
  }

  lemma BotSyncAllSnoc(db: Db, u: UserId, items: seq<BotItem>, item: BotItem, env: BotEnv)
    ensures var s := BotSyncAll(db, u, items, env);
            BotSyncAll(db, u, items + [item], env) ==
              if HasMessage(s.db.favorites, u, item.messageId) then s
              else Synced(Ingest(s.db, BotBuild(u, item, env), env.now), s.count + 1)
  {
    assert (items + [item])[..|items|] == items;
  }

  /** The loop appends the user's new favorites and counts them. */
  lemma {:induction false} BotSyncGrowth(db: Db, u: UserId, items: seq<BotItem>, env: BotEnv)
    ensures var s := BotSyncAll(db, u, items, env);
            s.count <= |items| && |s.db.favorites| == |db.favorites| + s.count
            && s.db.favorites[..|db.favorites|] == db.favorites
    decreases |items|
  {
    if |items| > 0 {
      var init := items[..|items| - 1];
      BotSyncGrowth(db, u, init, env);
      var q := BotSyncAll(db, u, init, env);
      var item := items[|items| - 1];
      if !HasMessage(q.db.favorites, u, item.messageId) {
        var s := BotSyncAll(db, u, items, env);
        assert s.db.favorites == q.db.favorites + [BotBuild(u, item, env).(id := q.db.nextId)];
        assert s.db.favorites[..|q.db.favorites|] == q.db.favorites;
      }
    }
  }

  /** The loop keeps keys and ids sound. */
  lemma {:induction false} BotSyncValid(db: Db, u: UserId, items: seq<BotItem>, env: BotEnv)
    requires Ledger.Valid(db)
    ensures Ledger.Valid(BotSyncAll(db, u, items, env).db)
    decreases |items|
  {
    if |items| > 0 {
      var init := items[..|items| - 1];
      BotSyncValid(db, u, init, env);
      ValidIngest(BotSyncAll(db, u, init, env).db, BotBuild(u, items[|items| - 1], env), env.now);
    }
  }

  /** With duplicate-free caption tags, the ledger invariant is kept. */
  lemma {:induction false} BotSyncConsistent(db: Db, u: UserId, items: seq<BotItem>, env: BotEnv)
    requires Consistent(db)
    requires forall k :: 0 <= k < |items| ==> NoDup(CaptionTags(items[k]))
    ensures Consistent(BotSyncAll(db, u, items, env).db)
    decreases |items|
  {
    if |items| > 0 {
      var init := items[..|items| - 1];
      BotSyncConsistent(db, u, init, env);
      var item := items[|items| - 1];
      IngestConsistent(BotSyncAll(db, u, init, env).db, BotBuild(u, item, env), env.now);
    }
  }

  /** Some item carries the message id `m`. */
  predicate InItems(items: seq<BotItem>, m: string) {
    exists k :: 0 <= k < |items| && items[k].messageId == m
  }

  lemma InItemsSnoc(items: seq<BotItem>, m: string)
    requires |items| > 0
    ensures InItems(items, m) <==> InItems(items[..|items| - 1], m) || items[|items| - 1].messageId == m
  {
    var init := items[..|items| - 1];
    if InItems(init, m) {
      var k :| 0 <= k < |init| && init[k].messageId == m;
      assert items[k] == init[k];
    }
    if InItems(items, m) && items[|items| - 1].messageId != m {
      var k :| 0 <= k < |items| && items[k].messageId == m;
      assert init[k] == items[k];
    }
  }

  /** After the loop the user's stored messages are exactly those stored
      before plus the items' ones. */
  lemma {:induction false} BotSyncMessages(db: Db, u: UserId, items: seq<BotItem>, env: BotEnv)
    ensures forall m :: HasMessage(BotSyncAll(db, u, items, env).db.favorites, u, m) <==>
                          HasMessage(db.favorites, u, m) || InItems(items, m)
    decreases |items|
  {
    if |items| > 0 {
      var init := items[..|items| - 1];
      var item := items[|items| - 1];
      BotSyncMessages(db, u, init, env);
      var q := BotSyncAll(db, u, init, env);
      var s := BotSyncAll(db, u, items, env);
      forall m
        ensures HasMessage(s.db.favorites, u, m) <==> HasMessage(db.favorites, u, m) || InItems(items, m)
      {
        InItemsSnoc(items, m);
        if !HasMessage(q.db.favorites, u, item.messageId) {
          var f := BotBuild(u, item, env).(id := q.db.nextId);
          assert s.db.favorites == q.db.favorites + [f];
          HasMessageAppend(q.db.favorites, f, u, m);
        }
      }
    }
  }

  /** When the items' message ids are distinct and none is stored for the
      user, every item is new and counted. */
  lemma {:induction false} BotSyncCountsAll(db: Db, u: UserId, items: seq<BotItem>, env: BotEnv)
    requires forall k :: 0 <= k < |items| ==> !HasMessage(db.favorites, u, items[k].messageId)
    requires forall i, j :: 0 <= i < j < |items| ==> items[i].messageId != items[j].messageId
    ensures BotSyncAll(db, u, items, env).count == |items|
    decreases |items|
  {
    if |items| > 0 {
      var init := items[..|items| - 1];
      var item := items[|items| - 1];
      assert forall k :: 0 <= k < |init| ==> init[k] == items[k];
      BotSyncCountsAll(db, u, init, env);
      BotSyncMessages(db, u, init, env);
      var q := BotSyncAll(db, u, init, env);
      assert !HasMessage(q.db.favorites, u, item.messageId);
    }
  }

  /** Items that are all stored already add nothing. */
  lemma {:induction false} BotSyncPresent(db: Db, u: UserId, items: seq<BotItem>, env: BotEnv)
    requires forall k :: 0 <= k < |items| ==> HasMessage(db.favorites, u, items[k].messageId)
    ensures BotSyncAll(db, u, items, env) == Synced(db, 0)
    decreases |items|
  {
    if |items| > 0 {
      var init := items[..|items| - 1];
      assert forall k :: 0 <= k < |init| ==> init[k] == items[k];
      BotSyncPresent(db, u, init, env);
    }
  }

  /** The sample captions carry no hashtags, so the sample list never
      touches the tag rows. */
  lemma MockHasNoTags(now: int)
    ensures forall k :: 0 <= k < 3 ==> CaptionTags(MockFavorites(now)[k]) == []
  {
    HashtagsNone("美丽的风景");
    HashtagsNone("有趣的视频");
  }

  /** The sample list's message ids are distinct and contain no '/'. */
  lemma MockIds(now: int)
    ensures var items := MockFavorites(now);
            (forall i, j :: 0 <= i < j < |items| ==> items[i].messageId != items[j].messageId)
            && forall k :: 0 <= k < |items| ==> '/' !in items[k].messageId
  {
    var items := MockFavorites(now);
    assert items[0].messageId[4] == '5' && items[1].messageId[4] == '6' && items[2].messageId[4] == '7';
  }

  /** A first bot sync for a user without the sample messages stores all
      three and counts 3; an immediate second sync stores nothing and
      counts 0.  Neither changes any tag row. */
  lemma MockSyncTwice(db: Db, u: UserId, now: int, later: int, env: BotEnv, env2: BotEnv)
    requires forall k :: 0 <= k < 3 ==> !HasMessage(db.favorites, u, MockFavorites(now)[k].messageId)
    ensures var first := BotSyncAll(db, u, MockFavorites(now), env);
            first.count == 3 && |first.db.favorites| == |db.favorites| + 3 && first.db.tags == db.tags
            && BotSyncAll(first.db, u, MockFavorites(later), env2) == Synced(first.db, 0)
  {
    MockIds(now);
    MockHasNoTags(now);
    BotSyncUntagged(db, u, MockFavorites(now), env);
    BotSyncCountsAll(db, u, MockFavorites(now), env);
    BotSyncMessages(db, u, MockFavorites(now), env);
    BotSyncGrowth(db, u, MockFavorites(now), env);
    var first := BotSyncAll(db, u, MockFavorites(now), env);
    forall k | 0 <= k < 3
      ensures HasMessage(first.db.favorites, u, MockFavorites(later)[k].messageId)
    {
      assert MockFavorites(later)[k].messageId == MockFavorites(now)[k].messageId;
      assert InItems(MockFavorites(now), MockFavorites(now)[k].messageId);
    }
    BotSyncPresent(first.db, u, MockFavorites(later), env2);
  }

  /** Items whose captions carry no tags leave the tag rows as they are. */
  lemma {:induction false} BotSyncUntagged(db: Db, u: UserId, items: seq<BotItem>, env: BotEnv)
    requires forall k :: 0 <= k < |items| ==> CaptionTags(items[k]) == []
    ensures BotSyncAll(db, u, items, env).db.tags == db.tags
    decreases |items|
  {
    if |items| > 0 {
      var init := items[..|items| - 1];
      assert forall k :: 0 <= k < |init| ==> init[k] == items[k];
      BotSyncUntagged(db, u, init, env);
    }
  }

  /** The loop's state after one more item of a prefix. */
  lemma BotSyncPrefixStep(db: Db, u: UserId, items: seq<BotItem>, k: nat, env: BotEnv)
    requires k < |items|
    ensures var s := BotSyncAll(db, u, items[..k], env);
            BotSyncAll(db, u, items[..k + 1], env) ==
              if HasMessage(s.db.favorites, u, items[k].messageId) then s
              else Synced(Ingest(s.db, BotBuild(u, items[k], env), env.now), s.count + 1)
  {
    assert items[..k + 1] == items[..k] + [items[k]];
    BotSyncAllSnoc(db, u, items[..k], items[k], env);
  }

  /** The bot's `syncUserFavorites(u)`: `found` says whether
      `User.findById(u)` found the user. */
  method BotSyncUserFavorites(store: Store, u: UserId, found: bool, items: seq<BotItem>, env: BotEnv)
    returns (r: Result<nat, string>)
    requires store.Valid()
    modifies store
    ensures store.Valid()
    ensures !found ==> r == Err(TelegramApi.UserNotFound) && store.State() == old(store.State())
    ensures found ==> var s := BotSyncAll(old(store.State()), u, items, env);
                      r == Ok(s.count) && store.State() == s.db
  {
    if !found {
      return Err(TelegramApi.UserNotFound);
    }
    ghost var db0 := store.State();
    var k := 0;
    var count := 0;
    while k < |items|
      invariant 0 <= k <= |items|
      invariant BotSyncAll(db0, u, items[..k], env) == Synced(store.State(), count)
      invariant store.Valid()
    {
      var item := items[k];
      BotSyncPrefixStep(db0, u, items, k, env);
      if !HasMessage(store.favorites, u, item.messageId) {
        ghost var before := store.State();
        var f := BotBuild(u, item, env);
        var saved := store.InsertFavorite(f);
        assert store.State() == Append(before, f);
        store.IncrementTags(u, f.tags, [], env.now);
        assert store.State() == IncAll(Append(before, f), f.userId, f.tags, [], env.now);
        ValidIngest(before, f, env.now);
        count := count + 1;
      }
      k := k + 1;
    }
    assert items[..k] == items;
    r := Ok(count);
  }
}
