# Telegram favorites: a verified model of the backend services and the frontend stores

The system keeps a user's Telegram "Saved Messages" as favorites. Favorites can be tagged, filtered and paged. Users register with one or more Telegram accounts, whose session strings are stored enciphered.

This project models the core of the system in Dafny:

- **Backend services**:
  - the tag service (list, create, edit, delete);
  - the favorite service (query, page, retag, delete);
  - the account service (register, login, views, and adding, switching, updating and deleting Telegram accounts, settings, credentials);
  - the Telegram client service (content classifier, file names of downloads, account details, the sync loop);
  - the bot service's sample sync.
- **The models**: Tag, Favorite, User and its embedded Telegram accounts.
- **The JWT middleware.**
- **The frontend**:
  - the Vuex stores for favorites, tags and auth;
  - the router's route table and `beforeEach` guard;
  - `truncateText`.

**How state is modelled.** Whatever the source changes in place is a class whose methods state their new state:

- the Mongo collections (`MongoStore.Store`);
- a loaded user document (`UserDocuments.UserDocument`);
- the three Vuex stores;
- the request and response of the middleware.

Each such method is tied to a pure function of the old state. The properties are proved about those functions.

**The central invariant.** The tag *ledger* invariant: every stored tag count equals the number of the owner's favorites that carry the tag (`Ledger.Consistent`). It is proved to survive:

- retagging and deleting favorites;
- creating and deleting tags;
- every sync loop, when no message names the same tag twice.

Where the code breaks it (renaming a tag, a message that repeats a hashtag), the model shows how.

**What is a parameter.** External effects are parameters of the model:

- the cipher (a pair of functions, one the inverse of the other);
- JWT signing and verification;
- password comparison;
- the Telegram client's replies;
- download success;
- `$text` matching;
- the order Mongo gives the values of a sort field other than `savedAt` (an integer rank per field);
- the HTTP replies seen by the stores.

**Values.**

- Object ids are natural numbers handed out by an allocator.
- Dates are integers.
- Frontend objects are maps from keys to JSON values. Object spread is map union, and `undefined` is a missing key.

## Model

| member | source | states |
|---|---|---|
| Models.NewTag | backend/src/models/Tag.js:5-23 | A new tag starts with count 0, keeps its owner and name, and (as the service means it to) its color |
| Models.SchemaCast | backend/src/models/Tag.js:5-23 | What the strict tag schema keeps: no color at all, every other field unchanged |
| Models.ColorDropped | backend/src/services/tagService.js:33-40 | A tag created with a color is stored without it (the as-written half of the color finding) |
| Models.ParseType | backend/src/models/Favorite.js:15-19 | The type enum accepts exactly the six type names, and parsing inverts naming |
| Models.NewFavorite | backend/src/models/Favorite.js:5-50 | A new favorite has no tags, is not downloaded, and carries the given owner, message id and type |
| Models.NewAccount | backend/src/models/User.js:5-49 | An embedded account defaults its name to '默认账号', starts inactive, and keeps the credentials given |
| Models.ParseView | backend/src/models/User.js:78-88 | The view setting accepts exactly 'grid' and 'list' |
| Models.NewUser | backend/src/models/User.js:52-89 | A new user has no accounts, no active account id and the default settings (grid, 20 per page) |
| Ledger.Inc | backend/src/services/favoriteService.js:133-140 | The upsert-increment raises the count of exactly one (owner, name) by one, creating the row if needed |
| Ledger.DecGc | backend/src/services/favoriteService.js:116-130 | Decrement then delete-if-not-positive: the count drops by one and never below zero, and rows only disappear |
| Ledger.DecGcAll | backend/src/services/favoriteService.js:116-130 | The decrement loop never adds rows and leaves favorites and ids alone |
| Ledger.IncAll | backend/src/services/favoriteService.js:133-140 | The increment loop creates rows exactly for the names it does not skip |
| Ledger.CountDecGcAll | backend/src/services/favoriteService.js:116-130 | Each name not kept loses its number of occurrences, floored at zero |
| Ledger.CountIncAll | backend/src/services/favoriteService.js:133-140 | Each name not skipped gains its number of occurrences |
| Ledger.Retag | backend/src/services/favoriteService.js:108-141 | updateFavoriteTags replaces the favorite's tag list and only creates rows for the new names |
| Ledger.RetagCount | backend/src/services/favoriteService.js:116-140 | A name only in the old list loses one, a name only in the new list gains one, and names in both keep their count |
| Ledger.RetagConsistent | backend/src/services/favoriteService.js:96-148 | With duplicate-free tag lists, retagging keeps every count equal to its number of holders |
| Ledger.RemoveFavorite | backend/src/services/favoriteService.js:163-179 | deleteFavorite removes exactly that favorite and never adds tag rows |
| Ledger.RemoveFavoriteCount | backend/src/services/favoriteService.js:164-176 | Each tag of the deleted favorite loses one, floored at zero; the others are unchanged |
| Ledger.RemoveFavoriteConsistent | backend/src/services/favoriteService.js:151-186 | Deleting a favorite keeps the ledger invariant |
| Ledger.Ingest | backend/src/services/telegramApiService.js:341-371 | A synced favorite is appended under a fresh id, and rows exist afterwards exactly for the old keys and its tags |
| Ledger.IngestCount | backend/src/services/telegramApiService.js:359-371 | Each tag of the ingested favorite gains its number of occurrences in the tag list |
| Ledger.IngestConsistent | backend/src/services/telegramApiService.js:355-371 | Ingesting a favorite with a duplicate-free tag list keeps the ledger invariant |
| Ledger.IngestRepeatedTagBreaks | backend/src/services/telegramApiService.js:359-371 | A tag list that repeats a name counts it twice but the favorite holds it once, which breaks the invariant |
| Ledger.AddTag | backend/src/services/tagService.js:33-41 | A new tag row at count 0 with the given color; nothing else changes |
| Ledger.AddTagConsistent | backend/src/services/tagService.js:33-41 | Creating a tag nobody carries keeps the ledger invariant |
| Ledger.RemoveAll | backend/src/services/tagService.js:101-104 | `$pull` keeps exactly the other names |
| Ledger.PullAll | backend/src/services/tagService.js:101-104 | The pull rewrites each favorite in place and keeps the list's length |
| Ledger.HoldersPullAll | backend/src/services/tagService.js:101-104 | After the pull nobody of the owner holds the name; every other holder count is unchanged |
| Ledger.DropTag | backend/src/services/tagService.js:101-107 | deleteTag removes exactly that row after pulling its name from the owner's favorites |
| Ledger.DropTagConsistent | backend/src/services/tagService.js:89-114 | Deleting a tag keeps the ledger invariant |
| Ledger.SaveTag | backend/src/services/tagService.js:72-79 | Saving an edited row stores it under its (possibly new) name and leaves other rows alone |
| Ledger.RenameBreaksConsistency | backend/src/services/tagService.js:72-79 | Renaming a tag that favorites carry leaves them carrying the old name, which breaks the invariant |
| Ledger.RecolorConsistent | backend/src/services/tagService.js:75-79 | Changing only the color keeps the invariant |
| Ledger.ValidIngest | backend/src/services/telegramApiService.js:341-355 | A synced favorite keeps tag keys and object ids sound |
| Ledger.ValidRetag | backend/src/services/favoriteService.js:108-141 | Retagging keeps tag keys and object ids sound |
| Ledger.ValidRemoveFavorite | backend/src/services/favoriteService.js:163-179 | Deleting a favorite keeps tag keys and object ids sound |
| Ledger.ValidDropTag | backend/src/services/tagService.js:101-107 | Deleting a tag keeps tag keys and object ids sound |
| Ledger.ValidSaveTag | backend/src/services/tagService.js:63-79 | Saving an edited row keeps keys sound when the new name is free or unchanged |
| MongoStore.Store.constructor | backend/src/models/Tag.js:26 | An empty database is valid and consistent |
| MongoStore.Store.IncTag | backend/src/services/favoriteService.js:135-139 | The upsert-increment, as Ledger.Inc |
| MongoStore.Store.DecTag | backend/src/services/favoriteService.js:118-121 | The decrement without upsert |
| MongoStore.Store.DeleteTagIfEmpty | backend/src/services/favoriteService.js:124-128 | Deletes the row only when its count is not positive |
| MongoStore.Store.InsertTag | backend/src/services/tagService.js:33-40 | A new row as Ledger.AddTag, and the row is returned |
| MongoStore.Store.SaveTagRow | backend/src/services/tagService.js:79 | `tag.save()` as Ledger.SaveTag |
| MongoStore.Store.DeleteTagRow | backend/src/services/tagService.js:107 | Removes exactly that row |
| MongoStore.Store.PullTag | backend/src/services/tagService.js:101-104 | The `updateMany` pull as Ledger.PullAll |
| MongoStore.Store.SaveFavorite | backend/src/services/favoriteService.js:111-112 | Replaces exactly that favorite |
| MongoStore.Store.InsertFavorite | backend/src/services/telegramApiService.js:341-355 | Appends under the next object id and returns the saved document |
| MongoStore.Store.DeleteFavoriteAt | backend/src/services/favoriteService.js:179 | Removes exactly that favorite |
| MongoStore.Store.DecrementTags | backend/src/services/favoriteService.js:116-130 | The loop, proved equal to Ledger.DecGcAll |
| MongoStore.Store.IncrementTags | backend/src/services/favoriteService.js:133-140 | The loop, proved equal to Ledger.IncAll |
| MongoStore.FindFavorite | backend/src/services/favoriteService.js:98-101 | `findOne({_id, userId})`: the first match, or none exactly when no favorite matches both |
| MongoStore.HasMessageAppend | backend/src/services/telegramApiService.js:258-266 | Appending a favorite adds exactly its own message to the messages found per user |
| MongoStore.FindTag | backend/src/services/tagService.js:53-56 | `findOne({_id, userId})` on tags: a row with that id and owner, or none exactly when there is none |
| MongoStore.FindTagUnique | backend/src/services/tagService.js:91-94 | With unique ids, the row found is the only one with that id |
| TagService.GetTags | backend/src/services/tagService.js:9-17 | The loop returns every row of the user exactly once (as a multiset), nothing else, sorted by count descending |
| TagService.CreateTag | backend/src/services/tagService.js:21-46 | An existing (owner, name) row is returned unchanged; an empty owner or name is refused with the required-field message; otherwise a new row at count 0; the ledger invariant is kept |
| TagService.Edited | backend/src/services/tagService.js:72-77 | Only the sent name and color replace the stored ones; id, owner, count and creation time stay |
| TagService.UpdateTag | backend/src/services/tagService.js:49-86 | A tag not owned is refused; a rename onto a taken name is refused with '标签名称已存在'; otherwise the edited row is saved; favorites never change; a color-only edit keeps the invariant |
| TagService.DeleteTag | backend/src/services/tagService.js:89-114 | A tag not owned is refused and nothing changes; otherwise Ledger.DropTag; the invariant is kept |
| FavoriteService.FindFavoriteById | backend/src/services/favoriteService.js:179 | `deleteOne({_id})` looks up by id alone: the first index with that id, or none exactly when there is none |
| FavoriteService.GetFavoriteById | backend/src/services/favoriteService.js:77-93 | Returns a stored favorite with that id and owner; fails with the not-found message exactly when none matches |
| FavoriteService.UpdateFavoriteTags | backend/src/services/favoriteService.js:96-148 | Not found: refused, nothing changes. Found: the favorite with the new list is returned and the store becomes Ledger.Retag; the invariant is kept for duplicate-free lists |
| FavoriteService.DeleteFavorite | backend/src/services/favoriteService.js:151-186 | Not found: refused, nothing changes. Found: the store becomes Ledger.RemoveFavorite; the invariant is kept |
| FavoriteService.BuildQueryMatches | backend/src/services/favoriteService.js:21-41 | A favorite matches the query iff it is the user's and passes each truthy filter: type, all tags, category, text search |
| FavoriteService.Select | backend/src/services/favoriteService.js:51 | `find(query)` keeps exactly the matching favorites |
| FavoriteService.SortKey | backend/src/services/favoriteService.js:44-45 | `sortBy` defaults to savedAt and then sorts on savedAt itself; any other field sorts on its rank |
| FavoriteService.SortBySpec | backend/src/services/favoriteService.js:44-52 | The sort is a permutation, ordered on the key ascending or descending as sortOrder says |
| FavoriteService.Window | backend/src/services/favoriteService.js:48-54 | skip/limit: a negative skip is an error; otherwise a contiguous slice starting at skip, at most \|limit\| long, and everything from skip for a zero limit |
| FavoriteService.TotalPages | backend/src/services/favoriteService.js:59 | `Math.ceil(total/limit)`: for a positive limit the pages cover the total; a zero limit gives no finite value |
| FavoriteService.WindowSorted | backend/src/services/favoriteService.js:50-54 | A page of a sorted selection is sorted and drawn from it |
| FavoriteService.GetFavorites | backend/src/services/favoriteService.js:7-74 | Refused exactly when (page - 1) * limit is negative; otherwise it reports the page and limit asked for, the number of selected favorites and Math.ceil of the page count |
| FavoriteService.GetFavoritesPage | backend/src/services/favoriteService.js:7-74 | For every sortBy: the page is the slice of the sorted selection starting at (page - 1) * limit, min(limit, what is left) long, all the rest for limit 0, empty past the end; it holds only selected favorites, ordered on the sort key; total counts every selected one |
| FavoriteService.GetFavoritesDefaults | backend/src/services/favoriteService.js:9-18 | With no options: page 1, limit 20, the first 20 of the user's favorites newest first |
| FavoriteService.TotalPagesCover | backend/src/services/favoriteService.js:59 | For a positive limit and total, the last page is non-empty and the one after it is empty |
| Hex.Encode | backend/src/services/authService.js:38-50 | Hex encoding doubles the length, uses only hex digits and never a ':' |
| Hex.DecodeEncode | backend/src/services/authService.js:54-67 | Decoding inverts encoding |
| Hex.EncodeInjective | backend/src/services/authService.js:38-50 | Distinct byte strings give distinct hex strings |
| Vault.EnsureKeyLength | backend/src/services/authService.js:15-22 | The key is accepted exactly when it is present and 64 characters long; otherwise the configuration message |
| Vault.CipherKey | backend/src/services/authService.js:15-22 | A usable key is 32 bytes decoded from a 64-character string |
| Vault.Encrypt | backend/src/services/authService.js:38-50 | Encryption succeeds exactly with a usable key, a 16-byte IV and a session string; otherwise the fixed error |
| Vault.Decrypt | backend/src/services/authService.js:54-67 | Every failure is the fixed error; success needs a usable key and an 'iv:data' envelope |
| Vault.EnvelopeShape | backend/src/services/authService.js:46-49 | The envelope is the hex IV, ':' and the hex ciphertext |
| Vault.RoundTrip | backend/src/services/authService.js:38-67 | Decrypting an encrypted session string gives it back |
| Vault.DecryptFirstTwoParts | backend/src/services/authService.js:56-58 | Parts after the second ':' are ignored |
| Vault.DistinctIvsDistinctEnvelopes | backend/src/services/authService.js:40-49 | Two encryptions under different IVs never give the same envelope |
| Vault.BadKeyFails | backend/src/services/authService.js:15-22 | Without a usable key, both encrypting and decrypting fail with their fixed messages |
| Patterns.HasUrlIff | backend/src/services/telegramApiService.js:332 | The URL test holds iff some position starts 'http://' or 'https://' followed by a non-space |
| Patterns.FirstUrlSpec | backend/src/services/telegramApiService.js:332-334 | The extracted URL exists iff the test holds; it starts at the first such position and runs to the next whitespace |
| Patterns.Hashtags | backend/src/services/telegramApiService.js:359-363 | Every extracted tag is a non-empty run of word characters |
| Patterns.HashtagsOccur | backend/src/services/telegramApiService.js:359-363 | Every extracted tag occurs after a '#' in the text |
| Patterns.HashtagsNone | backend/src/services/telegramApiService.js:359-363 | A text without '#' has no tags |
| Patterns.HashtagsTagLine | backend/src/services/telegramApiService.js:359-363 | Tags written as '#w ' in sequence are extracted exactly, in order |
| Patterns.HashtagsMayRepeat | backend/src/services/telegramApiService.js:359-363 | Extraction keeps repeats: '#a #a ' gives a twice |
| UserDocuments.FindAccount | backend/src/services/authService.js:292 | `telegramAccounts.id(accountId)`: the entry with the id, or none exactly when there is none |
| UserDocuments.FirstActive | backend/src/services/authService.js:455 | `find(acc => acc.isActive)`: the first active entry, or none exactly when none is active |
| UserDocuments.Without | backend/src/services/authService.js:387 | `remove()` of one entry keeps the others in order |
| UserDocuments.UserDocument.constructor | backend/src/models/User.js:52-89 | A loaded document holds the given user |
| UserDocuments.UserDocument.Push | backend/src/services/authService.js:219 | `push` appends a cast copy under the next entry id |
| UserDocuments.UserDocument.RemoveAccount | backend/src/services/authService.js:387 | Removes exactly that entry |
| UserDocuments.UserDocument.DeactivateAll | backend/src/services/authService.js:297-299 | Clears every active flag and changes nothing else |
| AuthService.SyncViews | backend/src/services/authService.js:403-413 | Each remaining account is reported through its view, in order |
| AuthService.ViewHidesCredentials | backend/src/services/authService.js:403-413 | Views never depend on apiId, apiHash or the session string |
| AuthService.UserViewOf | backend/src/services/authService.js:161-194 | The user object lists a view of every account, in order, and hasActiveAccount iff an active account id is set |
| AuthService.EncryptAccounts | backend/src/services/authService.js:88-92 | The register loop fails with the encryption message or stores one entry per supplied account |
| AuthService.EncryptAccountsFails | backend/src/services/authService.js:88-92 | The loop fails exactly when some supplied session string cannot be enciphered |
| AuthService.EncryptAccountsEntries | backend/src/services/authService.js:88-92 | The k-th stored entry is the k-th input with its session enciphered under the k-th IV |
| AuthService.Registered | backend/src/services/authService.js:72-112 | A taken username is refused with '用户名已存在' |
| AuthService.RegisteredAccounts | backend/src/services/authService.js:88-100 | A registration stores every supplied account in order, each session deciphering back to the one sent |
| AuthService.RegisteredOneActive | backend/src/services/authService.js:94-97 | When no later account is sent as active, the first account is the single active one and its id is the active id |
| AuthService.RegisteredUnique | backend/src/services/authService.js:72-112 | Registration keeps usernames unique |
| AuthService.Register | backend/src/services/authService.js:72-112 | The loop-and-save method equals Registered |
| AuthService.Login | backend/src/services/authService.js:115-158 | No user or a wrong password gives the credentials error; otherwise a token and the user view, and the login time is recorded |
| AuthService.FetchCurrentUser | backend/src/services/authService.js:161-194 | Fails with '用户不存在' exactly when no document was found; otherwise the user view |
| AuthService.HasActiveAccountAgrees | backend/src/services/authService.js:161-194 | Under the account rule, hasActiveAccount iff some listed account is active |
| AuthService.Activate | backend/src/services/authService.js:297-302 | Exactly the chosen entry is active; nothing else changes |
| AuthService.SwitchedActivates | backend/src/services/authService.js:285-325 | Switching fails exactly for an id the user does not own; otherwise only that account is active and it is the active id |
| AuthService.SwitchTelegramAccount | backend/src/services/authService.js:285-325 | The document after a switch is Switched's, with a new token |
| AuthService.AfterDeleteValid | backend/src/services/authService.js:385-396 | Removing an entry keeps a stored document valid |
| AuthService.DeleteKeepsOneActive | backend/src/services/authService.js:385-396 | Deleting keeps the account rule: the first remaining account takes over from a deleted active one, or none remains |
| AuthService.DeleteActive | backend/src/services/authService.js:389-391 | When the active entry goes and others remain, the new first entry is the one active |
| AuthService.DeleteInactive | backend/src/services/authService.js:385-393 | Deleting an inactive entry keeps the active one active |
| AuthService.DeleteTelegramAccount | backend/src/services/authService.js:373-424 | A new token only when the active account went; the remaining views; the document saved |
| AuthService.FetchDetails | backend/src/services/authService.js:231-262 | Fetching the details fails only with the details message prefix |
| AuthService.AddedOutcomes | backend/src/services/authService.js:197-282 | Missing credentials and a failed encryption store nothing; otherwise the entry is stored under a fresh id with the sent name or its position name, and a Telegram failure is reported under the details prefix |
| AuthService.AddedKeepsRule | backend/src/services/authService.js:210-228 | Adding keeps the document valid and keeps the account rule |
| AuthService.AddedStoresSession | backend/src/services/authService.js:212-219 | The stored session string deciphers back to the one sent |
| AuthService.AddedReplyDiffersFromStored | backend/src/services/authService.js:219-277 | As written: a successful add replies with no account id and always says inactive, and the stored entry never gets the details |
| AuthService.AddedIntendedReplyIsStored | backend/src/services/authService.js:219-277 | Corrected: the reply is the view of the stored entry, with its id, its active flag and the details |
| AuthService.AddTelegramAccount | backend/src/services/authService.js:197-282 | The method as written: the document becomes the one Added describes, and the account rule holds |
| AuthService.UpdatedChangesOnlyFields | backend/src/services/authService.js:328-370 | An update changes only the sent fields of the chosen account; a blank session string is not written |
| AuthService.UpdatedStoresSession | backend/src/services/authService.js:349-351 | A replaced session string deciphers back to the one sent |
| AuthService.UpdateTelegramAccount | backend/src/services/authService.js:328-370 | A rejected update leaves the stored document unchanged; otherwise the document is Updated's |
| AuthService.MergedSettings | backend/src/services/authService.js:427-445 | The merge is refused exactly for a view other than 'grid' or 'list'; sent fields win, the others are kept |
| AuthService.MergedSettingsIdempotent | backend/src/services/authService.js:427-445 | Sending nothing keeps the settings; sending the same settings twice equals sending them once |
| AuthService.UpdateUserSettings | backend/src/services/authService.js:427-445 | The merged settings are saved and returned; a refused merge saves nothing |
| AuthService.ActiveCredentials | backend/src/services/authService.js:448-472 | No user, or no active account, each gives its own error; otherwise the first active account's credentials with the session deciphered |
| AuthService.CredentialsOfActiveId | backend/src/services/authService.js:448-472 | Under the account rule the credentials are those of the account the active id names |
| AuthService.CredentialsAfterSwitch | backend/src/services/authService.js:285-325 | After a switch the sync code gets the chosen account's credentials |
| AuthService.CredentialsAfterUpdate | backend/src/services/authService.js:328-370 | After the active account's session is replaced, the credentials carry the new session |
| TelegramApi.Categorize | backend/src/services/telegramApiService.js:31-54 | The classifier always answers one of the seven categories |
| TelegramApi.MimeWins | backend/src/services/telegramApiService.js:34-39 | A deciding MIME type wins over the declared type |
| TelegramApi.CategorizeByKind | backend/src/services/telegramApiService.js:41-53 | Without one, the declared type decides; text is a link iff it holds a URL; unknown types are '其他' |
| TelegramApi.MimeExt | backend/src/services/telegramApiService.js:82-90 | The MIME table gives a '.'-led extension without '/' |
| TelegramApi.FileExt | backend/src/services/telegramApiService.js:80-95 | The chosen extension is never empty ('.bin' by default) and holds no '/' |
| TelegramApi.FileExtOrder | backend/src/services/telegramApiService.js:80-95 | The MIME table first, then the lower-cased name extension, then '.bin' |
| TelegramApi.DownloadFile | backend/src/services/telegramApiService.js:72-134 | A download yields a result exactly when it succeeds |
| TelegramApi.DownloadFilePath | backend/src/services/telegramApiService.js:97 | The file lands in the user's directory under the message id and the chosen extension |
| TelegramApi.DownloadFileThumbnail | backend/src/services/telegramApiService.js:103-124 | An image is its own thumbnail, a video gets a '_thumb' one, anything else none |
| TelegramApi.ClientErrorFallback | backend/src/services/telegramApiService.js:196-207 | A raw error passes through under 'Telegram API错误：' exactly when it is none of the recognised kinds |
| TelegramApi.InitializeAndGetAccountDetails | backend/src/services/telegramApiService.js:139-213 | Success iff connected and getMe returns a user with a non-zero id; the id as a decimal string; a photo URL iff the user has a photo |
| TelegramApi.Derive | backend/src/services/telegramApiService.js:268-335 | A photo with no sizes throws; a message without media is a link or text |
| TelegramApi.MessageTags | backend/src/services/telegramApiService.js:358-363 | A message's tags are word runs, and none without text |
| TelegramApi.BuildFavorite | backend/src/services/telegramApiService.js:268-353 | A new favorite is refused exactly when Derive throws; otherwise it carries the user and the message id as a string |
| TelegramApi.BuildLink | backend/src/services/telegramApiService.js:332-334 | A media-less message with a URL is a link to its first URL |
| TelegramApi.BuildPlainText | backend/src/services/telegramApiService.js:268-269 | A media-less message without a URL is text ('' when it has none) |
| TelegramApi.BuildPhoto | backend/src/services/telegramApiService.js:277-326 | A photo keeps its last size; once downloaded it is its own thumbnail |
| TelegramApi.BuildFailedDownload | backend/src/services/telegramApiService.js:327-331 | A failed download is not an error: no local path, no thumbnail, not downloaded |
| TelegramApi.SyncAllGrowth | backend/src/services/telegramApiService.js:254-372 | The loop only appends the user's new favorites, at most one per message, and counts them |
| TelegramApi.FailureSticks | backend/src/services/telegramApiService.js:254-372 | After a thrown error, later messages change nothing |
| TelegramApi.SyncAllValid | backend/src/services/telegramApiService.js:254-372 | The loop keeps keys and ids sound |
| TelegramApi.SyncAllConsistent | backend/src/services/telegramApiService.js:254-372 | With no message naming a tag twice, the loop keeps the ledger invariant |
| TelegramApi.SyncAllUnique | backend/src/services/telegramApiService.js:256-266 | The loop never stores a second favorite for a message |
| TelegramApi.SyncAllCovers | backend/src/services/telegramApiService.js:254-372 | After a completed loop every fetched message is stored for the user |
| TelegramApi.SyncAllPresent | backend/src/services/telegramApiService.js:263-266 | Messages that are all stored already add nothing |
| TelegramApi.Resync | backend/src/services/telegramApiService.js:254-372 | Syncing the same messages again right away stores nothing and counts 0 |
| TelegramApi.Newest | backend/src/services/telegramApiService.js:247-250 | At most 100 messages, the newest ones |
| TelegramApi.Preflight | backend/src/services/telegramApiService.js:218-250 | No user, or no active account, each gives its own error; otherwise the first active account's session is deciphered and its messages fetched |
| TelegramApi.IngestMessages | backend/src/services/telegramApiService.js:254-372 | The loop method equals SyncAll: the same store, count and failure |
| TelegramApi.SyncUserFavorites | backend/src/services/telegramApiService.js:216-390 | The whole sync: preflight errors change nothing; otherwise the loop, the active account's lastSync stamped, and the count returned |
| TelegramBot.BotCategorize | backend/src/services/telegramBotService.js:24-51 | The bot's copy of the classifier always answers a category |
| TelegramBot.CategorizeCopiesAgree | backend/src/services/telegramBotService.js:24-51 | The bot's copy agrees with the service's classifier on every input |
| TelegramBot.MockFavorites | backend/src/services/telegramBotService.js:188-222 | The sample list has three items |
| TelegramBot.BotBuild | backend/src/services/telegramBotService.js:232-279 | A new favorite carries the item's user, message id, type, time and caption tags; downloaded iff it has a local path |
| TelegramBot.BotBuildDownload | backend/src/services/telegramBotService.js:237-256 | Downloads are tried only for media items with a file id; a failed one leaves no path; only videos get a thumbnail |
| TelegramBot.BotSyncGrowth | backend/src/services/telegramBotService.js:225-306 | The loop appends the user's new favorites and counts them |
| TelegramBot.BotSyncValid | backend/src/services/telegramBotService.js:225-304 | The loop keeps keys and ids sound |
| TelegramBot.BotSyncConsistent | backend/src/services/telegramBotService.js:225-304 | With duplicate-free caption tags the loop keeps the ledger invariant |
| TelegramBot.BotSyncMessages | backend/src/services/telegramBotService.js:225-304 | Afterwards the user's messages are exactly those stored before plus the items' |
| TelegramBot.BotSyncCountsAll | backend/src/services/telegramBotService.js:225-306 | Distinct new items are all counted |
| TelegramBot.BotSyncPresent | backend/src/services/telegramBotService.js:227-232 | Items that are all stored already add nothing |
| TelegramBot.MockHasNoTags | backend/src/services/telegramBotService.js:188-222 | The sample captions carry no hashtags |
| TelegramBot.MockIds | backend/src/services/telegramBotService.js:188-222 | The sample message ids are distinct and hold no '/' |
| TelegramBot.MockSyncTwice | backend/src/services/telegramBotService.js:173-310 | A first sync stores the three samples and counts 3; a second adds nothing |
| TelegramBot.BotSyncUntagged | backend/src/services/telegramBotService.js:283-302 | Items without caption tags leave the tag rows as they are |
| TelegramBot.BotSyncUserFavorites | backend/src/services/telegramBotService.js:173-310 | Unknown user: '用户不存在' and nothing changes; otherwise the loop's store and count |
| AuthMiddleware.BearerToken | backend/src/middlewares/authMiddleware.js:19-23 | The token is the non-empty second space-separated part, and holds no space |
| AuthMiddleware.Classify | backend/src/middlewares/authMiddleware.js:12-52 | Every rejection is 401; no header means '未提供认证令牌'; a bad format means '无效的认证令牌格式'; a pass iff verification decodes, carrying the payload's id |
| AuthMiddleware.ThrownMessagesDistinct | backend/src/middlewares/authMiddleware.js:46-52 | Expired and invalid tokens each get their own message, distinct from the header messages |
| AuthMiddleware.NoSpaceNoToken | backend/src/middlewares/authMiddleware.js:19-23 | A header without a space carries no token |
| AuthMiddleware.ClientHeader | frontend/src/utils/api.js:16-18 | The client sends 'Bearer ' and the token only for a truthy token |
| AuthMiddleware.ClientHeaderRoundTrip | backend/src/middlewares/authMiddleware.js:12-33 | The server reads back exactly the token the client sent |
| AuthMiddleware.Request.constructor | backend/src/middlewares/authMiddleware.js:12 | A request starts without a user id |
| AuthMiddleware.Response.constructor | backend/src/middlewares/authMiddleware.js:46-52 | A response starts unset |
| AuthMiddleware.VerifyToken | backend/src/middlewares/authMiddleware.js:10-54 | A pass records the user id and calls next once; a rejection sets status and message and does not call next |
| ApiErrors.ShownMessage | frontend/src/store/modules/tags.js:64-67 | The server's message when it has one, else the action's fallback |
| Helpers.Head | frontend/src/utils/helper.js:31 | `substring(0, n)` is a prefix of length n (0 for a negative n) |
| Helpers.TruncateText | frontend/src/utils/helper.js:28-32 | Falsy text gives ''; a longer text gives its first n characters and '...'; otherwise the text itself; length at most n+3 |
| Helpers.TruncateTextIdempotent | frontend/src/utils/helper.js:28-32 | Truncating twice is truncating once |
| FavoritesStore.MergeFiltersLaws | frontend/src/store/modules/favorites.js:52-54 | SET_FILTERS is a shallow merge: an empty patch keeps the filters, a patch applied twice is applied once, two patches compose |
| FavoritesStore.PageOnlyKeepsRest | frontend/src/store/modules/favorites.js:55-57 | Setting only the page keeps the rest of the pagination |
| FavoritesStore.FetchParams | frontend/src/store/modules/favorites.js:100-119 | Page, limit and sort always sent; tags only when non-empty; type, category and search only when truthy, unchanged |
| FavoritesStore.FetchParamsTagsRoundTrip | frontend/src/store/modules/favorites.js:105-107 | The ','-joined tags split back into the list when no tag holds ',' |
| FavoritesStore.ClearedParams | frontend/src/store/modules/favorites.js:58-67 | After clearing, only page, limit, savedAt and desc are sent |
| FavoritesStore.AddedFavorite | frontend/src/store/modules/favorites.js:68-71 | ADD_FAVORITE puts the item first and raises the total by one |
| FavoritesStore.UpdatedFavoriteInPlace | frontend/src/store/modules/favorites.js:72-81 | UPDATE_FAVORITE replaces the item with the same _id in place, or nothing; the detail changes only to the update |
| FavoritesStore.RemovedFavoriteDrops | frontend/src/store/modules/favorites.js:82-89 | REMOVE_FAVORITE drops every item with the id, lowers the total by one and clears a matching detail |
| FavoritesStore.AddThenRemove | frontend/src/store/modules/favorites.js:68-89 | Removing an item just added under a new id restores list and total |
| FavoritesStore.FavoritesState.constructor | frontend/src/store/modules/favorites.js:5-25 | The initial state |
| FavoritesStore.FavoritesState.SetFavorites | frontend/src/store/modules/favorites.js:40-42 | SET_FAVORITES |
| FavoritesStore.FavoritesState.SetFavorite | frontend/src/store/modules/favorites.js:43-45 | SET_FAVORITE |
| FavoritesStore.FavoritesState.SetLoading | frontend/src/store/modules/favorites.js:46-48 | SET_LOADING |
| FavoritesStore.FavoritesState.SetError | frontend/src/store/modules/favorites.js:49-51 | SET_ERROR |
| FavoritesStore.FavoritesState.SetFilters | frontend/src/store/modules/favorites.js:52-54 | SET_FILTERS merges |
| FavoritesStore.FavoritesState.SetPagination | frontend/src/store/modules/favorites.js:55-57 | SET_PAGINATION merges |
| FavoritesStore.FavoritesState.ClearFilters | frontend/src/store/modules/favorites.js:58-67 | CLEAR_FILTERS restores the default filters |
| FavoritesStore.FavoritesState.AddFavorite | frontend/src/store/modules/favorites.js:68-71 | The mutation as AddedFavorite |
| FavoritesStore.FavoritesState.UpdateFavorite | frontend/src/store/modules/favorites.js:72-81 | The mutation as UpdatedFavorite |
| FavoritesStore.FavoritesState.RemoveFavorite | frontend/src/store/modules/favorites.js:82-89 | The mutation as RemovedFavorite |
| FavoritesStore.FavoritesState.FetchFavorites | frontend/src/store/modules/favorites.js:94-142 | Sends FetchParams of the current filters and pagination; the new state is Fetched's |
| FavoritesStore.Fetched | frontend/src/store/modules/favorites.js:123-141 | The reply's items and pagination with no error, or the error message with the list kept; loading ends and the filters never change |
| FavoritesStore.FavoritesState.DeleteFavorite | frontend/src/store/modules/favorites.js:208-233 | On success AfterDeleteFavorite, then the list fetched again with the (possibly stepped-back) page; on failure only the error message and no fetch |
| FavoritesStore.FavoritesState.UpdateFiltersAndFetch | frontend/src/store/modules/favorites.js:236-240 | Merged filters and page 1, and the request sent asks for page 1 with the merged filters |
| FavoritesStore.FavoritesState.ClearAllFilters | frontend/src/store/modules/favorites.js:243-247 | Default filters and page 1, and the request sent asks for page 1 with the default filters |
| FavoritesStore.FavoritesState.SetPage | frontend/src/store/modules/favorites.js:250-253 | Only the page changes, and the request sent asks for that page |
| FavoritesStore.AfterDeleteFavoritePage | frontend/src/store/modules/favorites.js:217-219 | The page steps back exactly when the deletion emptied a page after the first |
| TagsStore.AddedTagOnce | frontend/src/store/modules/tags.js:30-40 | ADD_TAG grows the list by at most one, only for a new _id; adding the same tag again changes nothing |
| TagsStore.UpdatedTagInPlace | frontend/src/store/modules/tags.js:41-46 | UPDATE_TAG replaces in place or does nothing; the length is kept |
| TagsStore.AddThenRemoveTag | frontend/src/store/modules/tags.js:30-49 | Removing a tag just added under a new id restores the list |
| TagsStore.CreateTagMessage | frontend/src/store/modules/tags.js:86-92 | A 400 with '用户名已存在' shows '标签名称已存在'; otherwise the server message or the default |
| TagsStore.UpdateTagMessageGeneric | frontend/src/store/modules/tags.js:109-115 | The special case of updateTag shows exactly what the generic rule shows |
| TagsStore.TagNameTakenShown | frontend/src/store/modules/tags.js:86-115 | The tag-name message reaches the user from both actions; createTag's rewrite fires only on a 400 |
| TagsStore.TagsState.constructor | frontend/src/store/modules/tags.js:5-9 | The initial state |
| TagsStore.TagsState.SetTags | frontend/src/store/modules/tags.js:21-23 | SET_TAGS |
| TagsStore.TagsState.SetLoading | frontend/src/store/modules/tags.js:24-26 | SET_LOADING |
| TagsStore.TagsState.SetError | frontend/src/store/modules/tags.js:27-29 | SET_ERROR |
| TagsStore.TagsState.AddTag | frontend/src/store/modules/tags.js:30-40 | The mutation as AddedTag |
| TagsStore.TagsState.UpdateTag | frontend/src/store/modules/tags.js:41-46 | The mutation as UpdatedTag |
| TagsStore.TagsState.RemoveTag | frontend/src/store/modules/tags.js:47-49 | The mutation as RemovedTag |
| TagsStore.TagsState.FetchTagsRequest | frontend/src/store/modules/tags.js:54-72 | The reply's tags, or the error message |
| TagsStore.TagsState.CreateTagRequest | frontend/src/store/modules/tags.js:74-97 | The tag added, or CreateTagMessage |
| TagsStore.TagsState.UpdateTagRequest | frontend/src/store/modules/tags.js:99-120 | The tag replaced, or UpdateTagMessage |
| TagsStore.TagsState.DeleteTagRequest | frontend/src/store/modules/tags.js:122-139 | The tag removed, or the error message |
| AuthStore.AuthenticatedIffToken | frontend/src/store/modules/auth.js:21 | isAuthenticated iff the token is truthy, from local storage at start |
| AuthStore.FirstMarked | frontend/src/store/modules/auth.js:45 | The first account marked active, or none exactly when none is |
| AuthStore.WithUserPicksMarked | frontend/src/store/modules/auth.js:41-47 | SET_USER with accounts takes the list, and the one marked account becomes the active one |
| AuthStore.KeepFlag | frontend/src/store/modules/auth.js:61 | The updated account keeps its previous isActive and takes every other key from the update |
| AuthStore.UpdatedAccountKeepsFlags | frontend/src/store/modules/auth.js:57-67 | UPDATE_ACCOUNT never changes an active flag, keeps the others, and a second spread over the active account changes nothing |
| AuthStore.RemovedAccountActive | frontend/src/store/modules/auth.js:68-77 | REMOVE_ACCOUNT drops the id; a removed active account is replaced by the first remaining, marked active, or none |
| AuthStore.MarkOnly | frontend/src/store/modules/auth.js:247-251 | The remap sets each account's isActive to whether its id is the chosen one |
| AuthStore.MarkOnlyChosen | frontend/src/store/modules/auth.js:247-251 | Exactly the accounts with the chosen id are marked active, and only the flags change |
| AuthStore.LoggedOutEmpty | frontend/src/store/modules/auth.js:84-95 | After LOGOUT: no token, no user, no accounts, no active account, username '' |
| AuthStore.AuthState.constructor | frontend/src/store/modules/auth.js:6-17 | The initial state, token from local storage |
| AuthStore.AuthState.SetToken | frontend/src/store/modules/auth.js:38-40 | SET_TOKEN |
| AuthStore.AuthState.SetUser | frontend/src/store/modules/auth.js:41-47 | SET_USER as WithUser |
| AuthStore.AuthState.SetAccounts | frontend/src/store/modules/auth.js:48-50 | SET_ACCOUNTS |
| AuthStore.AuthState.SetActiveAccount | frontend/src/store/modules/auth.js:51-53 | SET_ACTIVE_ACCOUNT |
| AuthStore.AuthState.SetLoading | frontend/src/store/modules/auth.js:78-80 | SET_LOADING |
| AuthStore.AuthState.SetError | frontend/src/store/modules/auth.js:81-83 | SET_ERROR |
| AuthStore.AuthState.AddAccount | frontend/src/store/modules/auth.js:54-56 | ADD_ACCOUNT appends |
| AuthStore.AuthState.UpdateAccount | frontend/src/store/modules/auth.js:57-67 | UPDATE_ACCOUNT as UpdatedAccount |
| AuthStore.AuthState.RemoveAccount | frontend/src/store/modules/auth.js:68-77 | REMOVE_ACCOUNT as RemovedAccount |
| AuthStore.AuthState.Logout | frontend/src/store/modules/auth.js:84-95 | LOGOUT restores the initial state without a token |
| AuthStore.AuthState.AddTelegramAccount | frontend/src/store/modules/auth.js:203-229 | The reply is appended, and becomes the active account only when marked active; or the error message |
| AuthStore.AuthState.SwitchTelegramAccount | frontend/src/store/modules/auth.js:232-264 | The new token, the list remapped to the chosen id, and the reply's account as active; or the error message |
| AuthStore.AuthState.UpdateTelegramAccount | frontend/src/store/modules/auth.js:267-292 | UPDATE_ACCOUNT with the reply; or the error message |
| AuthStore.AuthState.DeleteTelegramAccount | frontend/src/store/modules/auth.js:295-330 | REMOVE_ACCOUNT, a non-empty token taken, and the remaining accounts with their first marked one as active; or the error message |
| AuthStore.AfterDeleteAccountFollowsReply | frontend/src/store/modules/auth.js:303-317 | When the reply lists the remaining accounts, they replace the local choice; a token is replaced only by a non-empty one |
| Router.MatchedRoute | frontend/src/router/index.js:19-66 | A path's route is the first in the table it matches; the catch-all guarantees one |
| Router.LoginGuestOnly | frontend/src/router/index.js:25-30 | '/login' is guest-only and public |
| Router.FavoritesPrivate | frontend/src/router/index.js:31-42 | '/favorites' and '/favorites/:id' require authentication |
| Router.TagsPrivate | frontend/src/router/index.js:43-48 | '/tags' requires authentication |
| Router.SearchPrivate | frontend/src/router/index.js:49-54 | '/search' requires authentication |
| Router.SettingsPrivate | frontend/src/router/index.js:55-60 | '/settings' requires authentication |
| Router.HomePublic | frontend/src/router/index.js:19-24 | '/' is public |
| Router.UnknownPathPublic | frontend/src/router/index.js:61-66 | Any other path lands on the public catch-all |
| Router.Decide | frontend/src/router/index.js:91-116 | requiresAuth first: a guest goes to /login with redirect = fullPath; guest-only while signed in replaces to query.redirect or '/favorites'; otherwise proceed |
| Router.DecideRedirectsOnlyWhenBarred | frontend/src/router/index.js:91-116 | A redirect happens iff a guest meets a private page or a signed-in user a guest page |
| Router.Guard | frontend/src/router/index.js:74-116 | A failed initializeAuth logs out and goes to /login; otherwise Decide |
| Router.InitializeAuthIdleInGuard | frontend/src/router/index.js:78-86 | The guard dispatches initializeAuth only without a token, where it requests nothing |
| Router.BeforeEach | frontend/src/router/index.js:74-116 | next receives the guard's decision; the store is logged out exactly on the failure branch, else untouched |

## Left out

- getUserFavoriteStats and searchFavorites: they are Mongo aggregation and `$text` queries; search matching is a parameter of the model.
- File system, HTTP, Telegram client and bot I/O, logging and timers: connection, `getMe`, download success and the fetched messages are parameters. The bot's `/start`, `/help`, `/login` and `/sync` replies and its launch are not modelled.
- ffmpeg thumbnails, profile-photo bytes and `fs` writes: only the paths and URLs they lead to are modelled.
- The cipher, JWT signing and verification, and bcrypt: they are parameters. The cipher comes as a pair of functions, one the inverse of the other.
- Floating point and JavaScript numbers: all numbers are integers. `parseInt` of page and limit is the identity. A non-finite page count is `None`.
- JavaScript reference equality, `NaN`, and key order of objects.
- An `isActive` key whose value is `undefined` is modelled as an absent key (AuthStore.KeepFlag).
- Filter and pagination keys other than the modelled ones.
- The `tags` query parameter read by the Search route versus the `tag` one its link sends: the route table only records the meta flags.
- The vue-router matcher's case-insensitivity and trailing-slash handling: paths are given as their segment lists.
- Store actions `register`, `login`, `fetchCurrentUser`, `syncFavorites`, `updateUserSettings`, `fetchFavoriteById`, `updateFavoriteTags` and `removeTagFromFavorite`: they commit the reply through the modelled mutations only. `initializeAuth` is modelled only through Router.InitializeAuthFetches.
- The rethrow after an action commits its error, and `localStorage`/`router.push` effects.
- `formatDate` and the other helpers besides `truncateText`.
- AuthService.UpdateUserSettings: the `Object.assign` merge is modelled as field-wise, for the two schema fields only.
- A rejected save leaves the stored document as it was. Mongo writes are modelled as all-or-nothing.
- Concurrency between requests: every service call is one atomic step.
- backend/src/routes and the express app are not part of this model.
- FavoriteService.GetFavoritesPage: documents whose sort keys tie come out in the insertion sort's order; Mongo leaves their order unspecified.
- Ledger.AddTag: the new row keeps the supplied color, the intended behaviour. As written, the strict tag schema has no color path and drops it (see Findings; the as-written cast is Models.SchemaCast).
- MongoStore.Store.InsertTag: stores and returns the row with its color, as intended. As written, `new Tag({..., color})` drops the color.
- TagService.CreateTag: the new row and the reply carry the supplied color, as intended. As written, neither holds a color.
- TagService.Edited: a sent color replaces the stored one, as intended. As written, `tag.color = color` is never persisted, because the schema has no color path.
- TagService.UpdateTag: the edited color is saved and returned, as intended. As written, the strict schema drops it.
- Helpers.TruncateText: it and Helpers.Head count and cut Unicode characters. `text.length` and `substring` count UTF-16 code units, so a text with characters outside the Basic Multilingual Plane (an emoji) is cut at a different place in JavaScript, which can also leave half a surrogate pair.
- Helpers.Head: counts Unicode characters where `substring` counts UTF-16 code units (see the line above).
- TelegramApi.NameExt (and through it TelegramApi.FileExt and TelegramApi.FileExtOrder) lower-cases ASCII letters only, where `toLowerCase()` folds all of Unicode.
- AuthStore.AuthState.AddAccount and AuthStore.AuthState.UpdateAccount change only `accounts`. After SET_USER, `state.accounts` is the same array as `state.user.accounts`, so in JavaScript the `push` and `splice` also change the user's list; the model does not capture that aliasing.
- AuthStore.AuthState.RemoveAccount (and AuthStore.AuthState.DeleteTelegramAccount, which commits it) changes only `accounts` and `activeAccount`. After SET_USER, the entries of `state.accounts` are the same objects as those of `state.user.accounts`, and the filter keeps them, so in JavaScript the `isActive = true` written to the promoted account also lands on that account in the user's list; the later SET_ACCOUNTS does not undo it. The model leaves `user` unchanged.
- AuthStore.AuthState.DeleteTelegramAccount: commits REMOVE_ACCOUNT, so the write into the user's list described on the line above is not captured here either.
- The `dispatch('fetchFavorites')` closing deleteFavorite, updateFiltersAndFetch, clearAllFilters and setPage is not awaited. The model runs it to completion before the action returns, so it does not capture other commits that land before its reply.

## Findings

| source | as written | input that shows it | evidently intended | confidence | as-written member | corrected member |
|---|---|---|---|---|---|---|
| backend/src/services/authService.js:210-277 | `push` stores a cast copy of the plain account. The later writes of the details and `isActive` go to the plain object, and the reply reads its missing `_id` | A user with no accounts adds an account with complete credentials | The stored entry gets the details, and the reply names its id and active flag | not executed | AuthService.AddedReplyDiffersFromStored | AuthService.AddedIntendedReplyIsStored |
| backend/src/models/Tag.js:5-23 | The tag schema declares no `color`, so the strict schema drops the color that createTag and updateTag set (tagService.js:33-38, 75-77) | createTag with name 'work' and color '#ff0000' | The tag keeps its color | not executed | Models.ColorDropped | Models.NewTag |
