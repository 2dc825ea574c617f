/** The database as an object the services update in place: the tag and
    favorite collections and the object-id allocator.  Each method is one
    Mongo write and is specified by the matching `Ledger` function. */
module MongoStore {
  import opened Wrappers
  import opened Models
  import opened Ledger

  class Store {
    var tags: map<TagKey, Tag>
    var favorites: seq<Favorite>
    var nextId: DocId

    function State(): Db
      reads this
    {
      Db(tags, favorites, nextId)
    }

    ghost predicate Valid()
      reads this
    {
      Ledger.Valid(State())
    }

    constructor ()
      ensures State() == Db(map[], [], 0)
      ensures Valid() && Consistent(State())
    {
      tags := map[];
      favorites := [];
      nextId := 0;
    }

    /** `Tag.findOneAndUpdate({userId, name}, {$inc: {count: 1}}, {upsert: true})`. */
    method IncTag(u: UserId, n: string, now: int)
      modifies this
      ensures State() == Inc(old(State()), u, n, now)
    {
      var k := TagKey(u, n);
      if k in tags {
        tags := tags[k := tags[k].(count := tags[k].count + 1)];
      } else {
        tags := tags[k := Tag(nextId, u, n, None, 1, now)];
        nextId := nextId + 1;
      }
    }

    /** `Tag.findOneAndUpdate({userId, name}, {$inc: {count: -1}})`. */
    method DecTag(u: UserId, n: string)
      modifies this
      ensures State() == Dec(old(State()), u, n)
    {
      var k := TagKey(u, n);
      if k in tags {
        tags := tags[k := tags[k].(count := tags[k].count - 1)];
      }
    }

    /** `Tag.deleteOne({userId, name, count: {$lte: 0}})`. */
    method DeleteTagIfEmpty(u: UserId, n: string)
      modifies this
      ensures State() == Gc(old(State()), u, n)
    {
      var k := TagKey(u, n);
      if k in tags && tags[k].count <= 0 {
        tags := tags - {k};
      }
    }

    /** `new Tag({userId, name, color, count: 0}).save()` for a name the
        unique index has no row for. */
    method InsertTag(u: UserId, n: string, color: Option<string>, now: int) returns (t: Tag)
      requires TagKey(u, n) !in tags
      modifies this
      ensures State() == AddTag(old(State()), u, n, color, now)
      ensures t == tags[TagKey(u, n)]
    {
      t := NewTag(nextId, u, n, color, now);
      tags := tags[TagKey(u, n) := t];
      nextId := nextId + 1;
    }

    /** `tag.save()` of a row read under key `k`. */
    method SaveTagRow(k: TagKey, t: Tag)
      requires k in tags
      modifies this
      ensures State() == SaveTag(old(State()), k, t)
    {
      tags := (tags - {k})[TagKey(t.userId, t.name) := t];
    }

    /** `Tag.deleteOne({_id})` of the row under key `k`. */
    method DeleteTagRow(k: TagKey)
      modifies this
      ensures State() == old(State()).(tags := old(tags) - {k})
    {
      tags := tags - {k};
    }

    /** `Favorite.updateMany({userId: u, tags: n}, {$pull: {tags: n}})`. */
    method PullTag(u: UserId, n: string)
      modifies this
      ensures State() == old(State()).(favorites := PullAll(old(favorites), u, n))
    {
      favorites := PullAll(favorites, u, n);
    }

    /** `favorite.save()` of the document at index `i`. */
    method SaveFavorite(i: nat, f: Favorite)
      requires i < |favorites|
      modifies this
      ensures State() == old(State()).(favorites := old(favorites)[i := f])
    {
      favorites := favorites[i := f];
    }

    /** `new Favorite({...}).save()`: the document gets a fresh object id. */
    method InsertFavorite(f: Favorite) returns (saved: Favorite)
      modifies this
      ensures saved == f.(id := old(nextId))
      ensures State() == Db(old(tags), old(favorites) + [saved], old(nextId) + 1)
    {
      saved := f.(id := nextId);
      favorites := favorites + [saved];
      nextId := nextId + 1;
    }

    /** `Favorite.deleteOne({_id})` of the document at index `i`. */
    method DeleteFavoriteAt(i: nat)
      requires i < |favorites|
      modifies this
      ensures State() == old(State()).(favorites := old(favorites)[..i] + old(favorites)[i + 1..])
    {
      favorites := favorites[..i] + favorites[i + 1..];
    }

    /** The decrement loop: each name of `names` not in `keep` is
        decremented and its row removed once its count is at most zero. */
    method DecrementTags(u: UserId, names: seq<string>, keep: seq<string>)
      modifies this
      ensures State() == DecGcAll(old(State()), u, names, keep)
    {
      ghost var start := State();
      var j := 0;
      while j < |names|
        invariant 0 <= j <= |names|
        invariant State() == DecGcAll(start, u, names[..j], keep)
      {
        var name := names[j];
        DecGcAllSnoc(start, u, names[..j], name, keep);
        if name !in keep {
          DecTag(u, name);
          DeleteTagIfEmpty(u, name);
        }
        assert names[..j + 1] == names[..j] + [name];
        j := j + 1;
      }
      assert names[..|names|] == names;
    }

    /** The increment loop: each name of `names` not in `skip` is
        upsert-incremented. */
    method IncrementTags(u: UserId, names: seq<string>, skip: seq<string>, now: int)
      modifies this
      ensures State() == IncAll(old(State()), u, names, skip, now)
    {
      ghost var start := State();
      var j := 0;
      while j < |names|
        invariant 0 <= j <= |names|
        invariant State() == IncAll(start, u, names[..j], skip, now)
      {
        var name := names[j];
        IncAllSnoc(start, u, names[..j], name, skip, now);
        if name !in skip {
          IncTag(u, name, now);
        }
        assert names[..j + 1] == names[..j] + [name];
        j := j + 1;
      }
      assert names[..|names|] == names;
    }
  }

  /** `Favorite.findOne({_id: id, userId: u})`: the first matching index. */
  function FindFavorite(favs: seq<Favorite>, id: DocId, u: UserId): (r: Option<nat>)
    ensures r.Some? ==> r.value < |favs| && favs[r.value].id == id && favs[r.value].userId == u
    ensures r.Some? ==> forall j :: 0 <= j < r.value ==> !(favs[j].id == id && favs[j].userId == u)
    ensures r.None? ==> forall j :: 0 <= j < |favs| ==> !(favs[j].id == id && favs[j].userId == u)
    decreases |favs|
  {
    if |favs| == 0 then None
    else if favs[0].id == id && favs[0].userId == u then Some(0)
    else match FindFavorite(favs[1..], id, u)
      case None => None
      case Some(j) => Some(j + 1)
  }

  /** `Favorite.findOne({userId: u, telegramMessageId: m})` is not null. */
  predicate HasMessage(favs: seq<Favorite>, u: UserId, m: string) {
    exists i :: 0 <= i < |favs| && favs[i].userId == u && favs[i].telegramMessageId == m
  }

  /** Appending a favorite adds exactly its own message to the user's set. */
  lemma HasMessageAppend(favs: seq<Favorite>, f: Favorite, u: UserId, m: string)
    ensures HasMessage(favs + [f], u, m) <==> HasMessage(favs, u, m) || (f.userId == u && f.telegramMessageId == m)
  {
    var all := favs + [f];
    if HasMessage(all, u, m) && !(f.userId == u && f.telegramMessageId == m) {
      var i :| 0 <= i < |all| && all[i].userId == u && all[i].telegramMessageId == m;
      assert i < |favs| && favs[i] == all[i];
    }
    if HasMessage(favs, u, m) {
      var i :| 0 <= i < |favs| && favs[i].userId == u && favs[i].telegramMessageId == m;
      assert all[i] == favs[i];
    }
    if f.userId == u && f.telegramMessageId == m {
      assert all[|favs|] == f;
    }
  }

  /** `Tag.findOne({_id: id, userId: u})`: the key of the row with that id. */
  ghost function FindTag(tags: map<TagKey, Tag>, id: DocId, u: UserId): (r: Option<TagKey>)
    ensures r.Some? ==> r.value in tags && tags[r.value].id == id && tags[r.value].userId == u
    ensures r.None? ==> forall k :: k in tags ==> !(tags[k].id == id && tags[k].userId == u)
  {
    if exists k :: k in tags && tags[k].id == id && tags[k].userId == u then
      Some(var k :| k in tags && tags[k].id == id && tags[k].userId == u; k)
    else None
  }

  /** Ids are unique, so the row found is the only one with that id. */
  lemma FindTagUnique(db: Db, id: DocId, u: UserId, k: TagKey)
    requires Ledger.Valid(db)
    requires k in db.tags && db.tags[k].id == id && db.tags[k].userId == u
    ensures FindTag(db.tags, id, u) == Some(k)
  {
  }
}
