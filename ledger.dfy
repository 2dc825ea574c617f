/** The tag ledger: the tag and favorite collections as values, the
    write operations the services send to them, and the invariant that a
    tag row's `count` is the number of its owner's favorites carrying the
    name.  The functions here specify the store methods and services. */
module Ledger {
  import opened Wrappers
  import opened Models

  /** Tags are unique per owner and name, so the collection is a map. */
  datatype TagKey = TagKey(owner: UserId, name: string)

  /** The two collections in store order, and the object-id allocator. */
  datatype Db = Db(tags: map<TagKey, Tag>, favorites: seq<Favorite>, nextId: DocId)

  function Max0(x: int): int { if x < 0 then 0 else x }

  /** The stored count of `(u, n)`, 0 when there is no row. */
  function Count(tags: map<TagKey, Tag>, u: UserId, n: string): int {
    var k := TagKey(u, n);
    if k in tags then tags[k].count else 0
  }

  function Holds(f: Favorite, u: UserId, n: string): nat {
    if f.userId == u && n in f.tags then 1 else 0
  }

  /** How many of `u`'s favorites carry the tag `n`. */
  function Holders(favs: seq<Favorite>, u: UserId, n: string): nat
    decreases |favs|
  {
    if |favs| == 0 then 0
    else Holders(favs[..|favs| - 1], u, n) + Holds(favs[|favs| - 1], u, n)
  }

  /** The ledger invariant. */
  ghost predicate Consistent(db: Db) {
    forall u, n :: Count(db.tags, u, n) == Holders(db.favorites, u, n)
  }

  predicate NoDup(xs: seq<string>) {
    forall i, j :: 0 <= i < j < |xs| ==> xs[i] != xs[j]
  }

  /** Number of occurrences of `n` in `xs`. */
  function Occ(xs: seq<string>, n: string): nat
    decreases |xs|
  {
    if |xs| == 0 then 0 else Occ(xs[..|xs| - 1], n) + (if xs[|xs| - 1] == n then 1 else 0)
  }

  // ------------------------------------------------- structural validity

  /** Each row sits under its own owner and name. */
  ghost predicate WellKeyed(tags: map<TagKey, Tag>) {
    forall k :: k in tags ==> tags[k].userId == k.owner && tags[k].name == k.name
  }

  /** Object ids are below the allocator and never shared. */
  ghost predicate IdsOk(db: Db) {
    (forall k :: k in db.tags ==> db.tags[k].id < db.nextId)
    && (forall i :: 0 <= i < |db.favorites| ==> db.favorites[i].id < db.nextId)
    && (forall k1, k2 :: k1 in db.tags && k2 in db.tags && db.tags[k1].id == db.tags[k2].id ==> k1 == k2)
    && (forall i, j :: 0 <= i < j < |db.favorites| ==> db.favorites[i].id != db.favorites[j].id)
  }

  ghost predicate Valid(db: Db) {
    WellKeyed(db.tags) && IdsOk(db)
  }

  // ---------------------------------------------------- single-row writes

  /** `findOneAndUpdate({userId: u, name: n}, {$inc: {count: 1}}, {upsert: true})`:
      a missing row is inserted with count 1 and the schema defaults. */
  function Inc(db: Db, u: UserId, n: string, now: int): (r: Db)
    ensures r.favorites == db.favorites && r.nextId >= db.nextId
    ensures forall u', n' :: Count(r.tags, u', n') == Count(db.tags, u', n') + (if u' == u && n' == n then 1 else 0)
    ensures forall k :: k in r.tags <==> k in db.tags || k == TagKey(u, n)
  {
    var k := TagKey(u, n);
    if k in db.tags then db.(tags := db.tags[k := db.tags[k].(count := db.tags[k].count + 1)])
    else db.(tags := db.tags[k := Tag(db.nextId, u, n, None, 1, now)], nextId := db.nextId + 1)
  }

  /** `findOneAndUpdate({userId: u, name: n}, {$inc: {count: -1}})`: no upsert. */
  function Dec(db: Db, u: UserId, n: string): Db {
    var k := TagKey(u, n);
    if k in db.tags then db.(tags := db.tags[k := db.tags[k].(count := db.tags[k].count - 1)]) else db
  }

  /** `deleteOne({userId: u, name: n, count: {$lte: 0}})`. */
  function Gc(db: Db, u: UserId, n: string): Db {
    var k := TagKey(u, n);
    if k in db.tags && db.tags[k].count <= 0 then db.(tags := db.tags - {k}) else db
  }

  /** A decrement followed by the clean-up: the count drops by one but not
      below zero (a row reaching zero is gone, which reads as zero), and a
      name without a row stays without one. */
  function DecGc(db: Db, u: UserId, n: string): (r: Db)
    ensures r.favorites == db.favorites && r.nextId == db.nextId
    ensures forall u', n' :: Count(r.tags, u', n') ==
              if u' == u && n' == n then Max0(Count(db.tags, u, n) - 1) else Count(db.tags, u', n')
    ensures forall k :: k in r.tags ==> k in db.tags
  {
    Gc(Dec(db, u, n), u, n)
  }

  // ------------------------------------------------------------ the loops

  /** The decrement loop of `updateFavoriteTags` / `deleteFavorite` over
      the names `xs`, skipping those in `keep`. */
  function DecGcAll(db: Db, u: UserId, xs: seq<string>, keep: seq<string>): (r: Db)
    ensures r.favorites == db.favorites && r.nextId == db.nextId
    ensures forall k :: k in r.tags ==> k in db.tags
    decreases |xs|
  {
    if |xs| == 0 then db
    else
      var d := DecGcAll(db, u, xs[..|xs| - 1], keep);
      if xs[|xs| - 1] in keep then d else DecGc(d, u, xs[|xs| - 1])
  }

  /** The upsert-increment loop over the names `xs`, skipping those in `skip`. */
  function IncAll(db: Db, u: UserId, xs: seq<string>, skip: seq<string>, now: int): (r: Db)
    ensures r.favorites == db.favorites && r.nextId >= db.nextId
    ensures forall k :: k in r.tags <==> k in db.tags || (k.owner == u && k.name in xs && k.name !in skip)
    decreases |xs|
  {
    if |xs| == 0 then db
    else
      var d := IncAll(db, u, xs[..|xs| - 1], skip, now);
      if xs[|xs| - 1] in skip then d else Inc(d, u, xs[|xs| - 1], now)
  }

  /** One more name at the end of the decrement loop's list. */
  lemma DecGcAllSnoc(db: Db, u: UserId, xs: seq<string>, x: string, keep: seq<string>)
    ensures DecGcAll(db, u, xs + [x], keep)
            == if x in keep then DecGcAll(db, u, xs, keep) else DecGc(DecGcAll(db, u, xs, keep), u, x)
  {
    assert (xs + [x])[..|xs|] == xs;
  }

  /** One more name at the end of the increment loop's list. */
  lemma IncAllSnoc(db: Db, u: UserId, xs: seq<string>, x: string, skip: seq<string>, now: int)
    ensures IncAll(db, u, xs + [x], skip, now)
            == if x in skip then IncAll(db, u, xs, skip, now) else Inc(IncAll(db, u, xs, skip, now), u, x, now)
  {
    assert (xs + [x])[..|xs|] == xs;
  }

  /** `n` occurs in `xs` exactly when its occurrence count is positive. */
  lemma {:induction false} OccPositive(xs: seq<string>, n: string)
    ensures Occ(xs, n) > 0 <==> n in xs
    decreases |xs|
  {
    if |xs| > 0 {
      OccPositive(xs[..|xs| - 1], n);
      assert xs == xs[..|xs| - 1] + [xs[|xs| - 1]];
    }
  }

  /** In a duplicate-free list every name occurs at most once. */
  lemma {:induction false} OccNoDup(xs: seq<string>, n: string)
    requires NoDup(xs)
    ensures Occ(xs, n) == if n in xs then 1 else 0
    decreases |xs|
  {
    if |xs| > 0 {
      var init := xs[..|xs| - 1];
      assert NoDup(init);
      OccNoDup(init, n);
      OccPositive(init, n);
      assert xs == init + [xs[|xs| - 1]];
      if xs[|xs| - 1] == n {
        assert n !in init;
      }
    }
  }

  /** The decrement loop lowers each name it does not skip by its number
      of occurrences, saturating at zero. */
  lemma {:induction false} CountDecGcAll(db: Db, u: UserId, xs: seq<string>, keep: seq<string>, u': UserId, n': string)
    ensures Count(DecGcAll(db, u, xs, keep).tags, u', n') ==
              if u' == u && n' !in keep && Occ(xs, n') > 0 then Max0(Count(db.tags, u', n') - Occ(xs, n'))
              else Count(db.tags, u', n')
    decreases |xs|
  {
    if |xs| > 0 {
      CountDecGcAll(db, u, xs[..|xs| - 1], keep, u', n');
    }
  }

  /** The increment loop raises each name it does not skip by its number
      of occurrences. */
  lemma {:induction false} CountIncAll(db: Db, u: UserId, xs: seq<string>, skip: seq<string>, now: int, u': UserId, n': string)
    ensures Count(IncAll(db, u, xs, skip, now).tags, u', n') ==
              Count(db.tags, u', n') + (if u' == u && n' !in skip then Occ(xs, n') else 0)
    decreases |xs|
  {
    if |xs| > 0 {
      CountIncAll(db, u, xs[..|xs| - 1], skip, now, u', n');
    }
  }

  // -------------------------------------------------------- holder counts

  lemma {:induction false} HoldersAppend(favs: seq<Favorite>, f: Favorite, u: UserId, n: string)
    ensures Holders(favs + [f], u, n) == Holders(favs, u, n) + Holds(f, u, n)
  {
    assert (favs + [f])[..|favs|] == favs;
  }

  lemma {:induction false} HoldersUpdate(favs: seq<Favorite>, i: nat, f: Favorite, u: UserId, n: string)
    requires i < |favs|
    ensures Holders(favs[i := f], u, n) == Holders(favs, u, n) - Holds(favs[i], u, n) + Holds(f, u, n)
    decreases |favs|
  {
    var m := |favs|;
    if i == m - 1 {
      assert favs[i := f][..m - 1] == favs[..m - 1];
    } else {
      assert favs[i := f][..m - 1] == favs[..m - 1][i := f];
      HoldersUpdate(favs[..m - 1], i, f, u, n);
    }
  }

  lemma {:induction false} HoldersRemove(favs: seq<Favorite>, i: nat, u: UserId, n: string)
    requires i < |favs|
    ensures Holders(favs[..i] + favs[i + 1..], u, n) == Holders(favs, u, n) - Holds(favs[i], u, n)
    decreases |favs|
  {
    var m := |favs|;
    var rest := favs[..i] + favs[i + 1..];
    if i == m - 1 {
      assert rest == favs[..m - 1];
    } else {
      var init := favs[..m - 1];
      assert rest == (init[..i] + init[i + 1..]) + [favs[m - 1]];
      HoldersAppend(init[..i] + init[i + 1..], favs[m - 1], u, n);
      HoldersRemove(init, i, u, n);
    }
  }

  // ------------------------------------------------- updateFavoriteTags

  /** `updateFavoriteTags` on the favorite at index `i`: the new list is
      saved, then the old names not in it are decremented and cleaned up,
      then the new names not in the old list are upsert-incremented. */
  function Retag(db: Db, i: nat, tags: seq<string>, now: int): (r: Db)
    requires i < |db.favorites|
    ensures r.favorites == db.favorites[i := db.favorites[i].(tags := tags)]
    ensures forall k :: k in r.tags ==> k in db.tags || (k.owner == db.favorites[i].userId && k.name in tags)
  {
    var f := db.favorites[i];
    var saved := db.(favorites := db.favorites[i := f.(tags := tags)]);
    IncAll(DecGcAll(saved, f.userId, f.tags, tags), f.userId, tags, f.tags, now)
  }

  /** The counts after `updateFavoriteTags`: a name only in the old list
      drops by its occurrences (not below zero), a name only in the new
      list rises by its occurrences, every other count stays. */
  lemma RetagCount(db: Db, i: nat, tags: seq<string>, now: int, u': UserId, n': string)
    requires i < |db.favorites|
    ensures var f := db.favorites[i];
            var c := Count(db.tags, u', n');
            Count(Retag(db, i, tags, now).tags, u', n') ==
              if u' == f.userId && n' in f.tags && n' !in tags then Max0(c - Occ(f.tags, n'))
              else if u' == f.userId && n' in tags && n' !in f.tags then c + Occ(tags, n')
              else c
  {
    var f := db.favorites[i];
    var saved := db.(favorites := db.favorites[i := f.(tags := tags)]);
    CountDecGcAll(saved, f.userId, f.tags, tags, u', n');
    CountIncAll(DecGcAll(saved, f.userId, f.tags, tags), f.userId, tags, f.tags, now, u', n');
    OccPositive(f.tags, n');
    OccPositive(tags, n');
  }

  /** With duplicate-free old and new lists, `updateFavoriteTags` keeps the
      ledger invariant. */
  lemma RetagConsistent(db: Db, i: nat, tags: seq<string>, now: int)
    requires i < |db.favorites|
    requires Consistent(db)
    requires NoDup(db.favorites[i].tags) && NoDup(tags)
    ensures Consistent(Retag(db, i, tags, now))
  {
    var f := db.favorites[i];
    var r := Retag(db, i, tags, now);
    forall u, n
      ensures Count(r.tags, u, n) == Holders(r.favorites, u, n)
    {
      RetagCount(db, i, tags, now, u, n);
      HoldersUpdate(db.favorites, i, f.(tags := tags), u, n);
      OccNoDup(f.tags, n);
      OccNoDup(tags, n);
      assert Count(db.tags, u, n) == Holders(db.favorites, u, n);
    }
  }

  // ------------------------------------------------------ deleteFavorite

  /** `deleteFavorite` on the favorite at index `i`: every name it holds is
      decremented and cleaned up, then only that favorite is removed. */
  function RemoveFavorite(db: Db, i: nat): (r: Db)
    requires i < |db.favorites|
    ensures r.favorites == db.favorites[..i] + db.favorites[i + 1..]
    ensures forall k :: k in r.tags ==> k in db.tags
  {
    var f := db.favorites[i];
    var d := DecGcAll(db, f.userId, f.tags, []);
    d.(favorites := d.favorites[..i] + d.favorites[i + 1..])
  }

  /** The counts after `deleteFavorite`. */
  lemma RemoveFavoriteCount(db: Db, i: nat, u': UserId, n': string)
    requires i < |db.favorites|
    ensures var f := db.favorites[i];
            var c := Count(db.tags, u', n');
            Count(RemoveFavorite(db, i).tags, u', n') ==
              if u' == f.userId && n' in f.tags then Max0(c - Occ(f.tags, n')) else c
  {
    var f := db.favorites[i];
    CountDecGcAll(db, f.userId, f.tags, [], u', n');
    OccPositive(f.tags, n');
  }

  lemma RemoveFavoriteConsistent(db: Db, i: nat)
    requires i < |db.favorites|
    requires Consistent(db)
    requires NoDup(db.favorites[i].tags)
    ensures Consistent(RemoveFavorite(db, i))
  {
    var f := db.favorites[i];
    var r := RemoveFavorite(db, i);
    forall u, n
      ensures Count(r.tags, u, n) == Holders(r.favorites, u, n)
    {
      RemoveFavoriteCount(db, i, u, n);
      HoldersRemove(db.favorites, i, u, n);
      OccNoDup(f.tags, n);
      assert Count(db.tags, u, n) == Holders(db.favorites, u, n);
    }
  }

  // ----------------------------------------------------------- ingestion

  /** Saving a newly ingested favorite under a fresh id and upsert-
      incrementing each of its tags. */
  function Ingest(db: Db, f: Favorite, now: int): (r: Db)
    ensures r.favorites == db.favorites + [f.(id := db.nextId)]
    ensures forall k :: k in r.tags <==> k in db.tags || (k.owner == f.userId && k.name in f.tags)
    ensures r.nextId > db.nextId
  {
    IncAll(Append(db, f), f.userId, f.tags, [], now)
  }

  /** `new Favorite({...}).save()` under the next object id. */
  function Append(db: Db, f: Favorite): Db {
    db.(favorites := db.favorites + [f.(id := db.nextId)], nextId := db.nextId + 1)
  }

  lemma IngestCount(db: Db, f: Favorite, now: int, u': UserId, n': string)
    ensures Count(Ingest(db, f, now).tags, u', n') ==
              Count(db.tags, u', n') + (if u' == f.userId then Occ(f.tags, n') else 0)
  {
    CountIncAll(Append(db, f), f.userId, f.tags, [], now, u', n');
  }

  /** Ingesting a favorite with a duplicate-free tag list keeps the ledger
      invariant. */
  lemma IngestConsistent(db: Db, f: Favorite, now: int)
    requires Consistent(db)
    requires NoDup(f.tags)
    ensures Consistent(Ingest(db, f, now))
  {
    var r := Ingest(db, f, now);
    forall u, n
      ensures Count(r.tags, u, n) == Holders(r.favorites, u, n)
    {
      IngestCount(db, f, now, u, n);
      HoldersAppend(db.favorites, f.(id := db.nextId), u, n);
      OccNoDup(f.tags, n);
      assert Count(db.tags, u, n) == Holders(db.favorites, u, n);
    }
  }

  /** A tag list naming the same tag twice (as "#a #a" yields) counts that
      favorite twice, which breaks the invariant. */
  lemma IngestRepeatedTagBreaks(db: Db, f: Favorite, now: int, n: string)
    requires Consistent(db)
    requires Occ(f.tags, n) >= 2
    ensures !Consistent(Ingest(db, f, now))
  {
    var r := Ingest(db, f, now);
    IngestCount(db, f, now, f.userId, n);
    HoldersAppend(db.favorites, f.(id := db.nextId), f.userId, n);
    assert Count(r.tags, f.userId, n) != Holders(r.favorites, f.userId, n);
  }

  // --------------------------------------------------------- tag service

  /** `createTag` for a name the owner does not have yet. */
  function AddTag(db: Db, u: UserId, n: string, color: Option<string>, now: int): (r: Db)
    requires TagKey(u, n) !in db.tags
    ensures r.favorites == db.favorites
    ensures TagKey(u, n) in r.tags && r.tags == db.tags[TagKey(u, n) := r.tags[TagKey(u, n)]]
    ensures r.tags[TagKey(u, n)].count == 0 && r.tags[TagKey(u, n)].color == color
  {
    db.(tags := db.tags[TagKey(u, n) := NewTag(db.nextId, u, n, color, now)], nextId := db.nextId + 1)
  }

  /** A new row starts at zero, which is what the favorites already say
      about a name nobody holds. */
  lemma AddTagConsistent(db: Db, u: UserId, n: string, color: Option<string>, now: int)
    requires TagKey(u, n) !in db.tags
    requires Consistent(db)
    ensures Consistent(AddTag(db, u, n, color, now))
  {
    var r := AddTag(db, u, n, color, now);
    forall u', n'
      ensures Count(r.tags, u', n') == Holders(r.favorites, u', n')
    {
      assert Count(db.tags, u', n') == Holders(db.favorites, u', n');
    }
  }

  /** `$pull` of `n` from the tag lists of `u`'s favorites that hold it. */
  function RemoveAll(xs: seq<string>, n: string): (r: seq<string>)
    ensures forall y :: y in r <==> y in xs && y != n
    decreases |xs|
  {
    if |xs| == 0 then []
    else RemoveAll(xs[..|xs| - 1], n) + (if xs[|xs| - 1] == n then [] else [xs[|xs| - 1]])
  }

  function Pull(f: Favorite, u: UserId, n: string): Favorite {
    if f.userId == u && n in f.tags then f.(tags := RemoveAll(f.tags, n)) else f
  }

  function PullAll(favs: seq<Favorite>, u: UserId, n: string): (r: seq<Favorite>)
    ensures |r| == |favs|
    ensures forall i :: 0 <= i < |favs| ==> r[i] == Pull(favs[i], u, n)
    decreases |favs|
  {
    if |favs| == 0 then [] else PullAll(favs[..|favs| - 1], u, n) + [Pull(favs[|favs| - 1], u, n)]
  }

  /** After the pull nobody of `u` holds `n`; every other holder count is
      untouched. */
  lemma {:induction false} HoldersPullAll(favs: seq<Favorite>, u: UserId, n: string, u': UserId, n': string)
    ensures Holders(PullAll(favs, u, n), u', n') == if u' == u && n' == n then 0 else Holders(favs, u', n')
    decreases |favs|
  {
    if |favs| > 0 {
      var init := favs[..|favs| - 1];
      HoldersPullAll(init, u, n, u', n');
      HoldersAppend(PullAll(init, u, n), Pull(favs[|favs| - 1], u, n), u', n');
    }
  }

  /** `deleteTag`: the name is pulled from the owner's favorites, then the
      row is deleted whatever its count. */
  function DropTag(db: Db, k: TagKey): (r: Db)
    requires k in db.tags
    ensures r.tags == db.tags - {k}
    ensures r.favorites == PullAll(db.favorites, k.owner, k.name)
  {
    db.(tags := db.tags - {k}, favorites := PullAll(db.favorites, k.owner, k.name))
  }

  lemma DropTagConsistent(db: Db, k: TagKey)
    requires k in db.tags
    requires Consistent(db)
    ensures Consistent(DropTag(db, k))
  {
    var r := DropTag(db, k);
    forall u, n
      ensures Count(r.tags, u, n) == Holders(r.favorites, u, n)
    {
      HoldersPullAll(db.favorites, k.owner, k.name, u, n);
      assert Count(db.tags, u, n) == Holders(db.favorites, u, n);
      if TagKey(u, n) == k {
        assert Count(r.tags, u, n) == 0;
      } else {
        assert Count(r.tags, u, n) == Count(db.tags, u, n);
      }
    }
  }

  /** `tag.save()` after `updateTag` changed its fields: the row moves to
      its (possibly new) name. */
  function SaveTag(db: Db, k: TagKey, t: Tag): (r: Db)
    requires k in db.tags
    ensures r.favorites == db.favorites
    ensures TagKey(t.userId, t.name) in r.tags && r.tags[TagKey(t.userId, t.name)] == t
    ensures forall k' :: k' != k && k' != TagKey(t.userId, t.name) ==>
              (k' in r.tags <==> k' in db.tags) && (k' in r.tags ==> r.tags[k'] == db.tags[k'])
  {
    db.(tags := (db.tags - {k})[TagKey(t.userId, t.name) := t])
  }

  /** Renaming a tag that favorites carry leaves them carrying the old
      name, and the ledger no longer adds up. */
  lemma RenameBreaksConsistency(db: Db, k: TagKey, newName: string)
    requires k in db.tags && WellKeyed(db.tags)
    requires Consistent(db)
    requires db.tags[k].count > 0 && newName != k.name
    ensures !Consistent(SaveTag(db, k, db.tags[k].(name := newName)))
  {
    var r := SaveTag(db, k, db.tags[k].(name := newName));
    assert TagKey(k.owner, k.name) == k;
    assert Count(db.tags, k.owner, k.name) == Holders(db.favorites, k.owner, k.name);
    assert Count(r.tags, k.owner, k.name) == 0;
  }

  /** Changing only the color keeps the ledger invariant. */
  lemma RecolorConsistent(db: Db, k: TagKey, color: Option<string>)
    requires k in db.tags && WellKeyed(db.tags)
    requires Consistent(db)
    ensures Consistent(SaveTag(db, k, db.tags[k].(color := color)))
  {
    var r := SaveTag(db, k, db.tags[k].(color := color));
    forall u, n
      ensures Count(r.tags, u, n) == Holders(r.favorites, u, n)
    {
      assert Count(db.tags, u, n) == Holders(db.favorites, u, n);
    }
  }

  // ------------------------------------------------ validity preservation

  lemma ValidInc(db: Db, u: UserId, n: string, now: int)
    requires Valid(db)
    ensures Valid(Inc(db, u, n, now))
  {
    var k := TagKey(u, n);
    var r := Inc(db, u, n, now);
    if k in db.tags {
      assert r.tags == db.tags[k := db.tags[k].(count := db.tags[k].count + 1)];
      assert forall k' :: k' in r.tags ==> r.tags[k'].id == db.tags[k'].id;
    } else {
      assert r.tags == db.tags[k := Tag(db.nextId, u, n, None, 1, now)];
      assert r.nextId == db.nextId + 1;
      assert forall k' :: k' in db.tags ==> r.tags[k'] == db.tags[k'];
    }
  }

  lemma ValidDecGc(db: Db, u: UserId, n: string)
    requires Valid(db)
    ensures Valid(DecGc(db, u, n))
  {
  }

  lemma {:induction false} ValidDecGcAll(db: Db, u: UserId, xs: seq<string>, keep: seq<string>)
    requires Valid(db)
    ensures Valid(DecGcAll(db, u, xs, keep))
    decreases |xs|
  {
    if |xs| > 0 {
      ValidDecGcAll(db, u, xs[..|xs| - 1], keep);
      ValidDecGc(DecGcAll(db, u, xs[..|xs| - 1], keep), u, xs[|xs| - 1]);
    }
  }

  lemma {:induction false} ValidIncAll(db: Db, u: UserId, xs: seq<string>, skip: seq<string>, now: int)
    requires Valid(db)
    ensures Valid(IncAll(db, u, xs, skip, now))
    decreases |xs|
  {
    if |xs| > 0 {
      ValidIncAll(db, u, xs[..|xs| - 1], skip, now);
      ValidInc(IncAll(db, u, xs[..|xs| - 1], skip, now), u, xs[|xs| - 1], now);
    }
  }

  /** Replacing a favorite by one with the same id keeps the ids sound. */
  lemma ValidReplaceFavorite(db: Db, i: nat, f: Favorite)
    requires Valid(db) && i < |db.favorites| && f.id == db.favorites[i].id
    ensures Valid(db.(favorites := db.favorites[i := f]))
  {
    var favs := db.favorites[i := f];
    forall p, q | 0 <= p < q < |favs|
      ensures favs[p].id != favs[q].id
    {
      assert favs[p].id == db.favorites[p].id && favs[q].id == db.favorites[q].id;
    }
  }

  lemma ValidRetag(db: Db, i: nat, tags: seq<string>, now: int)
    requires Valid(db) && i < |db.favorites|
    ensures Valid(Retag(db, i, tags, now))
  {
    var f := db.favorites[i];
    var saved := db.(favorites := db.favorites[i := f.(tags := tags)]);
    ValidReplaceFavorite(db, i, f.(tags := tags));
    ValidDecGcAll(saved, f.userId, f.tags, tags);
    ValidIncAll(DecGcAll(saved, f.userId, f.tags, tags), f.userId, tags, f.tags, now);
  }

  lemma ValidRemoveFavorite(db: Db, i: nat)
    requires Valid(db) && i < |db.favorites|
    ensures Valid(RemoveFavorite(db, i))
  {
    var f := db.favorites[i];
    ValidDecGcAll(db, f.userId, f.tags, []);
    var d := DecGcAll(db, f.userId, f.tags, []);
    var favs := d.favorites[..i] + d.favorites[i + 1..];
    forall p | 0 <= p < |favs|
      ensures favs[p] == db.favorites[if p < i then p else p + 1]
    {
    }
  }

  lemma ValidIngest(db: Db, f: Favorite, now: int)
    requires Valid(db)
    ensures Valid(Ingest(db, f, now))
  {
    assert Valid(Append(db, f));
    ValidIncAll(Append(db, f), f.userId, f.tags, [], now);
  }

  lemma ValidAddTag(db: Db, u: UserId, n: string, color: Option<string>, now: int)
    requires Valid(db) && TagKey(u, n) !in db.tags
    ensures Valid(AddTag(db, u, n, color, now))
  {
  }

  lemma ValidDropTag(db: Db, k: TagKey)
    requires Valid(db) && k in db.tags
    ensures Valid(DropTag(db, k))
  {
    var favs := PullAll(db.favorites, k.owner, k.name);
    assert forall p :: 0 <= p < |favs| ==> favs[p].id == db.favorites[p].id;
  }

  /** Saving a changed row keeps the keys and ids sound when it keeps its
      id and its new name is not taken by another row. */
  lemma ValidSaveTag(db: Db, k: TagKey, t: Tag)
    requires Valid(db) && k in db.tags
    requires t.id == db.tags[k].id && t.userId == k.owner
    requires TagKey(t.userId, t.name) == k || TagKey(t.userId, t.name) !in db.tags
    ensures Valid(SaveTag(db, k, t))
  {
  }
}
