/** The tag service: listing, creating, editing and deleting a user's
    tags against the store. */
module TagService {
  import opened Wrappers
  import opened Models
  import opened Ledger
  import opened MongoStore

  const TagNotFound := "标签不存在或无权访问"
  const TagNameTaken := "标签名称已存在"

  /** The message Mongoose's `required` validator throws. */
  function RequiredMessage(model: string, path: string): string {
    model + " validation failed: " + path + ": Path `" + path + "` is required."
  }

  predicate SortedByCountDesc(r: seq<Tag>) {
    forall i, j :: 0 <= i < j < |r| ==> r[i].count >= r[j].count
  }

  /** The rows of `u` among the keys `ks`. */
  function OwnerRows(tags: map<TagKey, Tag>, ks: set<TagKey>, u: UserId): set<Tag> {
    set k | k in ks && k in tags && k.owner == u :: tags[k]
  }

  /** Places `x` before the first row with a smaller count. */
  function InsertByCount(r: seq<Tag>, x: Tag): seq<Tag>
    decreases |r|
  {
    if |r| == 0 || r[0].count < x.count then [x] + r
    else [r[0]] + InsertByCount(r[1..], x)
  }

  /** Insertion adds exactly `x`. */
  lemma {:induction false} InsertByCountElements(r: seq<Tag>, x: Tag)
    ensures multiset(InsertByCount(r, x)) == multiset(r) + multiset{x}
    decreases |r|
  {
    if |r| > 0 && r[0].count >= x.count {
      InsertByCountElements(r[1..], x);
      assert r == [r[0]] + r[1..];
    }
  }

  lemma {:induction false} InsertByCountMembers(r: seq<Tag>, x: Tag)
    ensures forall t :: t in InsertByCount(r, x) <==> t in r || t == x
    decreases |r|
  {
    if |r| > 0 && r[0].count >= x.count {
      InsertByCountMembers(r[1..], x);
      assert r == [r[0]] + r[1..];
    }
  }

  lemma SortedCons(a: Tag, s: seq<Tag>)
    requires SortedByCountDesc(s)
    requires forall t :: t in s ==> t.count <= a.count
    ensures SortedByCountDesc([a] + s)
  {
    var q := [a] + s;
    forall i, j | 0 <= i < j < |q| ensures q[i].count >= q[j].count {
      if i == 0 {
        assert q[j] == s[j - 1];
      } else {
        assert q[i] == s[i - 1] && q[j] == s[j - 1];
      }
    }
  }

  /** Insertion keeps the order. */
  lemma {:induction false} InsertByCountSorted(r: seq<Tag>, x: Tag)
    requires SortedByCountDesc(r)
    ensures SortedByCountDesc(InsertByCount(r, x))
    decreases |r|
  {
    if |r| > 0 && r[0].count >= x.count {
      var tail := InsertByCount(r[1..], x);
      InsertByCountSorted(r[1..], x);
      InsertByCountMembers(r[1..], x);
      assert forall j :: 0 <= j < |r[1..]| ==> r[1..][j].count <= r[0].count;
      assert forall t :: t in r[1..] ==> t.count <= r[0].count;
      SortedCons(r[0], tail);
    }
  }

  /** Taking one more key adds its row when it belongs to `u`, and that
      row is new because rows sit under their own key. */
  lemma OwnerRowsStep(tags: map<TagKey, Tag>, done: set<TagKey>, k: TagKey, u: UserId)
    requires WellKeyed(tags) && k in tags && k !in done
    ensures k.owner == u ==> multiset(OwnerRows(tags, done + {k}, u)) == multiset(OwnerRows(tags, done, u)) + multiset{tags[k]}
    ensures k.owner != u ==> OwnerRows(tags, done + {k}, u) == OwnerRows(tags, done, u)
  {
    if k.owner == u {
      assert tags[k] !in OwnerRows(tags, done, u);
      assert OwnerRows(tags, done + {k}, u) == OwnerRows(tags, done, u) + {tags[k]};
    }
  }

  /** One step of the listing loop keeps its invariant. */
  lemma ListStep(tags: map<TagKey, Tag>, done: set<TagKey>, k: TagKey, u: UserId, r: seq<Tag>)
    requires WellKeyed(tags) && k in tags && k !in done
    requires SortedByCountDesc(r) && multiset(r) == multiset(OwnerRows(tags, done, u))
    ensures var r' := if k.owner == u then InsertByCount(r, tags[k]) else r;
            SortedByCountDesc(r') && multiset(r') == multiset(OwnerRows(tags, done + {k}, u))
  {
    OwnerRowsStep(tags, done, k, u);
    if k.owner == u {
      InsertByCountElements(r, tags[k]);
      InsertByCountSorted(r, tags[k]);
    }
  }

  /** The rows of `u` over all keys are the stored rows with that owner. */
  lemma OwnerRowsAll(tags: map<TagKey, Tag>, u: UserId, r: seq<Tag>)
    requires WellKeyed(tags)
    requires multiset(r) == multiset(OwnerRows(tags, tags.Keys, u))
    ensures forall t :: t in r <==> t in tags.Values && t.userId == u
  {
    forall t ensures t in r <==> t in tags.Values && t.userId == u {
      assert t in r <==> t in multiset(r);
      if t in tags.Values && t.userId == u {
        var k :| k in tags && tags[k] == t;
      }
    }
  }

  /** `Tag.find({userId}).sort({count: -1})`: every row of the user exactly
      once, largest count first. */
  method GetTags(store: Store, u: UserId) returns (r: seq<Tag>)
    requires store.Valid()
    ensures multiset(r) == multiset(OwnerRows(store.tags, store.tags.Keys, u))
    ensures forall t :: t in r <==> t in store.tags.Values && t.userId == u
    ensures SortedByCountDesc(r)
  {
    var tags := store.tags;
    assert WellKeyed(tags);
    var rest := tags.Keys;
    ghost var done: set<TagKey> := {};
    r := [];
    while rest != {}
      invariant rest <= tags.Keys && done == tags.Keys - rest
      invariant SortedByCountDesc(r)
      invariant multiset(r) == multiset(OwnerRows(tags, done, u))
      decreases rest
    {
      var k :| k in rest;
      ListStep(tags, done, k, u, r);
      if k.owner == u {
        r := InsertByCount(r, tags[k]);
      }
      rest := rest - {k};
      done := done + {k};
    }
    assert done == tags.Keys;
    OwnerRowsAll(tags, u, r);
  }

  /** `createTag`: an existing `(userId, name)` row is returned unchanged;
      otherwise a row with count 0 and the supplied color is saved, unless
      the name is empty, which the schema rejects. */
  method CreateTag(store: Store, u: UserId, name: string, color: Option<string>, now: int)
    returns (r: Result<Tag, string>)
    requires store.Valid()
    modifies store
    ensures store.Valid()
    ensures TagKey(u, name) in old(store.tags) ==>
              r == Ok(old(store.tags)[TagKey(u, name)]) && store.State() == old(store.State())
    ensures TagKey(u, name) !in old(store.tags) && (u == "" || name == "") ==>
              r.Err? && store.State() == old(store.State())
    ensures TagKey(u, name) !in old(store.tags) && u != "" && name != "" ==>
              store.State() == AddTag(old(store.State()), u, name, color, now)
              && r == Ok(store.tags[TagKey(u, name)])
              && r.value.count == 0 && r.value.color == color
    ensures old(Consistent(store.State())) ==> Consistent(store.State())
  {
    var k := TagKey(u, name);
    if k in store.tags {
      return Ok(store.tags[k]);
    }
    if u == "" {
      return Err(RequiredMessage("Tag", "userId"));
    }
    if name == "" {
      return Err(RequiredMessage("Tag", "name"));
    }
    ghost var before := store.State();
    var t := store.InsertTag(u, name, color, now);
    ValidAddTag(before, u, name, color, now);
    if Consistent(before) {
      AddTagConsistent(before, u, name, color, now);
    }
    r := Ok(t);
  }

  /** The tag a successful `updateTag` saves: the defined fields replace
      the old ones, nothing else changes. */
  function Edited(t: Tag, name: Option<string>, color: Option<string>): (e: Tag)
    ensures e.id == t.id && e.userId == t.userId && e.count == t.count && e.createdAt == t.createdAt
    ensures e.name == (if name.Some? then name.value else t.name)
    ensures e.color == (if color.Some? then color else t.color)
  {
    var t1 := if name.Some? then t.(name := name.value) else t;
    if color.Some? then t1.(color := color) else t1
  }

  /** `updateTag`: an id not owned by `u` is refused, a rename onto another
      of the owner's names is refused (no check when the name is missing
      or unchanged), otherwise only the defined fields change. */
  method UpdateTag(store: Store, tagId: DocId, u: UserId, name: Option<string>, color: Option<string>)
    returns (r: Result<Tag, string>)
    requires store.Valid()
    modifies store
    ensures store.Valid()
    ensures store.favorites == old(store.favorites)
    ensures FindTag(old(store.tags), tagId, u).None? ==>
              r == Err(TagNotFound) && store.State() == old(store.State())
    ensures FindTag(old(store.tags), tagId, u).Some? ==>
              var k := FindTag(old(store.tags), tagId, u).value;
              var t := old(store.tags)[k];
              if name.Some? && name.value != t.name && TagKey(u, name.value) in old(store.tags) then
                r == Err(TagNameTaken) && store.State() == old(store.State())
              else if Edited(t, name, color).name == "" then
                r.Err? && store.State() == old(store.State())
              else
                r == Ok(Edited(t, name, color))
                && store.State() == SaveTag(old(store.State()), k, Edited(t, name, color))
    ensures name.None? && old(Consistent(store.State())) ==> Consistent(store.State())
  {
    ghost var before := store.State();
    var found := exists k :: k in store.tags && store.tags[k].id == tagId && store.tags[k].userId == u;
    if !found {
      return Err(TagNotFound);
    }
    var k :| k in store.tags && store.tags[k].id == tagId && store.tags[k].userId == u;
    FindTagUnique(before, tagId, u, k);
    var tag := store.tags[k];
    if name.Some? && name.value != tag.name && TagKey(u, name.value) in store.tags {
      return Err(TagNameTaken);
    }
    var edited := Edited(tag, name, color);
    if edited.name == "" {
      return Err(RequiredMessage("Tag", "name"));
    }
    store.SaveTagRow(k, edited);
    ValidSaveTag(before, k, edited);
    if name.None? && Consistent(before) {
      assert edited == tag.(color := if color.Some? then color else tag.color);
      RecolorConsistent(before, k, if color.Some? then color else tag.color);
    }
    r := Ok(edited);
  }

  /** `deleteTag`: the name leaves the owner's favorites, then the row goes
      whatever its count. */
  method DeleteTag(store: Store, tagId: DocId, u: UserId) returns (r: Result<(), string>)
    requires store.Valid()
    modifies store
    ensures store.Valid()
    ensures FindTag(old(store.tags), tagId, u).None? ==>
              r == Err(TagNotFound) && store.State() == old(store.State())
    ensures FindTag(old(store.tags), tagId, u).Some? ==>
              r == Ok(()) && store.State() == DropTag(old(store.State()), FindTag(old(store.tags), tagId, u).value)
    ensures old(Consistent(store.State())) ==> Consistent(store.State())
  {
    ghost var before := store.State();
    var found := exists k :: k in store.tags && store.tags[k].id == tagId && store.tags[k].userId == u;
    if !found {
      return Err(TagNotFound);
    }
    var k :| k in store.tags && store.tags[k].id == tagId && store.tags[k].userId == u;
    FindTagUnique(before, tagId, u, k);
    store.PullTag(u, store.tags[k].name);
    store.DeleteTagRow(k);
    assert store.State() == DropTag(before, k);
    ValidDropTag(before, k);
    if Consistent(before) {
      DropTagConsistent(before, k);
    }
    r := Ok(());
  }
}
