/** The favorite service: the tag-list diff of `updateFavoriteTags`, the
    clean-up of `deleteFavorite`, lookup by id, and the filtering, sorting
    and pagination of `getFavorites`. */
module FavoriteService {
  import opened Wrappers
  import opened Text
  import opened Models
  import opened Ledger
  import opened MongoStore

  const FavoriteNotFound := "收藏不存在或无权访问"

  /** `Favorite.deleteOne({_id: id})`: the first document with that id. */
  function FindFavoriteById(favs: seq<Favorite>, id: DocId): (r: Option<nat>)
    ensures r.Some? ==> r.value < |favs| && favs[r.value].id == id
    ensures r.Some? ==> forall j :: 0 <= j < r.value ==> favs[j].id != id
    ensures r.None? ==> forall j :: 0 <= j < |favs| ==> favs[j].id != id
    decreases |favs|
  {
    if |favs| == 0 then None
    else if favs[0].id == id then Some(0)
    else match FindFavoriteById(favs[1..], id)
      case None => None
      case Some(j) => Some(j + 1)
  }

  /** `getFavoriteById`: the favorite with that id if `u` owns it. */
  function GetFavoriteById(favs: seq<Favorite>, id: DocId, u: UserId): (r: Result<Favorite, string>)
    ensures r.Ok? ==> r.value in favs && r.value.id == id && r.value.userId == u
    ensures r.Err? <==> forall j :: 0 <= j < |favs| ==> !(favs[j].id == id && favs[j].userId == u)
    ensures r.Err? ==> r.error == FavoriteNotFound
  {
    match FindFavorite(favs, id, u)
    case None => Err(FavoriteNotFound)
    case Some(i) => Ok(favs[i])
  }

  /** `updateFavoriteTags`: the favorite gets exactly the supplied list,
      old names missing from it are decremented and cleaned up, new names
      missing from the old list are upsert-incremented. */
  method UpdateFavoriteTags(store: Store, favoriteId: DocId, u: UserId, tags: seq<string>, now: int)
    returns (r: Result<Favorite, string>)
    requires store.Valid()
    modifies store
    ensures store.Valid()
    ensures FindFavorite(old(store.favorites), favoriteId, u).None? ==>
              r == Err(FavoriteNotFound) && store.State() == old(store.State())
    ensures FindFavorite(old(store.favorites), favoriteId, u).Some? ==>
              var i := FindFavorite(old(store.favorites), favoriteId, u).value;
              r == Ok(old(store.favorites)[i].(tags := tags))
              && store.State() == Retag(old(store.State()), i, tags, now)
    ensures FindFavorite(old(store.favorites), favoriteId, u).Some?
            && NoDup(old(store.favorites)[FindFavorite(old(store.favorites), favoriteId, u).value].tags)
            && NoDup(tags) && old(Consistent(store.State()))
            ==> Consistent(store.State())
  {
    var found := FindFavorite(store.favorites, favoriteId, u);
    if found.None? {
      return Err(FavoriteNotFound);
    }
    var i := found.value;
    ghost var before := store.State();
    var favorite := store.favorites[i];
    var oldTags := favorite.tags;
    store.SaveFavorite(i, favorite.(tags := tags));
    store.DecrementTags(u, oldTags, tags);
    store.IncrementTags(u, tags, oldTags, now);
    ValidRetag(before, i, tags, now);
    if NoDup(oldTags) && NoDup(tags) && Consistent(before) {
      RetagConsistent(before, i, tags, now);
    }
    r := Ok(favorite.(tags := tags));
  }

  /** `deleteFavorite`: each name the favorite holds is decremented and
      cleaned up, then only that favorite is removed. */
  method DeleteFavorite(store: Store, favoriteId: DocId, u: UserId) returns (r: Result<(), string>)
    requires store.Valid()
    modifies store
    ensures store.Valid()
    ensures FindFavorite(old(store.favorites), favoriteId, u).None? ==>
              r == Err(FavoriteNotFound) && store.State() == old(store.State())
    ensures FindFavorite(old(store.favorites), favoriteId, u).Some? ==>
              r == Ok(()) && store.State() == RemoveFavorite(old(store.State()), FindFavorite(old(store.favorites), favoriteId, u).value)
    ensures FindFavorite(old(store.favorites), favoriteId, u).Some?
            && NoDup(old(store.favorites)[FindFavorite(old(store.favorites), favoriteId, u).value].tags)
            && old(Consistent(store.State()))
            ==> Consistent(store.State())
  {
    var found := FindFavorite(store.favorites, favoriteId, u);
    if found.None? {
      return Err(FavoriteNotFound);
    }
    var i := found.value;
    ghost var before := store.State();
    var tags := store.favorites[i].tags;
    store.DecrementTags(u, tags, []);
    var target := FindFavoriteById(store.favorites, favoriteId);
    assert target == Some(i);
    store.DeleteFavoriteAt(i);
    ValidRemoveFavorite(before, i);
    if NoDup(tags) && Consistent(before) {
      RemoveFavoriteConsistent(before, i);
    }
    r := Ok(());
  }

  // ------------------------------------------------------- getFavorites

  /** `options.tags`: a single name or a list of names. */
  datatype TagsParam = OneTag(name: string) | TagList(names: seq<string>)

  /** The destructured options; a missing key is `None`. */
  datatype ListOptions = ListOptions(
    page: Option<int>, limit: Option<int>, kind: Option<string>, tags: Option<TagsParam>,
    category: Option<string>, search: Option<string>, sortBy: Option<string>, sortOrder: Option<string>)

  const NoOptions := ListOptions(None, None, None, None, None, None, None, None)

  /** The query object: each condition is present or absent. */
  datatype Query = Query(userId: UserId, kind: Option<string>, allTags: Option<seq<string>>,
                         category: Option<string>, search: Option<string>)

  function TruthyOption(s: Option<string>): Option<string> {
    if s.Some? && s.value != "" then s else None
  }

  /** `tags && tags.length > 0` then `$all` of the list, a single name wrapped. */
  function TagCondition(t: Option<TagsParam>): Option<seq<string>> {
    match t
    case None => None
    case Some(OneTag(s)) => if |s| > 0 then Some([s]) else None
    case Some(TagList(a)) => if |a| > 0 then Some(a) else None
  }

  /** Builds the query as `getFavorites` does, condition by condition. */
  function BuildQuery(u: UserId, o: ListOptions): Query {
    Query(u, TruthyOption(o.kind), TagCondition(o.tags), TruthyOption(o.category), TruthyOption(o.search))
  }

  /** Whether a stored favorite satisfies a query; the full-text engine is
      the parameter `textMatch`. */
  predicate Matches(q: Query, f: Favorite, textMatch: (string, Favorite) -> bool) {
    f.userId == q.userId
    && (q.kind.Some? ==> TypeName(f.kind) == q.kind.value)
    && (q.allTags.Some? ==> forall t :: t in q.allTags.value ==> t in f.tags)
    && (q.category.Some? ==> f.category == q.category)
    && (q.search.Some? ==> textMatch(q.search.value, f))
  }

  /** Which favorites the built query keeps: the owner's, of the given type
      and category when those are non-empty, carrying every requested tag,
      and matching the search text when there is one. */
  lemma BuildQueryMatches(u: UserId, o: ListOptions, f: Favorite, textMatch: (string, Favorite) -> bool)
    ensures Matches(BuildQuery(u, o), f, textMatch) <==>
              f.userId == u
              && (o.kind.Some? && o.kind.value != "" ==> TypeName(f.kind) == o.kind.value)
              && (o.category.Some? && o.category.value != "" ==> f.category == o.category)
              && (o.tags.Some? && o.tags.value.OneTag? && o.tags.value.name != "" ==> o.tags.value.name in f.tags)
              && (o.tags.Some? && o.tags.value.TagList? ==> forall t :: t in o.tags.value.names ==> t in f.tags)
              && (o.search.Some? && o.search.value != "" ==> textMatch(o.search.value, f))
  {
  }

  /** The favorites a query selects, in store order. */
  function Select(favs: seq<Favorite>, q: Query, textMatch: (string, Favorite) -> bool): (r: seq<Favorite>)
    ensures forall f :: f in r <==> f in favs && Matches(q, f, textMatch)
    ensures |r| <= |favs|
    decreases |favs|
  {
    if |favs| == 0 then []
    else
      var init := Select(favs[..|favs| - 1], q, textMatch);
      var last := favs[|favs| - 1];
      assert favs == favs[..|favs| - 1] + [last];
      if Matches(q, last, textMatch) then init + [last] else init
  }

  /** `sortOrder === 'asc' ? 1 : -1`. */
  function Ascending(o: ListOptions): bool {
    o.sortOrder == Some("asc")
  }

  /** A favorite's `savedAt`, the default sort key. */
  function SavedAt(f: Favorite): int { f.savedAt }

  /** The key `.sort({[sortBy]: ±1})` orders by: `savedAt` itself, and any
      other field through `rank`, the position Mongo's ordering gives
      that field's value (a missing field ranks lowest). */
  function SortKey(sortBy: string, rank: (string, Favorite) -> int): (key: Favorite -> int)
    ensures sortBy == "savedAt" ==> key == SavedAt
    ensures sortBy != "savedAt" ==> forall f :: key(f) == rank(sortBy, f)
  {
    if sortBy == "savedAt" then SavedAt else f => rank(sortBy, f)
  }

  /** Whether `a` may stand before `b`. */
  predicate InOrder(a: Favorite, b: Favorite, key: Favorite -> int, asc: bool) {
    if asc then key(a) <= key(b) else key(a) >= key(b)
  }

  predicate SortedBy(s: seq<Favorite>, key: Favorite -> int, asc: bool) {
    forall i, j :: 0 <= i < j < |s| ==> InOrder(s[i], s[j], key, asc)
  }

  function InsertBy(s: seq<Favorite>, x: Favorite, key: Favorite -> int, asc: bool): seq<Favorite>
    decreases |s|
  {
    if |s| == 0 || !InOrder(s[0], x, key, asc) then [x] + s
    else [s[0]] + InsertBy(s[1..], x, key, asc)
  }

  lemma {:induction false} InsertByElements(s: seq<Favorite>, x: Favorite, key: Favorite -> int, asc: bool)
    ensures multiset(InsertBy(s, x, key, asc)) == multiset(s) + multiset{x}
    decreases |s|
  {
    if |s| > 0 && InOrder(s[0], x, key, asc) {
      InsertByElements(s[1..], x, key, asc);
      assert s == [s[0]] + s[1..];
    }
  }

  lemma {:induction false} InsertByMembers(s: seq<Favorite>, x: Favorite, key: Favorite -> int, asc: bool)
    ensures forall t :: t in InsertBy(s, x, key, asc) <==> t in s || t == x
    decreases |s|
  {
    if |s| > 0 && InOrder(s[0], x, key, asc) {
      InsertByMembers(s[1..], x, key, asc);
      assert s == [s[0]] + s[1..];
    }
  }

  lemma SortedCons(a: Favorite, s: seq<Favorite>, key: Favorite -> int, asc: bool)
    requires SortedBy(s, key, asc)
    requires forall t :: t in s ==> InOrder(a, t, key, asc)
    ensures SortedBy([a] + s, key, asc)
  {
    var q := [a] + s;
    forall i, j | 0 <= i < j < |q| ensures InOrder(q[i], q[j], key, asc) {
      if i == 0 {
        assert q[j] == s[j - 1];
      } else {
        assert q[i] == s[i - 1] && q[j] == s[j - 1];
      }
    }
  }

  lemma {:induction false} InsertBySorted(s: seq<Favorite>, x: Favorite, key: Favorite -> int, asc: bool)
    requires SortedBy(s, key, asc)
    ensures SortedBy(InsertBy(s, x, key, asc), key, asc)
    decreases |s|
  {
    if |s| == 0 || !InOrder(s[0], x, key, asc) {
      forall t | t in s ensures InOrder(x, t, key, asc) {
        assert InOrder(s[0], t, key, asc) by {
          var j :| 0 <= j < |s| && s[j] == t;
          assert j == 0 || InOrder(s[0], s[j], key, asc);
        }
      }
      SortedCons(x, s, key, asc);
    } else {
      var tail := InsertBy(s[1..], x, key, asc);
      InsertBySorted(s[1..], x, key, asc);
      InsertByMembers(s[1..], x, key, asc);
      assert forall j :: 0 <= j < |s[1..]| ==> InOrder(s[0], s[1..][j], key, asc);
      SortedCons(s[0], tail, key, asc);
    }
  }

  /** `.sort({[sortBy]: ±1})` as an insertion sort on the key. */
  function SortBy(s: seq<Favorite>, key: Favorite -> int, asc: bool): seq<Favorite>
    decreases |s|
  {
    if |s| == 0 then [] else InsertBy(SortBy(s[..|s| - 1], key, asc), s[|s| - 1], key, asc)
  }

  /** The sort returns the same favorites, ordered by the key. */
  lemma {:induction false} SortBySpec(s: seq<Favorite>, key: Favorite -> int, asc: bool)
    ensures multiset(SortBy(s, key, asc)) == multiset(s)
    ensures SortedBy(SortBy(s, key, asc), key, asc)
    decreases |s|
  {
    if |s| > 0 {
      var init := s[..|s| - 1];
      SortBySpec(init, key, asc);
      InsertByElements(SortBy(init, key, asc), s[|s| - 1], key, asc);
      InsertBySorted(SortBy(init, key, asc), s[|s| - 1], key, asc);
      assert s == init + [s[|s| - 1]];
    }
  }

  function IntToString(n: int): string {
    if n < 0 then "-" + NatToString(-n) else NatToString(n)
  }

  /** `.skip(skip).limit(limit)`: a zero limit means no limit, a negative
      one is taken by absolute value; a negative skip is refused. */
  function Window(s: seq<Favorite>, skip: int, limit: int): (r: Result<seq<Favorite>, string>)
    ensures r.Err? <==> skip < 0
    ensures r.Ok? ==> skip + |r.value| <= |s| || r.value == []
    ensures r.Ok? && r.value != [] ==> r.value == s[skip..skip + |r.value|]
    ensures r.Ok? && limit != 0 ==> |r.value| <= (if limit < 0 then -limit else limit)
    ensures r.Ok? && skip < |s| && limit != 0 ==>
              |r.value| == Min(|s| - skip, if limit < 0 then -limit else limit)
    ensures r.Ok? && skip < |s| && limit == 0 ==> r.value == s[skip..]
  {
    if skip < 0 then Err("Skip value must be non-negative, but received: " + IntToString(skip))
    else
      var rest := if skip >= |s| then [] else s[skip..];
      var n := if limit == 0 then |rest| else if limit < 0 then -limit else limit;
      Ok(rest[..Min(n, |rest|)])
  }

  function Min(a: int, b: int): int { if a <= b then a else b }

  /** `Math.ceil(total / limit)`; `None` stands for the non-finite value a
      zero limit gives. */
  function TotalPages(total: nat, limit: int): (r: Option<int>)
    ensures limit > 0 ==> r.Some? && r.value >= 0
                          && (r.value - 1) * limit < total <= r.value * limit
    ensures limit == 0 <==> r.None?
  {
    if limit == 0 then None
    else if limit > 0 then Some((total + limit - 1) / limit)
    else Some(-(total / -limit))
  }

  /** What `getFavorites` returns. */
  datatype FavoritePage = FavoritePage(favorites: seq<Favorite>, total: nat, page: int, limit: int,
                                       totalPages: Option<int>)

  /** `getFavorites`: the owner's favorites matching the options, sorted
      on `sortBy`, then the requested page; a page whose skip is negative
      is refused by the driver.  `rank` orders the fields other than
      `savedAt`. */
  function GetFavorites(favs: seq<Favorite>, u: UserId, o: ListOptions,
                        textMatch: (string, Favorite) -> bool, rank: (string, Favorite) -> int): (r: Result<FavoritePage, string>)
    ensures r.Err? <==> Skip(o.page.GetOr(1), o.limit.GetOr(20)) < 0
    ensures r.Ok? ==> r.value.page == o.page.GetOr(1) && r.value.limit == o.limit.GetOr(20)
                      && r.value.total == |Select(favs, BuildQuery(u, o), textMatch)|
                      && r.value.totalPages == TotalPages(r.value.total, r.value.limit)
  {
    var page := o.page.GetOr(1);
    var limit := o.limit.GetOr(20);
    var matching := Select(favs, BuildQuery(u, o), textMatch);
    var sorted := SortBy(matching, SortKey(o.sortBy.GetOr("savedAt"), rank), Ascending(o));
    match Window(sorted, Skip(page, limit), limit)
    case Err(e) => Err(e)
    case Ok(w) => Ok(FavoritePage(w, |matching|, page, limit, TotalPages(|matching|, limit)))
  }

  /** `(page - 1) * limit`, the number of favorites before the page. */
  function Skip(page: int, limit: int): int { (page - 1) * limit }

  /** A window of a sorted sequence is sorted and drawn from it. */
  lemma WindowSorted(s: seq<Favorite>, skip: int, limit: int, key: Favorite -> int, asc: bool)
    requires SortedBy(s, key, asc)
    requires Window(s, skip, limit).Ok?
    ensures forall f :: f in Window(s, skip, limit).value ==> f in s
    ensures SortedBy(Window(s, skip, limit).value, key, asc)
  {
    var w := Window(s, skip, limit).value;
    if w != [] {
      assert w == s[skip..skip + |w|];
      forall i, j | 0 <= i < j < |w| ensures InOrder(w[i], w[j], key, asc) {
        assert w[i] == s[skip + i] && w[j] == s[skip + j];
      }
    }
  }

  /** The page is the slice of the sorted selection that starts at
      `(page - 1) * limit`: `limit` of them (all the rest for a zero limit,
      fewer on the last page, none past the end).  It holds only favorites
      the query selects, ordered on the key, and `total` counts every
      selected one. */
  lemma GetFavoritesPage(favs: seq<Favorite>, u: UserId, o: ListOptions,
                         textMatch: (string, Favorite) -> bool, rank: (string, Favorite) -> int)
    requires GetFavorites(favs, u, o, textMatch, rank).Ok?
    ensures var p := GetFavorites(favs, u, o, textMatch, rank).value;
            var key := SortKey(o.sortBy.GetOr("savedAt"), rank);
            var sorted := SortBy(Select(favs, BuildQuery(u, o), textMatch), key, Ascending(o));
            var skip := Skip(p.page, p.limit);
            (forall f :: f in p.favorites ==> f in favs && Matches(BuildQuery(u, o), f, textMatch))
            && SortedBy(p.favorites, key, Ascending(o))
            && p.total == |sorted|
            && IsPage(p.favorites, sorted, skip, p.limit)
  {
    var matching := Select(favs, BuildQuery(u, o), textMatch);
    var key := SortKey(o.sortBy.GetOr("savedAt"), rank);
    var sorted := SortBy(matching, key, Ascending(o));
    var page := o.page.GetOr(1);
    var limit := o.limit.GetOr(20);
    GetFavoritesWindow(favs, u, o, textMatch, rank);
    PageFacts(matching, key, Ascending(o), Skip(page, limit), limit);
  }

  /** The page `getFavorites` returns is the window of the sorted selection. */
  lemma GetFavoritesWindow(favs: seq<Favorite>, u: UserId, o: ListOptions,
                           textMatch: (string, Favorite) -> bool, rank: (string, Favorite) -> int)
    requires GetFavorites(favs, u, o, textMatch, rank).Ok?
    ensures var sorted := SortBy(Select(favs, BuildQuery(u, o), textMatch), SortKey(o.sortBy.GetOr("savedAt"), rank), Ascending(o));
            var w := Window(sorted, Skip(o.page.GetOr(1), o.limit.GetOr(20)), o.limit.GetOr(20));
            w.Ok? && GetFavorites(favs, u, o, textMatch, rank).value.favorites == w.value
  {
  }

  /** A window of the sorted sequence is one of its pages, sorted and
      drawn from the sequence. */
  lemma PageFacts(s: seq<Favorite>, key: Favorite -> int, asc: bool, skip: int, limit: int)
    requires Window(SortBy(s, key, asc), skip, limit).Ok?
    ensures var sorted := SortBy(s, key, asc);
            var w := Window(sorted, skip, limit).value;
            (forall f :: f in w ==> f in s) && SortedBy(w, key, asc) && |sorted| == |s|
            && IsPage(w, sorted, skip, limit)
  {
    var sorted := SortBy(s, key, asc);
    SortedDrawnFrom(s, key, asc);
    WindowSorted(sorted, skip, limit, key, asc);
    WindowIsPage(sorted, skip, limit);
  }

  /** `w` is the page of `s` that starts at `skip`: `limit` elements from
      there (all the rest for a zero limit, fewer at the end), or none
      past the end. */
  predicate IsPage(w: seq<Favorite>, s: seq<Favorite>, skip: int, limit: int) {
    (0 <= skip < |s| && limit != 0 ==>
       skip + |w| <= |s| && w == s[skip..skip + |w|] && |w| == Min(|s| - skip, if limit < 0 then -limit else limit))
    && (0 <= skip < |s| && limit == 0 ==> w == s[skip..])
    && (skip >= |s| ==> w == [])
  }

  lemma WindowIsPage(s: seq<Favorite>, skip: int, limit: int)
    requires Window(s, skip, limit).Ok?
    ensures IsPage(Window(s, skip, limit).value, s, skip, limit)
  {
  }

  /** Sorting keeps the elements it was given, in order. */
  lemma SortedDrawnFrom(s: seq<Favorite>, key: Favorite -> int, asc: bool)
    ensures SortedBy(SortBy(s, key, asc), key, asc)
    ensures |SortBy(s, key, asc)| == |s|
    ensures forall f :: f in SortBy(s, key, asc) ==> f in s
  {
    var sorted := SortBy(s, key, asc);
    SortBySpec(s, key, asc);
    assert |sorted| == |multiset(sorted)| == |multiset(s)| == |s|;
    forall f | f in sorted ensures f in s {
      assert f in multiset(sorted);
    }
  }

  /** With no options: page 1 of 20, newest first. */
  lemma GetFavoritesDefaults(favs: seq<Favorite>, u: UserId, textMatch: (string, Favorite) -> bool,
                             rank: (string, Favorite) -> int)
    ensures var r := GetFavorites(favs, u, NoOptions, textMatch, rank);
            var sorted := SortBy(Select(favs, Query(u, None, None, None, None), textMatch), SavedAt, false);
            r.Ok? && r.value.page == 1 && r.value.limit == 20
            && r.value.favorites == sorted[..Min(20, |sorted|)]
  {
  }

  /** With a positive limit, the last page is non-empty and the one after
      it is empty: the pages exactly cover the selection. */
  lemma TotalPagesCover(total: nat, limit: int)
    requires limit > 0 && total > 0
    ensures var n := TotalPages(total, limit).value;
            n >= 1 && (n - 1) * limit < total && total <= n * limit
  {
    var n := (total + limit - 1) / limit;
    assert n * limit <= total + limit - 1 < (n + 1) * limit;
  }
}
