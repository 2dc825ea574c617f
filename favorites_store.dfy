/** The favorites store of the frontend: the list, the open detail, the
    filter and pagination objects, the mutations that change them in
    place, and the actions' commit sequences around the requests, whose
    replies are parameters. */
module FavoritesStore {
  import opened Wrappers
  import opened Text
  import opened JsObjects
  import opened ApiErrors

  // ------------------------------------------------------------ filters and pagination

  /** The filter object; `kind` is its `type` key. */
  datatype Filters = Filters(tags: seq<string>, kind: Option<string>, category: Option<string>,
                             search: Option<string>, sortBy: string, sortOrder: string)

  /** The initial filters, which `CLEAR_FILTERS` restores. */
  const DefaultFilters := Filters([], None, None, None, "savedAt", "desc")

  /** The keys of a filters payload: `None` is a missing key, and for the
      nullable filters `Some(None)` is an explicit null. */
  datatype FiltersPatch = FiltersPatch(tags: Option<seq<string>>, kind: Option<Option<string>>,
                                       category: Option<Option<string>>, search: Option<Option<string>>,
                                       sortBy: Option<string>, sortOrder: Option<string>)

  const NoFilterKeys := FiltersPatch(None, None, None, None, None, None)

  /** The later of two optional keys of a combined payload. */
  function Latest<T>(p: Option<T>, q: Option<T>): Option<T> {
    if q.Some? then q else p
  }

  /** `{ ...filters, ...patch }`: a supplied key overwrites, the others stay. */
  function MergeFilters(f: Filters, p: FiltersPatch): Filters {
    Filters(p.tags.GetOr(f.tags), p.kind.GetOr(f.kind), p.category.GetOr(f.category),
            p.search.GetOr(f.search), p.sortBy.GetOr(f.sortBy), p.sortOrder.GetOr(f.sortOrder))
  }

  /** `{ ...p, ...q }` of two payloads. */
  function ThenFilters(p: FiltersPatch, q: FiltersPatch): FiltersPatch {
    FiltersPatch(Latest(p.tags, q.tags), Latest(p.kind, q.kind), Latest(p.category, q.category),
                 Latest(p.search, q.search), Latest(p.sortBy, q.sortBy), Latest(p.sortOrder, q.sortOrder))
  }

  /** The shallow merge is a merge: an empty payload changes nothing, a
      repeated one changes nothing more, and two in a row are one merge of
      their combination. */
  lemma MergeFiltersLaws(f: Filters, p: FiltersPatch, q: FiltersPatch)
    ensures MergeFilters(f, NoFilterKeys) == f
    ensures MergeFilters(MergeFilters(f, p), p) == MergeFilters(f, p)
    ensures MergeFilters(MergeFilters(f, p), q) == MergeFilters(f, ThenFilters(p, q))
  {
  }

  datatype Pagination = Pagination(page: int, limit: int, total: int, totalPages: int)

  const InitialPagination := Pagination(1, 20, 0, 0)

  datatype PaginationPatch = PaginationPatch(page: Option<int>, limit: Option<int>, total: Option<int>,
                                             totalPages: Option<int>)

  function PageOnly(page: int): PaginationPatch {
    PaginationPatch(Some(page), None, None, None)
  }

  /** `{ ...pagination, ...patch }`. */
  function MergePagination(p: Pagination, q: PaginationPatch): Pagination {
    Pagination(q.page.GetOr(p.page), q.limit.GetOr(p.limit), q.total.GetOr(p.total), q.totalPages.GetOr(p.totalPages))
  }

  /** Setting only the page keeps limit, total and page count. */
  lemma PageOnlyKeepsRest(p: Pagination, page: int)
    ensures MergePagination(p, PageOnly(page)) == p.(page := page)
    ensures MergePagination(MergePagination(p, PageOnly(page)), PageOnly(page)) == p.(page := page)
  {
  }

  // ------------------------------------------------------------ request parameters

  /** The query parameters `fetchFavorites` sends; `kind` is `type`. */
  datatype Params = Params(page: int, limit: int, sortBy: string, sortOrder: string, tags: Option<string>,
                           kind: Option<string>, category: Option<string>, search: Option<string>)

  function IfTruthy(s: Option<string>): Option<string> {
    if s.Some? && s.value != "" then s else None
  }

  /** The parameters built from the filters and the pagination: the four
      fixed ones always, `tags` joined with ',' when there are any, and the
      others when they are truthy. */
  function FetchParams(f: Filters, p: Pagination): (r: Params)
    ensures r.page == p.page && r.limit == p.limit && r.sortBy == f.sortBy && r.sortOrder == f.sortOrder
    ensures r.tags.Some? <==> |f.tags| > 0
    ensures r.kind.Some? <==> f.kind.Some? && f.kind.value != ""
    ensures r.category.Some? <==> f.category.Some? && f.category.value != ""
    ensures r.search.Some? <==> f.search.Some? && f.search.value != ""
    ensures r.kind.Some? ==> r.kind == f.kind
    ensures r.category.Some? ==> r.category == f.category
    ensures r.search.Some? ==> r.search == f.search
  {
    Params(p.page, p.limit, f.sortBy, f.sortOrder, if |f.tags| > 0 then Some(Join(f.tags, ",")) else None,
           IfTruthy(f.kind), IfTruthy(f.category), IfTruthy(f.search))
  }

  /** The comma-joined `tags` parameter splits back into the filter's tags
      when no tag holds a comma. */
  lemma FetchParamsTagsRoundTrip(f: Filters, p: Pagination)
    requires |f.tags| > 0
    requires forall i :: 0 <= i < |f.tags| ==> ',' !in f.tags[i]
    ensures FetchParams(f, p).tags.Some? && Split(FetchParams(f, p).tags.value, ',') == f.tags
  {
    SplitJoin(f.tags, ',');
  }

  /** With cleared filters only the four fixed parameters are sent, with
      the default sort. */
  lemma ClearedParams(p: Pagination)
    ensures FetchParams(DefaultFilters, p) == Params(p.page, p.limit, "savedAt", "desc", None, None, None, None)
  {
  }

  // ------------------------------------------------------------ the state and its mutations

  datatype Snapshot = Snapshot(favorites: seq<Obj>, favorite: Option<Obj>, loading: bool, error: Option<string>,
                               filters: Filters, pagination: Pagination)

  const InitialState := Snapshot([], None, false, None, DefaultFilters, InitialPagination)

  const IdKey := "_id"

  /** `ADD_FAVORITE`: the item goes in front and the total grows by one. */
  function AddedFavorite(s: Snapshot, o: Obj): (t: Snapshot)
    ensures |t.favorites| == |s.favorites| + 1 && t.favorites[0] == o && t.favorites[1..] == s.favorites
    ensures t.pagination == s.pagination.(total := s.pagination.total + 1)
  {
    s.(favorites := [o] + s.favorites, pagination := s.pagination.(total := s.pagination.total + 1))
  }

  /** Whether the open detail has the given id. */
  predicate DetailHas(s: Snapshot, id: Option<Json>) {
    s.favorite.Some? && Get(s.favorite.value, IdKey) == id
  }

  /** `UPDATE_FAVORITE`: the item with the same `_id` is replaced where it
      stands, and so is the open detail with that id. */
  function UpdatedFavorite(s: Snapshot, o: Obj): Snapshot {
    s.(favorites := Replaced(s.favorites, IdKey, o),
       favorite := if DetailHas(s, Get(o, IdKey)) then Some(o) else s.favorite)
  }

  /** `REMOVE_FAVORITE`: every item with the id goes, the total drops by
      one whatever was removed, and an open detail with the id is closed. */
  function RemovedFavorite(s: Snapshot, id: Option<Json>): Snapshot {
    s.(favorites := FilterOut(s.favorites, IdKey, id),
       pagination := s.pagination.(total := s.pagination.total - 1),
       favorite := if DetailHas(s, id) then None else s.favorite)
  }

  /** An update keeps the length and every other item, and only the list
      and the detail change. */
  lemma UpdatedFavoriteInPlace(s: Snapshot, o: Obj)
    ensures var t := UpdatedFavorite(s, o);
            var i := FindIndex(s.favorites, IdKey, Get(o, IdKey));
            |t.favorites| == |s.favorites|
            && (i == -1 ==> t.favorites == s.favorites)
            && (i >= 0 ==> t.favorites[i] == o
                           && forall j :: 0 <= j < |s.favorites| && j != i ==> t.favorites[j] == s.favorites[j])
            && t.(favorites := s.favorites, favorite := s.favorite) == s
            && (t.favorite != s.favorite ==> t.favorite == Some(o))
  {
    ReplacedFinds(s.favorites, IdKey, o);
  }

  /** After a removal no item has the id, the others keep their order, and
      the total is one lower even when nothing matched. */
  lemma RemovedFavoriteDrops(s: Snapshot, id: Option<Json>)
    ensures var t := RemovedFavorite(s, id);
            (forall j :: 0 <= j < |t.favorites| ==> Get(t.favorites[j], IdKey) != id)
            && |t.favorites| == |s.favorites| - Matching(s.favorites, IdKey, id)
            && t.pagination.total == s.pagination.total - 1
            && (t.favorite.Some? ==> !DetailHas(s, id) && t.favorite == s.favorite)
  {
    FilterOutLength(s.favorites, IdKey, id);
    var t := RemovedFavorite(s, id);
    forall j | 0 <= j < |t.favorites| ensures Get(t.favorites[j], IdKey) != id {
      assert t.favorites[j] in t.favorites;
    }
  }

  /** Removing an item just added, whose id no other item had, restores the
      list and the total. */
  lemma AddThenRemove(s: Snapshot, o: Obj)
    requires forall j :: 0 <= j < |s.favorites| ==> Get(s.favorites[j], IdKey) != Get(o, IdKey)
    ensures var t := RemovedFavorite(AddedFavorite(s, o), Get(o, IdKey));
            t.favorites == s.favorites && t.pagination == s.pagination && t.filters == s.filters
  {
    FilterOutAppend([o], s.favorites, IdKey, Get(o, IdKey));
    FilterOutIdempotent(s.favorites, IdKey, Get(o, IdKey));
    assert [o] + s.favorites == AddedFavorite(s, o).favorites;
    assert FilterOut([o], IdKey, Get(o, IdKey)) == [] by {
      assert [o][1..] == [];
    }
  }

  /** The reply of a list request: the page of items and its numbers. */
  datatype FetchReply = FetchReply(favorites: seq<Obj>, pagination: Pagination)

  class FavoritesState {
    var favorites: seq<Obj>
    var favorite: Option<Obj>
    var loading: bool
    var error: Option<string>
    var filters: Filters
    var pagination: Pagination

    function State(): Snapshot
      reads this
    {
      Snapshot(favorites, favorite, loading, error, filters, pagination)
    }

    constructor ()
      ensures State() == InitialState
    {
      favorites, favorite, loading, error := [], None, false, None;
      filters, pagination := DefaultFilters, InitialPagination;
    }

    method SetFavorites(items: seq<Obj>)
      modifies this
      ensures State() == old(State()).(favorites := items)
    {
      favorites := items;
    }

    method SetFavorite(o: Option<Obj>)
      modifies this
      ensures State() == old(State()).(favorite := o)
    {
      favorite := o;
    }

    method SetLoading(b: bool)
      modifies this
      ensures State() == old(State()).(loading := b)
    {
      loading := b;
    }

    method SetError(e: Option<string>)
      modifies this
      ensures State() == old(State()).(error := e)
    {
      error := e;
    }

    method SetFilters(p: FiltersPatch)
      modifies this
      ensures State() == old(State()).(filters := MergeFilters(old(filters), p))
    {
      filters := MergeFilters(filters, p);
    }

    method SetPagination(p: PaginationPatch)
      modifies this
      ensures State() == old(State()).(pagination := MergePagination(old(pagination), p))
    {
      pagination := MergePagination(pagination, p);
    }

    method ClearFilters()
      modifies this
      ensures State() == old(State()).(filters := DefaultFilters)
    {
      filters := DefaultFilters;
    }

    method AddFavorite(o: Obj)
      modifies this
      ensures State() == AddedFavorite(old(State()), o)
    {
      favorites := [o] + favorites;
      pagination := pagination.(total := pagination.total + 1);
    }

    method UpdateFavorite(o: Obj)
      modifies this
      ensures State() == UpdatedFavorite(old(State()), o)
    {
      var i := FindIndex(favorites, IdKey, Get(o, IdKey));
      if i != -1 {
        favorites := favorites[i := o];
      }
      if favorite.Some? && Get(favorite.value, IdKey) == Get(o, IdKey) {
        favorite := Some(o);
      }
    }

    method RemoveFavorite(id: Option<Json>)
      modifies this
      ensures State() == RemovedFavorite(old(State()), id)
    {
      favorites := FilterOut(favorites, IdKey, id);
      pagination := pagination.(total := pagination.total - 1);
      if favorite.Some? && Get(favorite.value, IdKey) == id {
        favorite := None;
      }
    }

    // ---------------------------------------------------------- actions

    /** `fetchFavorites`: the parameters it sends, then the reply's items
        and numbers, or the error message. */
    method FetchFavorites(reply: Result<FetchReply, ApiError>) returns (params: Params)
      modifies this
      ensures params == FetchParams(old(filters), old(pagination))
      ensures State() == Fetched(old(State()), reply)
    {
      SetLoading(true);
      SetError(None);
      params := FetchParams(filters, pagination);
      match reply
      case Ok(r) =>
        SetFavorites(r.favorites);
        var q := r.pagination;
        SetPagination(PaginationPatch(Some(q.page), Some(q.limit), Some(q.total), Some(q.totalPages)));
        SetLoading(false);
      case Err(e) =>
        SetError(Some(ShownMessage(e, "获取收藏列表失败")));
        SetLoading(false);
    }

    /** `deleteFavorite`: after the item is removed, an emptied page other
        than the first steps back one page, and the list is fetched again
        (`fetch` is the reply to that request); a failed delete fetches
        nothing. */
    method DeleteFavorite(id: Option<Json>, reply: Result<(), ApiError>, fetch: Result<FetchReply, ApiError>)
      returns (params: Option<Params>)
      modifies this
      ensures reply.Ok? ==> var mid := AfterDeleteFavorite(old(State()), id);
                            params == Some(FetchParams(mid.filters, mid.pagination)) && State() == Fetched(mid, fetch)
      ensures reply.Err? ==>
                params.None?
                && State() == old(State()).(loading := false, error := Some(ShownMessage(reply.error, "删除收藏失败")))
    {
      SetLoading(true);
      SetError(None);
      if reply.Err? {
        SetError(Some(ShownMessage(reply.error, "删除收藏失败")));
        SetLoading(false);
        return None;
      }
      RemoveFavorite(id);
      SetLoading(false);
      if |favorites| == 0 && pagination.page > 1 {
        SetPagination(PageOnly(pagination.page - 1));
      }
      var sent := FetchFavorites(fetch);
      params := Some(sent);
    }

    /** `updateFiltersAndFetch`: merge the filters, go back to page 1 and
        fetch that page. */
    method UpdateFiltersAndFetch(p: FiltersPatch, fetch: Result<FetchReply, ApiError>) returns (params: Params)
      modifies this
      ensures var mid := old(State()).(filters := MergeFilters(old(filters), p), pagination := old(pagination).(page := 1));
              params == FetchParams(mid.filters, mid.pagination) && State() == Fetched(mid, fetch)
    {
      SetFilters(p);
      SetPagination(PageOnly(1));
      params := FetchFavorites(fetch);
    }

    /** `clearAllFilters`: default filters, page 1, and that page fetched. */
    method ClearAllFilters(fetch: Result<FetchReply, ApiError>) returns (params: Params)
      modifies this
      ensures var mid := old(State()).(filters := DefaultFilters, pagination := old(pagination).(page := 1));
              params == FetchParams(mid.filters, mid.pagination) && State() == Fetched(mid, fetch)
    {
      ClearFilters();
      SetPagination(PageOnly(1));
      params := FetchFavorites(fetch);
    }

    /** `setPage`: the page changes and is fetched. */
    method SetPage(page: int, fetch: Result<FetchReply, ApiError>) returns (params: Params)
      modifies this
      ensures var mid := old(State()).(pagination := old(pagination).(page := page));
              params == FetchParams(mid.filters, mid.pagination) && State() == Fetched(mid, fetch)
    {
      SetPagination(PageOnly(page));
      params := FetchFavorites(fetch);
    }
  }

  /** The state once `fetchFavorites` has its reply: the reply's items and
      numbers, or the error message; the filters are never touched. */
  function Fetched(s: Snapshot, reply: Result<FetchReply, ApiError>): (t: Snapshot)
    ensures t.filters == s.filters && t.favorite == s.favorite && !t.loading
    ensures reply.Ok? ==> t.favorites == reply.value.favorites && t.pagination == reply.value.pagination && t.error.None?
    ensures reply.Err? ==> t.favorites == s.favorites && t.pagination == s.pagination
                           && t.error == Some(ShownMessage(reply.error, "获取收藏列表失败"))
  {
    match reply
    case Ok(r) => s.(favorites := r.favorites, pagination := r.pagination, loading := false, error := None)
    case Err(e) => s.(loading := false, error := Some(ShownMessage(e, "获取收藏列表失败")))
  }

  /** The state after a successful `deleteFavorite`. */
  function AfterDeleteFavorite(s: Snapshot, id: Option<Json>): Snapshot {
    var t := RemovedFavorite(s, id).(loading := false, error := None);
    if |t.favorites| == 0 && t.pagination.page > 1 then t.(pagination := t.pagination.(page := t.pagination.page - 1))
    else t
  }

  /** The page-back rule: the page moves back by one exactly when the
      deletion emptied the list on a page after the first, so it never
      drops below 1 and never moves on a non-empty list. */
  lemma AfterDeleteFavoritePage(s: Snapshot, id: Option<Json>)
    ensures var t := AfterDeleteFavorite(s, id);
            var emptied := |FilterOut(s.favorites, IdKey, id)| == 0;
            (emptied && s.pagination.page > 1 ==> t.pagination.page == s.pagination.page - 1)
            && (!(emptied && s.pagination.page > 1) ==> t.pagination.page == s.pagination.page)
            && (s.pagination.page >= 1 ==> t.pagination.page >= 1)
            && t.pagination.total == s.pagination.total - 1
            && t.pagination.limit == s.pagination.limit && t.filters == s.filters
  {
  }
}
