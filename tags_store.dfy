/** The tags store of the frontend: the tag list kept in place by `_id`,
    and the messages the actions store when a request fails. */
module TagsStore {
  import opened Wrappers
  import opened JsObjects
  import opened ApiErrors

  const IdKey := "_id"
  /** The message the backend's `updateTag` throws for a taken name. */
  const TagNameTaken := "标签名称已存在"
  /** The message `createTag` tests for, which is the backend's message
      for a taken user name. */
  const UsernameTaken := "用户名已存在"

  datatype Snapshot = Snapshot(tags: seq<Obj>, loading: bool, error: Option<string>)

  const InitialState := Snapshot([], false, None)

  /** `ADD_TAG`: the tag with the same `_id` is replaced in place, or the
      tag is appended. */
  function AddedTag(s: Snapshot, o: Obj): Snapshot {
    s.(tags := Upserted(s.tags, IdKey, o))
  }

  /** `UPDATE_TAG`: the tag with the same `_id` is replaced in place;
      nothing happens when there is none. */
  function UpdatedTag(s: Snapshot, o: Obj): Snapshot {
    s.(tags := Replaced(s.tags, IdKey, o))
  }

  /** `REMOVE_TAG`: every tag with the id goes. */
  function RemovedTag(s: Snapshot, id: Option<Json>): Snapshot {
    s.(tags := FilterOut(s.tags, IdKey, id))
  }

  /** Adding a tag grows the list by at most one, only for a new id, and
      adding the same tag again (the backend returns an existing tag
      unchanged) leaves the list as it is. */
  lemma AddedTagOnce(s: Snapshot, o: Obj)
    ensures var t := AddedTag(s, o);
            o in t.tags && |s.tags| <= |t.tags| <= |s.tags| + 1
            && (|t.tags| == |s.tags| + 1 <==> forall j :: 0 <= j < |s.tags| ==> Get(s.tags[j], IdKey) != Get(o, IdKey))
            && AddedTag(t, o) == t
  {
    UpsertedOnce(s.tags, IdKey, o);
  }

  /** An update keeps the length and every tag but the replaced one. */
  lemma UpdatedTagInPlace(s: Snapshot, o: Obj)
    ensures var t := UpdatedTag(s, o);
            var i := FindIndex(s.tags, IdKey, Get(o, IdKey));
            |t.tags| == |s.tags|
            && (i == -1 ==> t == s)
            && (i >= 0 ==> t.tags[i] == o && forall j :: 0 <= j < |s.tags| && j != i ==> t.tags[j] == s.tags[j])
  {
    ReplacedFinds(s.tags, IdKey, o);
  }

  /** Removing a tag just added under a new id restores the list. */
  lemma AddThenRemoveTag(s: Snapshot, o: Obj)
    requires forall j :: 0 <= j < |s.tags| ==> Get(s.tags[j], IdKey) != Get(o, IdKey)
    ensures RemovedTag(AddedTag(s, o), Get(o, IdKey)) == s
  {
    var id := Get(o, IdKey);
    assert FindIndex(s.tags, IdKey, id) == -1;
    FilterOutAppend(s.tags, [o], IdKey, id);
    FilterOutIdempotent(s.tags, IdKey, id);
    assert FilterOut([o], IdKey, id) == [] by {
      assert [o][1..] == [];
    }
    assert s.tags + [] == s.tags;
  }

  /** The message `createTag` stores: a 400 carrying the user-name message
      is shown as the tag-name one, any other server message as it is. */
  function CreateTagMessage(e: ApiError): (m: string)
    ensures e.response.Some? && e.response.value.status == 400 && e.response.value.message == Some(UsernameTaken)
            ==> m == TagNameTaken
    ensures !(e.response.Some? && e.response.value.status == 400 && e.response.value.message == Some(UsernameTaken))
            ==> m == ShownMessage(e, "创建标签失败")
  {
    if e.response.Some? && e.response.value.status == 400 && e.response.value.message == Some(UsernameTaken)
    then TagNameTaken
    else ShownMessage(e, "创建标签失败")
  }

  /** The message `updateTag` stores, with its own special case. */
  function UpdateTagMessage(e: ApiError): string {
    if e.response.Some? && e.response.value.status == 400 && e.response.value.message == Some(TagNameTaken)
    then TagNameTaken
    else ShownMessage(e, "更新标签失败")
  }

  /** The special case of `updateTag` maps the tag-name message to itself,
      so it shows exactly what the generic rule shows. */
  lemma UpdateTagMessageGeneric(e: ApiError)
    ensures UpdateTagMessage(e) == ShownMessage(e, "更新标签失败")
  {
  }

  /** The tag-name message reaches the user unchanged from either action,
      and the special case of `createTag` fires only for the user-name
      message. */
  lemma TagNameTakenShown(status: int)
    ensures CreateTagMessage(ApiError(Some(Response(status, Some(TagNameTaken))))) == TagNameTaken
    ensures UpdateTagMessage(ApiError(Some(Response(status, Some(TagNameTaken))))) == TagNameTaken
    ensures CreateTagMessage(ApiError(Some(Response(status, Some(UsernameTaken)))))
            == (if status == 400 then TagNameTaken else UsernameTaken)
  {
  }

  class TagsState {
    var tags: seq<Obj>
    var loading: bool
    var error: Option<string>

    function State(): Snapshot
      reads this
    {
      Snapshot(tags, loading, error)
    }

    constructor ()
      ensures State() == InitialState
    {
      tags, loading, error := [], false, None;
    }

    method SetTags(items: seq<Obj>)
      modifies this
      ensures State() == old(State()).(tags := items)
    {
      tags := items;
    }

    method SetLoading(b: bool)
      modifies this
      ensures State() == old(State()).(loading := b)
    {
      loading := b;
    }

    method SetError(e: Option<string>)
      modifies this
      ensures State() == old(State()).(error := e)
    {
      error := e;
    }

    method AddTag(o: Obj)
      modifies this
      ensures State() == AddedTag(old(State()), o)
    {
      var i := FindIndex(tags, IdKey, Get(o, IdKey));
      if i != -1 {
        tags := tags[i := o];
      } else {
        tags := tags + [o];
      }
    }

    method UpdateTag(o: Obj)
      modifies this
      ensures State() == UpdatedTag(old(State()), o)
    {
      var i := FindIndex(tags, IdKey, Get(o, IdKey));
      if i != -1 {
        tags := tags[i := o];
      }
    }

    method RemoveTag(id: Option<Json>)
      modifies this
      ensures State() == RemovedTag(old(State()), id)
    {
      tags := FilterOut(tags, IdKey, id);
    }

    // ---------------------------------------------------------- actions

    /** `fetchTags` with the reply of the request. */
    method FetchTagsRequest(reply: Result<seq<Obj>, ApiError>)
      modifies this
      ensures reply.Ok? ==> State() == Snapshot(reply.value, false, None)
      ensures reply.Err? ==> State() == old(State()).(loading := false, error := Some(ShownMessage(reply.error, "获取标签失败")))
    {
      SetLoading(true);
      SetError(None);
      match reply
      case Ok(items) =>
        SetTags(items);
        SetLoading(false);
      case Err(e) =>
        SetError(Some(ShownMessage(e, "获取标签失败")));
        SetLoading(false);
    }

    /** `createTag` with the reply of the request. */
    method CreateTagRequest(reply: Result<Obj, ApiError>)
      modifies this
      ensures reply.Ok? ==> State() == AddedTag(old(State()), reply.value).(loading := false, error := None)
      ensures reply.Err? ==> State() == old(State()).(loading := false, error := Some(CreateTagMessage(reply.error)))
    {
      SetLoading(true);
      SetError(None);
      match reply
      case Ok(o) =>
        AddTag(o);
        SetLoading(false);
      case Err(e) =>
        SetError(Some(CreateTagMessage(e)));
        SetLoading(false);
    }

    /** `updateTag` with the reply of the request. */
    method UpdateTagRequest(reply: Result<Obj, ApiError>)
      modifies this
      ensures reply.Ok? ==> State() == UpdatedTag(old(State()), reply.value).(loading := false, error := None)
      ensures reply.Err? ==> State() == old(State()).(loading := false, error := Some(UpdateTagMessage(reply.error)))
    {
      SetLoading(true);
      SetError(None);
      match reply
      case Ok(o) =>
        UpdateTag(o);
        SetLoading(false);
      case Err(e) =>
        SetError(Some(UpdateTagMessage(e)));
        SetLoading(false);
    }

    /** `deleteTag` with the outcome of the request. */
    method DeleteTagRequest(id: Option<Json>, reply: Result<(), ApiError>)
      modifies this
      ensures reply.Ok? ==> State() == RemovedTag(old(State()), id).(loading := false, error := None)
      ensures reply.Err? ==> State() == old(State()).(loading := false, error := Some(ShownMessage(reply.error, "删除标签失败")))
    {
      SetLoading(true);
      SetError(None);
      if reply.Err? {
        SetError(Some(ShownMessage(reply.error, "删除标签失败")));
        SetLoading(false);
        return;
      }
      RemoveTag(id);
      SetLoading(false);
    }
  }
}
