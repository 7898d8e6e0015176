/**
 * The logic of `TagsService` (src/features/tags/tags.service.ts): the page
 * clamps and search criteria of `findAll` and the response it assembles,
 * and the mapping of every database failure in `create`, `findOne`,
 * `update` and `remove` to one HTTP exception. The tag table is an
 * in-model map from id to row.
 */
module Tags {
  import opened Wrappers
  import opened Exceptions

  /** The most rows one page holds. */
  const MaxPageSize: int := 50

  /** A tag row and the ids of the tasks it is attached to. */
  datatype Tag = Tag(id: string, name: string, ownerId: string, taskIds: set<string>)

  /** The tag as returned to clients. */
  datatype TagDto = TagDto(id: string, name: string, ownerId: string)

  function ToTagDto(tag: Tag): TagDto
  {
    TagDto(tag.id, tag.name, tag.ownerId)
  }

  /** `+params.page` and `+params.pageSize` (`None` is NaN), the authenticated owner, and the filters. */
  datatype TagsQueryParams = TagsQueryParams(
    page: Option<int>,
    pageSize: Option<int>,
    ownerId: string,
    taskId: Option<string>,
    q: Option<string>)

  /** `tagSearchCriteria`: owner, `tasks: { every: { id } }`, and `name: { contains }`. */
  datatype TagCriteria = TagCriteria(ownerId: string, everyTaskId: Option<string>, nameContains: Option<string>)

  datatype TagQuery = TagQuery(where: TagCriteria, take: int, skip: int)

  datatype TagPage = TagPage(count: nat, page: int, pageSize: int, data: seq<TagDto>)

  /** `Math.max(+page || 0, 0)`. */
  function Page(parsed: Option<int>): (page: int)
    ensures page >= 0
    ensures parsed.Some? && parsed.value >= 0 ==> page == parsed.value
    ensures parsed.None? || parsed.value <= 0 ==> page == 0
  {
    var p := match parsed case None => 0 case Some(n) => if n != 0 then n else 0;
    if p > 0 then p else 0
  }

  /** `Math.min(+pageSize || 50, 50)`: a negative size is kept. */
  function PageSize(parsed: Option<int>): (pageSize: int)
    ensures pageSize <= MaxPageSize
    ensures parsed.None? || parsed.value == 0 ==> pageSize == MaxPageSize
    ensures parsed.Some? && parsed.value != 0 && parsed.value <= MaxPageSize ==> pageSize == parsed.value
    ensures parsed.Some? && parsed.value > MaxPageSize ==> pageSize == MaxPageSize
  {
    var s := match parsed case None => 50 case Some(n) => if n != 0 then n else 50;
    if s < MaxPageSize then s else MaxPageSize
  }

  /** `s` occurs in `name` as a contiguous piece. */
  predicate Contains(name: string, s: string)
  {
    exists i, j :: 0 <= i <= j <= |name| && name[i..j] == s
  }

  /** The rows the criteria select. */
  predicate Matches(tag: Tag, c: TagCriteria)
  {
    && tag.ownerId == c.ownerId
    && (c.everyTaskId.Some? ==> forall t :: t in tag.taskIds ==> t == c.everyTaskId.value)
    && (c.nameContains.Some? ==> Contains(tag.name, c.nameContains.value))
  }

  /**
   * `findAll`: the query sent to the database, and the response built from
   * `rows` and `count`, which the database returns for that query. `skip`
   * is the page number itself.
   */
  method FindAll(params: TagsQueryParams, rows: seq<Tag>, count: nat) returns (query: TagQuery, response: TagPage)
    ensures query.where.ownerId == params.ownerId
    ensures query.where.everyTaskId == (if params.taskId.Some? && params.taskId.value != "" then params.taskId else None)
    ensures query.where.nameContains == (if params.q.Some? && params.q.value != "" then params.q else None)
    ensures query.skip == Page(params.page) && query.take == PageSize(params.pageSize)
    ensures response.page == query.skip && response.pageSize == query.take && response.count == count
    ensures |response.data| == |rows|
    ensures forall i :: 0 <= i < |rows| ==>
      response.data[i] == TagDto(rows[i].id, rows[i].name, params.ownerId)
  {
    var taskId := if params.taskId.Some? && params.taskId.value != "" then params.taskId else None;
    var page := Page(params.page);
    var pageSize := PageSize(params.pageSize);

    var criteria := TagCriteria(params.ownerId, taskId, None);
    if params.q.Some? && params.q.value != "" {
      criteria := criteria.(nameContains := params.q);
    }

    query := TagQuery(criteria, pageSize, page);

    var data: seq<TagDto> := [];
    for i := 0 to |rows|
      invariant |data| == i
      invariant forall k :: 0 <= k < i ==> data[k] == TagDto(rows[k].id, rows[k].name, params.ownerId)
    {
      data := data + [TagDto(rows[i].id, rows[i].name, params.ownerId)];
    }
    response := TagPage(count, page, pageSize, data);
  }

  /** Every selected row belongs to the caller, so each returned item is that row's plain DTO. */
  lemma SelectedRowsKeepOwner(params: TagsQueryParams, rows: seq<Tag>, i: int)
    requires 0 <= i < |rows|
    requires Matches(rows[i], TagCriteria(params.ownerId, params.taskId, params.q))
    ensures TagDto(rows[i].id, rows[i].name, params.ownerId) == ToTagDto(rows[i])
  {
  }

  /**
   * The task filter is an "every" filter: a tag attached to no task passes
   * it whatever task is asked for.
   */
  lemma UntaggedPassesTaskFilter(tag: Tag, ownerId: string, taskId: string)
    requires tag.ownerId == ownerId && tag.taskIds == {}
    ensures Matches(tag, TagCriteria(ownerId, Some(taskId), None))
  {
  }

  /** A tag attached to the asked-for task and to another one does not pass the task filter. */
  lemma SharedTagFailsTaskFilter(tag: Tag, ownerId: string, taskId: string, other: string)
    requires taskId in tag.taskIds && other in tag.taskIds && other != taskId
    ensures !Matches(tag, TagCriteria(ownerId, Some(taskId), None))
  {
  }

  /**
   * Because `skip` is the page number and not `page * pageSize`, the windows
   * of two consecutive pages overlap in all but one row once a page holds
   * two or more rows.
   */
  lemma ConsecutivePagesOverlap(page: nat, pageSize: Option<int>)
    requires PageSize(pageSize) >= 2
    ensures var next := Page(Some(page + 1));
            Page(Some(page)) < next < Page(Some(page)) + PageSize(pageSize)
  {
  }

  /** `create`'s request body. */
  datatype CreateTagDto = CreateTagDto(name: string, taskId: string)

  class TagsService {
    var tags: map<string, Tag>
    var taskIds: set<string>

    /** An empty tag table that knows the given task ids. */
    constructor(taskIds: set<string>)
      ensures Valid() && tags == map[] && this.taskIds == taskIds
    {
      tags := map[];
      this.taskIds := taskIds;
    }

    /** Every row is stored under its own id. */
    predicate Valid()
      reads this
    {
      forall id :: id in tags ==> tags[id].id == id
    }

    /**
     * `create`: inserts the tag attached to `dto.taskId`. Any database
     * failure (the task to connect does not exist, the generated id is
     * taken) becomes `UnprocessableEntityException`.
     */
    method Create(ownerId: string, dto: CreateTagDto, newId: string) returns (r: Result<TagDto, HttpException>)
      requires Valid()
      modifies this`tags
      ensures Valid()
      ensures dto.taskId !in taskIds || newId in old(tags) ==>
        r == Err(UnprocessableEntityException) && tags == old(tags)
      ensures dto.taskId in taskIds && newId !in old(tags) ==>
        var tag := Tag(newId, dto.name, ownerId, {dto.taskId});
        r == Ok(ToTagDto(tag)) && tags == old(tags)[newId := tag]
    {
      if dto.taskId !in taskIds || newId in tags {
        return Err(UnprocessableEntityException);
      }
      var tag := Tag(newId, dto.name, ownerId, {dto.taskId});
      tags := tags[newId := tag];
      return Ok(ToTagDto(tag));
    }

    /** `findOne`: the tag's DTO, or `TagNotFoundException` when there is no such tag. */
    method FindOne(id: string) returns (r: Result<TagDto, HttpException>)
      requires Valid()
      ensures r.Ok? <==> id in tags
      ensures r.Ok? ==> r.value == ToTagDto(tags[id]) && r.value.id == id
      ensures r.Err? ==> r.error == TagNotFoundException
    {
      if id !in tags {
        return Err(TagNotFoundException);
      }
      return Ok(ToTagDto(tags[id]));
    }

    /** `update`: renames the tag, or `TagNotFoundException` when there is no such tag. */
    method Update(id: string, name: Option<string>) returns (r: Result<TagDto, HttpException>)
      requires Valid()
      modifies this`tags
      ensures Valid()
      ensures id !in old(tags) ==> r == Err(TagNotFoundException) && tags == old(tags)
      ensures id in old(tags) ==>
        var tag := old(tags)[id];
        var updated := tag.(name := name.GetOr(tag.name));
        r == Ok(ToTagDto(updated)) && tags == old(tags)[id := updated]
    {
      if id !in tags {
        return Err(TagNotFoundException);
      }
      var tag := tags[id];
      var updated := tag.(name := name.GetOr(tag.name));
      tags := tags[id := updated];
      return Ok(ToTagDto(updated));
    }

    /** `remove`: deletes the tag, or `TagNotFoundException` when there is no such tag. */
    method Remove(id: string) returns (r: Result<(), HttpException>)
      requires Valid()
      modifies this`tags
      ensures Valid()
      ensures id !in old(tags) ==> r == Err(TagNotFoundException) && tags == old(tags)
      ensures id in old(tags) ==> r == Ok(()) && tags == old(tags) - {id}
    {
      if id !in tags {
        return Err(TagNotFoundException);
      }
      tags := tags - {id};
      return Ok(());
    }
  }
}
