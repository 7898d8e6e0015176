/**
 * The logic of `TasksService` (src/features/tasks/tasks.service.ts): the paging
 * arguments and filter `findAll` builds, the existence checks `create` makes
 * before inserting, and the field updates of `update`, including the
 * `completedAt` rule. The database is an in-model table for `create` and
 * `update`; for `findAll` the model produces the query that is sent.
 */
module Tasks {
  import opened Wrappers
  import opened Exceptions
  import opened TaskStatusEnum
  import opened TaskPriorityEnum

  /** The most rows one `findMany` returns. */
  const MaxPageSize: int := 50

  /** JavaScript truthiness of an optional string: present and non-empty. */
  predicate Truthy(v: Option<string>)
  {
    v.Some? && v.value != ""
  }

  /** `parseInt(params.page, 10) || 0`, where `None` is NaN. */
  function Page(parsed: Option<int>): (page: int)
    ensures page == parsed.GetOr(0)
  {
    match parsed
    case None => 0
    case Some(n) => if n != 0 then n else 0
  }

  /** `parseInt(params.pageSize, 10) || 50`, where `None` is NaN. */
  function PageSize(parsed: Option<int>): (pageSize: int)
    ensures pageSize != 0
    ensures pageSize == 50 <==> parsed.None? || parsed.value == 0 || parsed.value == 50
    ensures parsed.Some? && parsed.value != 0 ==> pageSize == parsed.value
  {
    match parsed
    case None => 50
    case Some(n) => if n != 0 then n else 50
  }

  /** `Math.min(+pageSize, 50)`: never more than 50 rows, exactly `pageSize` up to 50. */
  function Take(pageSize: int): (take: int)
    ensures take <= MaxPageSize
    ensures take == pageSize <==> pageSize <= MaxPageSize
  {
    if pageSize < MaxPageSize then pageSize else MaxPageSize
  }

  /** `page * pageSize`, with the requested, unclamped page size. */
  function Skip(page: int, pageSize: int): int
  {
    page * pageSize
  }

  /**
   * With a page size above 50 only 50 rows are taken, but the next page
   * starts `pageSize` rows later, so `pageSize - 50` rows after every page
   * are never returned.
   */
  lemma OversizedPagesSkipRows(page: int, pageSize: int)
    requires pageSize > MaxPageSize
    ensures Skip(page + 1, pageSize) - (Skip(page, pageSize) + Take(pageSize)) == pageSize - MaxPageSize
  {
  }

  /** Up to 50 rows a page, consecutive pages are adjacent windows. */
  lemma PagesAdjacent(page: int, pageSize: int)
    requires pageSize <= MaxPageSize
    ensures Skip(page + 1, pageSize) == Skip(page, pageSize) + Take(pageSize)
  {
  }

  /** The due-date part of the filter. */
  datatype DueDateFilter =
    | NoDueDate
    | Within(gte: string, lte: string)  // `AND: { dueDate: { gte, lte } }`
    | OnOrAfter(gte: string)            // `dueDate: { gte }`
    | OnOrBefore(lte: string)           // `dueDate: { lte }`

  /** `taskFilter`; an absent field places no constraint. */
  datatype TaskFilter = TaskFilter(
    dueDate: DueDateFilter,
    projectId: Option<string>,
    workspaceId: Option<string>,  // `project: { workspaceId }`
    columnId: Option<string>,
    parentId: Option<string>,
    priority: Option<string>,
    status: Option<string>)

  /** The query parameters; `page` and `pageSize` already through `parseInt`. */
  datatype TaskQueryParams = TaskQueryParams(
    page: Option<int>,
    pageSize: Option<int>,
    status: Option<string>,
    from: Option<string>,
    to: Option<string>,
    projectId: Option<string>,
    workspaceId: Option<string>,
    columnId: Option<string>,
    dir: Option<string>,
    parentId: Option<string>,
    priority: Option<string>)

  /** The `findMany` arguments, ordered by `createdAt`. */
  datatype TaskQuery = TaskQuery(skip: int, take: int, where: TaskFilter, createdAtAscending: bool)

  /** A filter field: set to the parameter when it is truthy, absent otherwise. */
  function IfTruthy(v: Option<string>): Option<string>
  {
    if Truthy(v) then v else None
  }

  /**
   * `findAll`: the query sent to the database and the `page` and `pageSize`
   * echoed in the response.
   */
  method FindAll(params: TaskQueryParams) returns (query: TaskQuery, page: int, pageSize: int)
    ensures page == params.page.GetOr(0)
    ensures pageSize == PageSize(params.pageSize) && pageSize != 0
    ensures query.skip == page * pageSize
    ensures query.take == Take(pageSize) && query.take <= MaxPageSize
    ensures query.createdAtAscending <==> params.dir == Some("asc")
    ensures Truthy(params.from) && Truthy(params.to) ==> query.where.dueDate == Within(params.from.value, params.to.value)
    ensures Truthy(params.from) && !Truthy(params.to) ==> query.where.dueDate == OnOrAfter(params.from.value)
    ensures !Truthy(params.from) && Truthy(params.to) ==> query.where.dueDate == OnOrBefore(params.to.value)
    ensures !Truthy(params.from) && !Truthy(params.to) ==> query.where.dueDate == NoDueDate
    ensures query.where.projectId == IfTruthy(params.projectId)
    ensures query.where.workspaceId == IfTruthy(params.workspaceId)
    ensures query.where.columnId == IfTruthy(params.columnId)
    ensures query.where.parentId == IfTruthy(params.parentId)
    ensures query.where.priority == IfTruthy(params.priority)
    ensures query.where.status == IfTruthy(params.status)
  {
    page := Page(params.page);
    pageSize := PageSize(params.pageSize);

    var taskFilter := TaskFilter(NoDueDate, None, None, None, None, None, None);
    if Truthy(params.from) && Truthy(params.to) {
      taskFilter := taskFilter.(dueDate := Within(params.from.value, params.to.value));
    } else if Truthy(params.from) {
      taskFilter := taskFilter.(dueDate := OnOrAfter(params.from.value));
    } else if Truthy(params.to) {
      taskFilter := taskFilter.(dueDate := OnOrBefore(params.to.value));
    }

    if Truthy(params.projectId) {
      taskFilter := taskFilter.(projectId := params.projectId);
    }
    if Truthy(params.workspaceId) {
      taskFilter := taskFilter.(workspaceId := params.workspaceId);
    }
    if Truthy(params.columnId) {
      taskFilter := taskFilter.(columnId := params.columnId);
    }
    if Truthy(params.parentId) {
      taskFilter := taskFilter.(parentId := params.parentId);
    }
    if Truthy(params.priority) {
      taskFilter := taskFilter.(priority := params.priority);
    }
    if Truthy(params.status) {
      taskFilter := taskFilter.(status := params.status);
    }

    query := TaskQuery(Skip(page, pageSize), Take(pageSize), taskFilter, params.dir == Some("asc"));
  }

  /** A task row; `status` and `priority` absent mean the column's default. */
  datatype Task = Task(
    id: string,
    name: Option<string>,
    description: Option<string>,
    status: Option<TaskStatus>,
    dueDate: Option<string>,
    priority: Option<TaskPriority>,
    workspaceId: string,
    projectId: Option<string>,
    columnId: Option<string>,
    parentId: Option<string>,
    completedAt: Option<int>)

  /** The fields `create` and `update` read from their DTOs. */
  datatype TaskDto = TaskDto(
    name: Option<string>,
    description: Option<string>,
    status: Option<TaskStatus>,
    dueDate: Option<string>,
    priority: Option<TaskPriority>,
    workspaceId: Option<string>,
    projectId: Option<string>,
    columnId: Option<string>,
    parentId: Option<string>)

  /**
   * The checks `create` makes before inserting, in order: the parent task,
   * then the project, then the column, each only when its id is given; the
   * first that finds nothing decides the exception (a missing column throws
   * `TaskNotFoundException` too).
   */
  function CreateCheck(dto: TaskDto, taskIds: set<string>, projectIds: set<string>, columnIds: set<string>): (failure: Option<HttpException>)
    ensures failure.None? <==>
            && (Truthy(dto.parentId) ==> dto.parentId.value in taskIds)
            && (Truthy(dto.projectId) ==> dto.projectId.value in projectIds)
            && (Truthy(dto.columnId) ==> dto.columnId.value in columnIds)
    ensures failure.Some? ==> failure.value in {TaskNotFoundException, ProjectNotFoundException}
  {
    if Truthy(dto.parentId) && dto.parentId.value !in taskIds then Some(TaskNotFoundException)
    else if Truthy(dto.projectId) && dto.projectId.value !in projectIds then Some(ProjectNotFoundException)
    else if Truthy(dto.columnId) && dto.columnId.value !in columnIds then Some(TaskNotFoundException)
    else None
  }

  /** The check order: a missing parent is reported whatever else is missing. */
  lemma MissingParentReportedFirst(dto: TaskDto, taskIds: set<string>, projectIds: set<string>, columnIds: set<string>)
    requires Truthy(dto.parentId) && dto.parentId.value !in taskIds
    ensures CreateCheck(dto, taskIds, projectIds, columnIds) == Some(TaskNotFoundException)
  {
  }

  /** The check order: with the parent found, a missing project is reported before a missing column. */
  lemma MissingProjectBeforeColumn(dto: TaskDto, taskIds: set<string>, projectIds: set<string>, columnIds: set<string>)
    requires !(Truthy(dto.parentId) && dto.parentId.value !in taskIds)
    requires Truthy(dto.projectId) && dto.projectId.value !in projectIds
    ensures CreateCheck(dto, taskIds, projectIds, columnIds) == Some(ProjectNotFoundException)
  {
  }

  /**
   * The row `create` inserts under `id`; optional references given as empty
   * strings are left out. `workspaceId` is required of a create request.
   */
  function NewTask(id: string, dto: TaskDto): Task
    requires dto.workspaceId.Some?
  {
    Task(id, dto.name, dto.description, dto.status, dto.dueDate, dto.priority,
         dto.workspaceId.value, IfTruthy(dto.projectId), IfTruthy(dto.columnId), IfTruthy(dto.parentId), None)
  }

  /**
   * The row after `update`: a field the DTO leaves undefined is unchanged
   * (the id references also when given as an empty string), and
   * `completedAt` is set to the current time when the new status is
   * COMPLETED and otherwise left as it was.
   */
  function ApplyUpdate(task: Task, dto: TaskDto, now: int): (updated: Task)
    ensures updated.id == task.id
    ensures dto.status == Some(COMPLETED) ==> updated.completedAt == Some(now)
    ensures dto.status != Some(COMPLETED) ==> updated.completedAt == task.completedAt
  {
    Task(task.id,
         if dto.name.Some? then dto.name else task.name,
         if dto.description.Some? then dto.description else task.description,
         if dto.status.Some? then dto.status else task.status,
         if dto.dueDate.Some? then dto.dueDate else task.dueDate,
         if dto.priority.Some? then dto.priority else task.priority,
         if Truthy(dto.workspaceId) then dto.workspaceId.value else task.workspaceId,
         if Truthy(dto.projectId) then dto.projectId else task.projectId,
         if Truthy(dto.columnId) then dto.columnId else task.columnId,
         if Truthy(dto.parentId) then dto.parentId else task.parentId,
         if dto.status == Some(COMPLETED) then Some(now) else task.completedAt)
  }

  /**
   * `completedAt` changes only through an update that completes the task,
   * and an update that moves a completed task back to another status keeps
   * the old completion time.
   */
  lemma CompletedAtOnlyOnCompletion(task: Task, dto: TaskDto, now: int)
    ensures ApplyUpdate(task, dto, now).completedAt != task.completedAt ==>
            ApplyUpdate(task, dto, now).status == Some(COMPLETED)
    ensures dto.status.Some? && dto.status != Some(COMPLETED) ==>
            ApplyUpdate(task, dto, now).completedAt == task.completedAt &&
            ApplyUpdate(task, dto, now).status == dto.status
  {
  }

  /** An update with every field undefined leaves the row as it was. */
  lemma EmptyUpdateIsIdentity(task: Task, now: int)
    ensures ApplyUpdate(task, TaskDto(None, None, None, None, None, None, None, None, None), now) == task
  {
  }

  class TasksService {
    var tasks: map<string, Task>
    var projectIds: set<string>
    var columnIds: set<string>

    /**
     * `create`: the reference checks in order, and only then the insert under
     * the generated `newId` (a clash with an existing id is the database's
     * unique-constraint error).
     */
    method Create(dto: TaskDto, newId: string) returns (r: Result<Task, HttpException>)
      requires dto.workspaceId.Some?
      modifies this`tasks
      ensures var check := CreateCheck(dto, old(tasks).Keys, projectIds, columnIds);
        && (check.Some? ==> r == Err(check.value) && tasks == old(tasks))
        && (check.None? && newId in old(tasks) ==>
              r == Err(DatabaseError(UniqueConstraintViolation)) && tasks == old(tasks))
        && (check.None? && newId !in old(tasks) ==>
              r == Ok(NewTask(newId, dto)) && tasks == old(tasks)[newId := NewTask(newId, dto)])
    {
      if Truthy(dto.parentId) {
        if dto.parentId.value !in tasks {
          return Err(TaskNotFoundException);
        }
      }
      if Truthy(dto.projectId) {
        if dto.projectId.value !in projectIds {
          return Err(ProjectNotFoundException);
        }
      }
      if Truthy(dto.columnId) {
        if dto.columnId.value !in columnIds {
          return Err(TaskNotFoundException);
        }
      }
      if newId in tasks {
        return Err(DatabaseError(UniqueConstraintViolation));
      }
      var task := NewTask(newId, dto);
      tasks := tasks[newId := task];
      return Ok(task);
    }

    /** `update`: `TaskNotFoundException` for an unknown id, else `ApplyUpdate` at time `now`. */
    method Update(id: string, dto: TaskDto, now: int) returns (r: Result<Task, HttpException>)
      modifies this`tasks
      ensures id !in old(tasks) ==> r == Err(TaskNotFoundException) && tasks == old(tasks)
      ensures id in old(tasks) ==>
        var updated := ApplyUpdate(old(tasks)[id], dto, now);
        r == Ok(updated) && tasks == old(tasks)[id := updated]
    {
      if id !in tasks {
        return Err(TaskNotFoundException);
      }
      var updated := ApplyUpdate(tasks[id], dto, now);
      tasks := tasks[id := updated];
      return Ok(updated);
    }
  }
}
