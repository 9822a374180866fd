/** The task handlers: the same chains of checks as for categories, but the
    task routes run no authentication, so `caller` (the id of `req.user`) is
    None for every request that arrives through them, and the ownership test
    compares two optional values. */
module TaskController {
  import opened Common
  import opened Http
  import opened Tasks

  const NotFound := "Task not found"

  /** The ownership test `task.createdBy !== currentUser?.id`, negated: both
      sides may be absent, and two absent sides are equal. */
  predicate OwnerOf(t: Task, caller: Option<string>) {
    t.createdBy == caller
  }

  /** `createTask`: stores the body as given (its `createdBy` included, and not
      the caller's id) and answers 201 with the stored record. */
  function CreateOutcome(s: seq<Task>, body: TaskBody, now: int): (r: (Response<Task>, seq<Task>))
    ensures r.0.code == 201 && r.0.status
    ensures |r.1| == |s| + 1 && r.1[..|s|] == s
    ensures r.0.data == Some(r.1[|s|])
    ensures r.1[|s|].createdBy == body.createdBy && r.1[|s|].title == body.title
    ensures r.1[|s|].status == Pending
    ensures forall j :: 0 <= j < |s| ==> s[j].id != r.1[|s|].id
    ensures r.1[|s|] == NewTask(s, body, now)
  {
    var t := NewTask(s, body, now);
    assert (s + [t])[..|s|] == s;
    (Ok(201, "Task created successfully", Some(t)), s + [t])
  }

  /** `updateTask`: 404 when no task has the id, else 403 when the caller does
      not own it, else 200 with the merged record. */
  function UpdateOutcome(s: seq<Task>, caller: Option<string>, id: string, body: TaskBody)
    : (r: (Response<Task>, seq<Task>))
    ensures r.0.code == 404 <==> forall j :: 0 <= j < |s| ==> s[j].id != id
    ensures r.0.code != 200 ==> r.1 == s && r.0.data.None? && !r.0.status
    ensures r.0.code == 200 || r.0.code == 403 || r.0.code == 404
    ensures FirstIndex(s, Key, id).Some? ==> var i := FirstIndex(s, Key, id).value;
              && (r.0.code == 403 <==> !OwnerOf(s[i], caller))
              && (r.0.code == 200 ==> r.1 == s[i := Merge(s[i], body)] && r.0.data == Some(Merge(s[i], body)))
  {
    match Lookup(s, Key, id)
    case None => (Fail(404, NotFound), s)
    case Some(existingTask) =>
      if !OwnerOf(existingTask, caller) then
        (Fail(403, "Forbidden: You are not authorized to update this task"), s)
      else
        var (updated, s') := UpdateFirst(s, Key, Merge, id, body);
        (Ok(200, "Task updated successfully", updated), s')
  }

  /** `deleteTask`: 404 when no task has the id, else 403 when the caller does
      not own it, else the task is spliced out and the answer is 200. The 500
      for a repository that reports nothing deleted cannot happen. */
  function DeleteOutcome(s: seq<Task>, caller: Option<string>, id: string): (r: (Response<Task>, seq<Task>))
    ensures r.0.code == 404 <==> forall j :: 0 <= j < |s| ==> s[j].id != id
    ensures r.0.code != 200 ==> r.1 == s && !r.0.status
    ensures r.0.code == 200 || r.0.code == 403 || r.0.code == 404
    ensures r.0.data.None?
    ensures FirstIndex(s, Key, id).Some? ==> var i := FirstIndex(s, Key, id).value;
              && (r.0.code == 403 <==> !OwnerOf(s[i], caller))
              && (r.0.code == 200 ==> r.1 == s[..i] + s[i + 1..])
  {
    match Lookup(s, Key, id)
    case None => (Fail(404, NotFound), s)
    case Some(taskToDelete) =>
      if !OwnerOf(taskToDelete, caller) then
        (Fail(403, "Forbidden: You are not authorized to delete this task"), s)
      else
        DeleteFirstSpec(s, Key, id);
        var (isDeleted, s') := DeleteFirst(s, Key, id);
        if !isDeleted then (Fail(500, "Failed to delete task"), s')
        else (Ok(200, "Task deleted successfully", None), s')
  }

  /** `getTaskById`: 404 when no task has the id, else 403 when the caller does
      not own it (with the message of the update handler), else 200 with the
      task. */
  function GetByIdOutcome(s: seq<Task>, caller: Option<string>, id: string): (r: Response<Task>)
    ensures r.code == 404 <==> forall j :: 0 <= j < |s| ==> s[j].id != id
    ensures r.code == 200 || r.code == 403 || r.code == 404
    ensures r.code != 200 ==> r.data.None? && !r.status
    ensures FirstIndex(s, Key, id).Some? ==> var i := FirstIndex(s, Key, id).value;
              && (r.code == 403 <==> !OwnerOf(s[i], caller))
              && (r.code == 200 ==> r.data == Some(s[i]))
  {
    match Lookup(s, Key, id)
    case None => Fail(404, NotFound)
    case Some(task) =>
      if !OwnerOf(task, caller) then Fail(403, "Forbidden: You are not authorized to update this task")
      else Ok(200, "Task fetched successfully", Some(task))
  }

  /** Through the unauthenticated routes (no caller), a task created with a
      `createdBy` can be neither read, changed nor deleted by anyone, while a
      task created without one is open to every request. */
  lemma {:induction false} AnonymousCallers(s: seq<Task>, body: TaskBody, now: int, patch: TaskBody)
    ensures var (_, s') := CreateOutcome(s, body, now);
            var id := s'[|s|].id;
            var code := if body.createdBy.Some? then 403 else 200;
            && UpdateOutcome(s', None, id, patch).0.code == code
            && DeleteOutcome(s', None, id).0.code == code
            && GetByIdOutcome(s', None, id).code == code
  {
    var (_, s') := CreateOutcome(s, body, now);
    var id := s'[|s|].id;
    LookupFirst(s', Key, id, |s|);
  }

  /** `getAllTasks` with the query's `page` and `limit` (1 and 10 when absent).
      The handler passes six arguments to a repository method of four, and
      JavaScript binds them by position: the repository's `assignedTo` filter
      receives the query's `searchQuery`, its `category` filter receives the
      query's `assignedTo`, and the query's `category` and the caller's id are
      dropped. */
  function ListOutcome(s: seq<Task>, caller: Option<string>, page: Option<int>, limit: Option<int>,
                       searchQuery: Option<string>, assignedTo: Option<string>, category: Option<string>)
    : (r: Response<seq<Task>>)
    ensures r.code == 200 && r.status
    ensures r.data == Some(ListTasks(s, page.GetOr(1), limit.GetOr(10), searchQuery, assignedTo))
    ensures forall k :: 0 <= k < |r.data.value| ==>
              && r.data.value[k] in s
              && (Truthy(searchQuery) ==> r.data.value[k].assignedTo == searchQuery)
              && (Truthy(assignedTo) ==> r.data.value[k].category == assignedTo)
  {
    var rows := ListTasks(s, page.GetOr(1), limit.GetOr(10), searchQuery, assignedTo);
    forall k | 0 <= k < |rows|
      ensures && rows[k] in s
              && (Truthy(searchQuery) ==> rows[k].assignedTo == searchQuery)
              && (Truthy(assignedTo) ==> rows[k].category == assignedTo)
    {
      FilteredTasksExactly(s, searchQuery, assignedTo, rows[k]);
    }
    Ok(200, "Tasks fetched successfully", Some(rows))
  }

  /** The listing ignores the query's `category` and the caller, and with no
      query parameters it is the first ten stored tasks. */
  lemma {:induction false} ListIgnoresCategoryAndCaller(s: seq<Task>, c1: Option<string>, c2: Option<string>,
                                                         page: Option<int>, limit: Option<int>,
                                                         searchQuery: Option<string>, assignedTo: Option<string>,
                                                         cat1: Option<string>, cat2: Option<string>)
    ensures ListOutcome(s, c1, page, limit, searchQuery, assignedTo, cat1)
         == ListOutcome(s, c2, page, limit, searchQuery, assignedTo, cat2)
    ensures ListOutcome(s, c1, None, None, None, None, cat1).data.value == s[..if |s| < 10 then |s| else 10]
  {
    ListTasksWindow(s, 1, 10, None, None);
  }

  // ---------------------------------------------------------------------
  // The handlers over the repository

  method CreateTask(svc: TaskService, body: TaskBody, now: int) returns (resp: Response<Task>)
    modifies svc
    ensures (resp, svc.tasks) == CreateOutcome(old(svc.tasks), body, now)
  {
    var newTask := svc.CreateTask(body, now);
    resp := Ok(201, "Task created successfully", Some(newTask));
  }

  method UpdateTask(svc: TaskService, caller: Option<string>, id: string, body: TaskBody)
    returns (resp: Response<Task>)
    modifies svc
    ensures (resp, svc.tasks) == UpdateOutcome(old(svc.tasks), caller, id, body)
  {
    var existingTask := svc.GetTaskById(id);
    if existingTask.None? {
      return Fail(404, NotFound);
    }
    if !OwnerOf(existingTask.value, caller) {
      return Fail(403, "Forbidden: You are not authorized to update this task");
    }
    var updatedTask := svc.UpdateTask(id, body);
    resp := Ok(200, "Task updated successfully", updatedTask);
  }

  method DeleteTask(svc: TaskService, caller: Option<string>, id: string) returns (resp: Response<Task>)
    modifies svc
    ensures (resp, svc.tasks) == DeleteOutcome(old(svc.tasks), caller, id)
  {
    var taskToDelete := svc.GetTaskById(id);
    if taskToDelete.None? {
      return Fail(404, NotFound);
    }
    if !OwnerOf(taskToDelete.value, caller) {
      return Fail(403, "Forbidden: You are not authorized to delete this task");
    }
    var isDeleted := svc.DeleteTask(id);
    if !isDeleted {
      return Fail(500, "Failed to delete task");
    }
    resp := Ok(200, "Task deleted successfully", None);
  }

  method GetTaskById(svc: TaskService, caller: Option<string>, id: string) returns (resp: Response<Task>)
    ensures resp == GetByIdOutcome(svc.tasks, caller, id)
  {
    var task := svc.GetTaskById(id);
    if task.None? {
      return Fail(404, NotFound);
    }
    if !OwnerOf(task.value, caller) {
      return Fail(403, "Forbidden: You are not authorized to update this task");
    }
    resp := Ok(200, "Task fetched successfully", task);
  }

  method GetAllTasks(svc: TaskService, caller: Option<string>, page: Option<int>, limit: Option<int>,
                     searchQuery: Option<string>, assignedTo: Option<string>, category: Option<string>)
    returns (resp: Response<seq<Task>>)
    ensures resp == ListOutcome(svc.tasks, caller, page, limit, searchQuery, assignedTo, category)
  {
    var tasks := svc.GetAllTasks(page.GetOr(1), limit.GetOr(10), searchQuery, assignedTo);
    resp := Ok(200, "Tasks fetched successfully", Some(tasks));
  }
}
