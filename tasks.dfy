/** The task repository (`TaskService`): an array of tasks changed in place by
    `push`, index assignment and `splice`, and a listing that keeps exact
    assignee and category matches and cuts one page out of them. */
module Tasks {
  import opened Common

  datatype TaskStatus = Pending | Completed

  /** A stored task. The controller stores the request body as given, so every
      field that comes from the body may be absent; `id`, `status` and
      `creationDate` are always set by `createTask`, though a later update
      body may replace any of them. The creation time is a number. */
  datatype Task = Task(
    id: string,
    title: Option<string>,
    description: Option<string>,
    dueDate: Option<string>,
    assignedTo: Option<string>,
    category: Option<string>,
    status: TaskStatus,
    createdAt: Option<string>,
    createdBy: Option<string>,
    creationDate: int)

  /** A request body: the fields of the `Task` interface, each possibly absent.
      It is both what `createTask` receives and what `updateTask` merges;
      `createTask` overrides its `id`, `status` and `creationDate`. */
  datatype TaskBody = TaskBody(
    id: Option<string>,
    title: Option<string>,
    description: Option<string>,
    dueDate: Option<string>,
    assignedTo: Option<string>,
    category: Option<string>,
    status: Option<TaskStatus>,
    createdAt: Option<string>,
    createdBy: Option<string>,
    creationDate: Option<int>)

  const NoChange := TaskBody(None, None, None, None, None, None, None, None, None, None)

  function Key(t: Task): string {
    t.id
  }

  /** `{ ...t, ...p }`: every field present in the body replaces the stored one. */
  function Merge(t: Task, p: TaskBody): Task {
    Task(p.id.GetOr(t.id), p.title.OrElse(t.title), p.description.OrElse(t.description),
         p.dueDate.OrElse(t.dueDate), p.assignedTo.OrElse(t.assignedTo), p.category.OrElse(t.category),
         p.status.GetOr(t.status), p.createdAt.OrElse(t.createdAt), p.createdBy.OrElse(t.createdBy),
         p.creationDate.GetOr(t.creationDate))
  }

  /** Laws of the shallow merge: an empty body changes nothing, and merging the
      same body twice is merging it once. */
  lemma MergeLaws(t: Task, p: TaskBody)
    ensures Merge(t, NoChange) == t
    ensures Merge(Merge(t, p), p) == Merge(t, p)
    ensures p.creationDate.Some? ==> Merge(t, p).creationDate == p.creationDate.value
    ensures p.creationDate.None? ==> Merge(t, p).creationDate == t.creationDate
  {
  }

  /** The record `createTask` builds: the body's fields, a fresh id, status
      Pending whatever the body says, and the creation time. */
  function NewTask(s: seq<Task>, task: TaskBody, now: int): (t: Task)
    ensures forall j :: 0 <= j < |s| ==> s[j].id != t.id
    ensures t.status == Pending && t.creationDate == now
    ensures && t.title == task.title && t.description == task.description && t.dueDate == task.dueDate
            && t.assignedTo == task.assignedTo && t.category == task.category
            && t.createdAt == task.createdAt && t.createdBy == task.createdBy
  {
    Task(FreshKey(s, Key), task.title, task.description, task.dueDate, task.assignedTo, task.category,
         Pending, task.createdAt, task.createdBy, now)
  }

  /** Creating keeps ids unique, and deleting does too. */
  lemma CreateDeleteKeepUniqueIds(s: seq<Task>, task: TaskBody, now: int, id: string)
    requires UniqueKeys(s, Key)
    ensures UniqueKeys(s + [NewTask(s, task, now)], Key)
    ensures UniqueKeys(DeleteFirst(s, Key, id).1, Key)
  {
    AppendFreshKeepsUnique(s, Key, NewTask(s, task, now));
    DeleteKeepsUnique(s, Key, id);
  }

  /** `task.assignedTo === assignedTo`. */
  function AssignedTo(assignedTo: string): Task -> bool {
    (t: Task) => t.assignedTo == Some(assignedTo)
  }

  /** `task.category === category` (equality, not containment). */
  function InCategory(category: string): Task -> bool {
    (t: Task) => t.category == Some(category)
  }

  /** The tasks `getAllTasks` keeps before slicing. */
  function FilteredTasks(s: seq<Task>, assignedTo: Option<string>, category: Option<string>): seq<Task> {
    var byAssignee := if Truthy(assignedTo) then Filter(s, AssignedTo(assignedTo.value)) else s;
    if Truthy(category) then Filter(byAssignee, InCategory(category.value)) else byAssignee
  }

  /** Exactly the stored tasks with that assignee and that category are kept. */
  lemma FilteredTasksExactly(s: seq<Task>, assignedTo: Option<string>, category: Option<string>, t: Task)
    ensures t in FilteredTasks(s, assignedTo, category) <==>
              && t in s
              && (Truthy(assignedTo) ==> t.assignedTo == assignedTo)
              && (Truthy(category) ==> t.category == category)
  {
    var byAssignee := if Truthy(assignedTo) then Filter(s, AssignedTo(assignedTo.value)) else s;
    if t in s && (Truthy(assignedTo) ==> t.assignedTo == assignedTo) {
      var i :| 0 <= i < |s| && s[i] == t;
      assert t in byAssignee;
      var k :| 0 <= k < |byAssignee| && byAssignee[k] == t;
      if Truthy(category) && t.category == category {
        assert t in Filter(byAssignee, InCategory(category.value));
      }
    }
    if t in FilteredTasks(s, assignedTo, category) {
      var k :| 0 <= k < |FilteredTasks(s, assignedTo, category)| && FilteredTasks(s, assignedTo, category)[k] == t;
      assert t in byAssignee;
    }
  }

  /** `getAllTasks(page, limit, assignedTo, category)`: the kept tasks sliced at
      `(page - 1) * limit .. page * limit`; no summary. */
  function ListTasks(s: seq<Task>, page: int, limit: int, assignedTo: Option<string>, category: Option<string>)
    : (rows: seq<Task>)
    ensures |rows| <= |FilteredTasks(s, assignedTo, category)|
    ensures forall k :: 0 <= k < |rows| ==> rows[k] in FilteredTasks(s, assignedTo, category)
  {
    JsSlice(FilteredTasks(s, assignedTo, category), (page - 1) * limit, page * limit)
  }

  /** For a page from 1 on, the listing is the window of the kept tasks that
      starts at `(page - 1) * limit`: at most `limit` tasks, in store order. */
  lemma ListTasksWindow(s: seq<Task>, page: int, limit: int, assignedTo: Option<string>, category: Option<string>)
    requires page >= 1 && limit >= 1
    ensures var f := FilteredTasks(s, assignedTo, category);
            var rows := ListTasks(s, page, limit, assignedTo, category);
            var start := (page - 1) * limit;
            && |rows| <= limit
            && (start >= |f| ==> rows == [])
            && (forall k :: 0 <= k < |rows| ==> start + k < |f| && rows[k] == f[start + k])
  {
    var start := (page - 1) * limit;
    assert 0 <= start by { MulNonNegative(page - 1, limit); }
    assert page * limit == start + limit;
    JsSliceWindow(FilteredTasks(s, assignedTo, category), start, limit);
  }

  /** The start of a page from 1 on is never negative. */
  lemma MulNonNegative(a: int, b: int)
    requires 0 <= a && 0 <= b
    ensures 0 <= a * b
  {
  }

  /** The in-memory task repository. */
  class TaskService {
    var tasks: seq<Task>

    constructor ()
      ensures tasks == []
    {
      tasks := [];
    }

    /** `createTask`: pushes the body as a new task with a fresh id and status
        Pending, and returns it. */
    method CreateTask(task: TaskBody, now: int) returns (t: Task)
      modifies this
      ensures tasks == old(tasks) + [t]
      ensures t == NewTask(old(tasks), task, now)
      ensures forall j :: 0 <= j < |old(tasks)| ==> old(tasks)[j].id != t.id
    {
      t := NewTask(tasks, task, now);
      tasks := tasks + [t];
    }

    /** `getTaskById`: the first task with this id, or None when there is none. */
    function GetTaskById(id: string): (r: Option<Task>)
      reads this
      ensures r.None? <==> forall j :: 0 <= j < |tasks| ==> tasks[j].id != id
      ensures r.Some? ==> exists i :: 0 <= i < |tasks| && tasks[i] == r.value && r.value.id == id
                              && forall j :: 0 <= j < i ==> tasks[j].id != id
    {
      var r := Lookup(tasks, Key, id);
      if r.Some? then
        var i := FirstIndex(tasks, Key, id).value;
        assert tasks[i] == r.value;
        r
      else r
    }

    /** `updateTask`: merges the body into the first task with this id and
        returns the merged record; None, with nothing changed, when the id is
        absent. */
    method UpdateTask(id: string, updatedTask: TaskBody) returns (r: Option<Task>)
      modifies this
      ensures (r, tasks) == UpdateFirst(old(tasks), Key, Merge, id, updatedTask)
    {
      var index := FirstIndex(tasks, Key, id);
      if index.Some? {
        var i := index.value;
        tasks := tasks[i := Merge(tasks[i], updatedTask)];
        return Some(tasks[i]);
      }
      return None;
    }

    /** `deleteTask`: splices out the first task with this id and reports
        whether there was one. */
    method DeleteTask(id: string) returns (ok: bool)
      modifies this
      ensures (ok, tasks) == DeleteFirst(old(tasks), Key, id)
    {
      var index := FirstIndex(tasks, Key, id);
      if index.Some? {
        var i := index.value;
        tasks := tasks[..i] + tasks[i + 1..];
        return true;
      }
      return false;
    }

    /** `getAllTasks`: every listed task is stored, has exactly the requested
        assignee and category when those are given, and the store is not
        changed. */
    method GetAllTasks(page: int, limit: int, assignedTo: Option<string>, category: Option<string>)
      returns (rows: seq<Task>)
      ensures rows == ListTasks(tasks, page, limit, assignedTo, category)
      ensures forall k :: 0 <= k < |rows| ==>
                && rows[k] in tasks
                && (Truthy(assignedTo) ==> rows[k].assignedTo == assignedTo)
                && (Truthy(category) ==> rows[k].category == category)
    {
      var filteredTasks := tasks;
      if Truthy(assignedTo) {
        filteredTasks := Filter(filteredTasks, AssignedTo(assignedTo.value));
      }
      if Truthy(category) {
        filteredTasks := Filter(filteredTasks, InCategory(category.value));
      }
      assert filteredTasks == FilteredTasks(tasks, assignedTo, category);
      var startIndex := (page - 1) * limit;
      var endIndex := page * limit;
      rows := JsSlice(filteredTasks, startIndex, endIndex);

      forall k | 0 <= k < |rows|
        ensures && rows[k] in tasks
                && (Truthy(assignedTo) ==> rows[k].assignedTo == assignedTo)
                && (Truthy(category) ==> rows[k].category == category)
      {
        FilteredTasksExactly(tasks, assignedTo, category, rows[k]);
      }
    }
  }
}
