/**
 * The task manager: pure definitions of the task records and of the
 * collection updates behind `addTask`, `updateTask`, `deleteTask` and
 * `clearDoneTasks`. The in-place `unshift` and the reassignments of the
 * global collection are the methods of `Dashboard.State`.
 */
module Tasks {
  import opened Common

  datatype Status = Todo | InProgress | Done
  datatype Priority = Low | Medium | High

  datatype Task = Task(
    id: Id,
    title: string,
    category: string,
    priority: Priority,
    status: Status,
    dueTime: string,
    createdDate: Day,
    completedDate: Option<Day>)

  /** The form fields handed to `addTask`; a missing due time is `None`. */
  datatype TaskInput = TaskInput(
    title: string,
    category: string,
    priority: Priority,
    status: Status,
    dueTime: Option<string>)

  /** The partial object spread over a task by `updateTask`: `Some` fields override. */
  datatype TaskPatch = TaskPatch(
    title: Option<string>,
    category: Option<string>,
    priority: Option<Priority>,
    status: Option<Status>,
    dueTime: Option<string>)

  /** A patch that only changes the status, as the status drop-down sends it. */
  function StatusPatch(s: Status): TaskPatch
  {
    TaskPatch(None, None, None, Some(s), None)
  }

  function TaskId(t: Task): Id { t.id }

  /** The data-model invariant: a task has a completion date exactly when it is done. */
  predicate CompletionConsistent(t: Task)
  {
    t.completedDate.Some? <==> t.status == Done
  }

  predicate AllConsistent(tasks: seq<Task>)
  {
    forall t :: t in tasks ==> CompletionConsistent(t)
  }

  predicate IdFresh(tasks: seq<Task>, id: Id)
  {
    forall t :: t in tasks ==> t.id != id
  }

  function Override<T>(patch: Option<T>, current: T): T
  {
    if patch.Some? then patch.value else current
  }

  /** The record `addTask` builds before it puts it at the head of the list. */
  function NewTask(input: TaskInput, id: Id, today: Day): (t: Task)
    ensures t.id == id && t.createdDate == today
    ensures t.title == input.title && t.category == input.category
    ensures t.priority == input.priority && t.status == input.status
    ensures t.dueTime == if input.dueTime.Some? then input.dueTime.value else ""
    ensures CompletionConsistent(t)
    ensures t.completedDate.Some? ==> t.completedDate.value == today
  {
    Task(id, input.title, input.category, input.priority, input.status,
         if input.dueTime.Some? then input.dueTime.value else "",
         today,
         if input.status == Done then Some(today) else None)
  }

  /**
   * `{ ...t, ...updates }` followed by the completion-date rule: the date is
   * set to today whenever the merged status is Done, even if the patch did
   * not touch the status.
   */
  function Merge(t: Task, patch: TaskPatch, today: Day): (r: Task)
    ensures r.id == t.id && r.createdDate == t.createdDate
    ensures r.title == Override(patch.title, t.title)
    ensures r.category == Override(patch.category, t.category)
    ensures r.priority == Override(patch.priority, t.priority)
    ensures r.status == Override(patch.status, t.status)
    ensures r.dueTime == Override(patch.dueTime, t.dueTime)
    ensures CompletionConsistent(r)
    ensures r.completedDate.Some? ==> r.completedDate.value == today
  {
    var status := Override(patch.status, t.status);
    t.(title := Override(patch.title, t.title),
       category := Override(patch.category, t.category),
       priority := Override(patch.priority, t.priority),
       status := status,
       dueTime := Override(patch.dueTime, t.dueTime),
       completedDate := if status == Done then Some(today) else None)
  }

  /** `tasks.map(...)`: merge the patch into every task carrying `id`. */
  function UpdateTask(tasks: seq<Task>, id: Id, patch: TaskPatch, today: Day): (r: seq<Task>)
    ensures |r| == |tasks|
    ensures forall i :: 0 <= i < |r| ==> r[i].id == tasks[i].id
    ensures forall i :: 0 <= i < |r| && tasks[i].id != id ==> r[i] == tasks[i]
    ensures forall i :: 0 <= i < |r| && tasks[i].id == id ==>
      r[i] == Merge(tasks[i], patch, today) &&
      r[i].status == Override(patch.status, tasks[i].status) &&
      r[i].completedDate == (if r[i].status == Done then Some(today) else None)
    ensures IdFresh(tasks, id) ==> r == tasks
    ensures AllConsistent(tasks) ==> AllConsistent(r)
  {
    seq(|tasks|, i requires 0 <= i < |tasks| =>
      if tasks[i].id == id then Merge(tasks[i], patch, today) else tasks[i])
  }

  /** `tasks.filter((t) => t.id !== id)`. */
  function DeleteTask(tasks: seq<Task>, id: Id): (r: seq<Task>)
    ensures forall t :: t in r <==> t in tasks && t.id != id
    ensures IdFresh(tasks, id) ==> r == tasks
    ensures AllConsistent(tasks) ==> AllConsistent(r)
  {
    if IdFresh(tasks, id) then
      RemoveKeyAbsent(tasks, TaskId, id);
      RemoveKey(tasks, TaskId, id)
    else
      RemoveKey(tasks, TaskId, id)
  }

  function CountStatus(tasks: seq<Task>, s: Status): (n: nat)
    ensures n <= |tasks|
    ensures n == 0 <==> forall t :: t in tasks ==> t.status != s
  {
    if tasks == [] then 0
    else (if tasks[0].status == s then 1 else 0) + CountStatus(tasks[1..], s)
  }

  /** `tasks.filter((t) => t.status !== "Done")`. */
  function ClearDoneTasks(tasks: seq<Task>): (r: seq<Task>)
    ensures forall t :: t in r <==> t in tasks && t.status != Done
    ensures |r| == |tasks| - CountStatus(tasks, Done)
  {
    if tasks == [] then []
    else if tasks[0].status == Done then ClearDoneTasks(tasks[1..])
    else [tasks[0]] + ClearDoneTasks(tasks[1..])
  }

  /** Deleting the fresh id that `addTask` just used restores the previous list. */
  lemma DeleteUndoesAdd(tasks: seq<Task>, input: TaskInput, id: Id, today: Day)
    requires IdFresh(tasks, id)
    ensures DeleteTask([NewTask(input, id, today)] + tasks, id) == tasks
  {
    var t := NewTask(input, id, today);
    RemoveKeyAppend([t], tasks, TaskId, id);
    RemoveKeyAbsent(tasks, TaskId, id);
  }

  /** `deleteTask` keeps the survivors in order: it distributes over concatenation. */
  lemma DeleteTaskAppend(a: seq<Task>, b: seq<Task>, id: Id)
    ensures DeleteTask(a + b, id) == DeleteTask(a, id) + DeleteTask(b, id)
  {
    RemoveKeyAppend(a, b, TaskId, id);
  }

  /** `clearDoneTasks` keeps the non-done tasks in order. */
  lemma {:induction false} ClearDoneAppend(a: seq<Task>, b: seq<Task>)
    ensures ClearDoneTasks(a + b) == ClearDoneTasks(a) + ClearDoneTasks(b)
  {
    if a == [] {
      assert a + b == b;
    } else {
      var ab := a + b;
      assert ab[0] == a[0] && ab[1..] == a[1..] + b;
      ClearDoneAppend(a[1..], b);
      var rest := ClearDoneTasks(a[1..]) + ClearDoneTasks(b);
      if a[0].status == Done {
        assert ClearDoneTasks(ab) == rest;
      } else {
        assert ClearDoneTasks(ab) == [a[0]] + rest;
        assert ClearDoneTasks(a) == [a[0]] + ClearDoneTasks(a[1..]);
      }
    }
  }

  /** A list with no done task is left exactly as it was. */
  lemma {:induction false} ClearDoneNoop(tasks: seq<Task>)
    requires CountStatus(tasks, Done) == 0
    ensures ClearDoneTasks(tasks) == tasks
  {
    if tasks != [] {
      ClearDoneNoop(tasks[1..]);
    }
  }

  /** Clearing twice is clearing once; after a clear nothing is done or carries a date. */
  lemma ClearDoneIdempotent(tasks: seq<Task>)
    ensures ClearDoneTasks(ClearDoneTasks(tasks)) == ClearDoneTasks(tasks)
    ensures CountStatus(ClearDoneTasks(tasks), Done) == 0
    ensures AllConsistent(tasks) ==>
      forall t :: t in ClearDoneTasks(tasks) ==> t.completedDate == None
  {
    ClearDoneNoop(ClearDoneTasks(tasks));
  }

  /**
   * Setting the status to Done twice keeps it Done and moves the completion
   * date to the second call's day: the refresh quirk of `updateTask`.
   */
  lemma MarkDoneTwice(tasks: seq<Task>, id: Id, day1: Day, day2: Day, i: nat)
    requires i < |tasks| && tasks[i].id == id
    ensures var once := UpdateTask(tasks, id, StatusPatch(Done), day1);
            var twice := UpdateTask(once, id, StatusPatch(Done), day2);
            once[i].status == Done && once[i].completedDate == Some(day1) &&
            twice[i].status == Done && twice[i].completedDate == Some(day2)
  {
  }
}
