/**
 * The in-memory application state (`state` of the dashboard): the task
 * list, the goal list and the focus log, each updated in place by the
 * managers. Persistence to the key-value store is not part of this model.
 */
module Dashboard {
  import opened Common
  import opened Tasks
  import opened Goals
  import opened FocusLog

  class State {
    var tasks: seq<Task>
    var goals: seq<Goal>
    var focusLogs: seq<FocusLogEntry>

    /** Every task has a completion date exactly when it is done. */
    predicate Consistent()
      reads this
    {
      AllConsistent(tasks)
    }

    constructor ()
      ensures tasks == [] && goals == [] && focusLogs == []
      ensures Consistent()
    {
      tasks := [];
      goals := [];
      focusLogs := [];
    }

    /** `addTask`: build the record and `unshift` it onto the task list. */
    method AddTask(input: TaskInput, id: Id, today: Day)
      requires IdFresh(tasks, id)
      modifies this`tasks
      ensures tasks == [NewTask(input, id, today)] + old(tasks)
      ensures tasks[0].completedDate == (if input.status == Done then Some(today) else None)
      ensures old(Consistent()) ==> Consistent()
    {
      var task := NewTask(input, id, today);
      tasks := [task] + tasks;
    }

    /** `updateTask`: reassign the list to its patched copy. */
    method UpdateTask(id: Id, patch: TaskPatch, today: Day)
      modifies this`tasks
      ensures tasks == Tasks.UpdateTask(old(tasks), id, patch, today)
      ensures old(Consistent()) ==> Consistent()
    {
      tasks := Tasks.UpdateTask(tasks, id, patch, today);
    }

    /** `deleteTask`: reassign the list to its filtered copy. */
    method DeleteTask(id: Id)
      modifies this`tasks
      ensures tasks == Tasks.DeleteTask(old(tasks), id)
      ensures old(Consistent()) ==> Consistent()
    {
      tasks := Tasks.DeleteTask(tasks, id);
    }

    /** `clearDoneTasks`: keep only the tasks that are not done. */
    method ClearDoneTasks()
      modifies this`tasks
      ensures tasks == Tasks.ClearDoneTasks(old(tasks))
      ensures CountStatus(tasks, Done) == 0
      ensures old(Consistent()) ==> Consistent()
    {
      tasks := Tasks.ClearDoneTasks(tasks);
      ClearDoneIdempotent(old(tasks));
    }

    /** `addGoal`: `unshift` a goal with no subtasks. */
    method AddGoal(title: string, id: Id)
      requires GoalIdFresh(goals, id)
      modifies this`goals
      ensures goals == [Goal(id, title, [])] + old(goals)
    {
      goals := [Goal(id, title, [])] + goals;
    }

    method DeleteGoal(id: Id)
      modifies this`goals
      ensures goals == Goals.DeleteGoal(old(goals), id)
    {
      goals := Goals.DeleteGoal(goals, id);
    }

    method AddSubtask(goalId: Id, subId: Id, text: string)
      requires SubtaskIdFresh(goals, subId)
      modifies this`goals
      ensures goals == Goals.AddSubtask(old(goals), goalId, subId, text)
    {
      goals := Goals.AddSubtask(goals, goalId, subId, text);
    }

    method ToggleSubtask(goalId: Id, subId: Id)
      modifies this`goals
      ensures goals == Goals.ToggleSubtask(old(goals), goalId, subId)
    {
      goals := Goals.ToggleSubtask(goals, goalId, subId);
    }

    method DeleteSubtask(goalId: Id, subId: Id)
      modifies this`goals
      ensures goals == Goals.DeleteSubtask(old(goals), goalId, subId)
    {
      goals := Goals.DeleteSubtask(goals, goalId, subId);
    }

    /** `logFocusSession`: `push` one entry dated today. */
    method LogFocusSession(minutes: nat, today: Day)
      modifies this`focusLogs
      ensures focusLogs == old(focusLogs) + [FocusLogEntry(today, minutes, Focus)]
    {
      focusLogs := focusLogs + [FocusLogEntry(today, minutes, Focus)];
    }
  }
}
