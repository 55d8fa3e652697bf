/**
 * The goal manager: weekly goals with ordered subtasks, the collection
 * updates behind `deleteGoal`, `addSubtask`, `toggleSubtask` and
 * `deleteSubtask`, and the progress percentage shown on each goal card.
 * The in-place `unshift` of `addGoal` is `Dashboard.State.AddGoal`.
 */
module Goals {
  import opened Common

  datatype Subtask = Subtask(id: Id, text: string, done: bool)
  datatype Goal = Goal(id: Id, title: string, subtasks: seq<Subtask>)

  function GoalId(g: Goal): Id { g.id }
  function SubtaskId(s: Subtask): Id { s.id }

  predicate GoalIdFresh(goals: seq<Goal>, id: Id)
  {
    forall g :: g in goals ==> g.id != id
  }

  /** No subtask of any goal carries `subId` yet. */
  predicate SubtaskIdFresh(goals: seq<Goal>, subId: Id)
  {
    forall g, s :: g in goals && s in g.subtasks ==> s.id != subId
  }

  /** `goals.filter((g) => g.id !== id)`. */
  function DeleteGoal(goals: seq<Goal>, id: Id): (r: seq<Goal>)
    ensures forall g :: g in r <==> g in goals && g.id != id
    ensures GoalIdFresh(goals, id) ==> r == goals
  {
    if GoalIdFresh(goals, id) then
      RemoveKeyAbsent(goals, GoalId, id);
      RemoveKey(goals, GoalId, id)
    else
      RemoveKey(goals, GoalId, id)
  }

  /** Deleting the fresh goal that `addGoal` just put first restores the previous list. */
  lemma DeleteGoalUndoesAdd(goals: seq<Goal>, id: Id, title: string)
    requires GoalIdFresh(goals, id)
    ensures DeleteGoal([Goal(id, title, [])] + goals, id) == goals
  {
    RemoveKeyAppend([Goal(id, title, [])], goals, GoalId, id);
    RemoveKeyAbsent(goals, GoalId, id);
  }

  /** `deleteGoal` keeps the remaining goals in their original order. */
  lemma DeleteGoalAppend(a: seq<Goal>, b: seq<Goal>, id: Id)
    ensures DeleteGoal(a + b, id) == DeleteGoal(a, id) + DeleteGoal(b, id)
  {
    RemoveKeyAppend(a, b, GoalId, id);
  }

  /** The subtask filter of `deleteSubtask` keeps the remaining subtasks in their original order. */
  lemma DeleteSubtaskKeepsOrder(goals: seq<Goal>, goalId: Id, subId: Id, i: nat, a: seq<Subtask>, b: seq<Subtask>)
    requires i < |goals| && goals[i].id == goalId && goals[i].subtasks == a + b
    ensures DeleteSubtask(goals, goalId, subId)[i].subtasks ==
      RemoveKey(a, SubtaskId, subId) + RemoveKey(b, SubtaskId, subId)
  {
    RemoveKeyAppend(a, b, SubtaskId, subId);
  }

  /** The goal-level frame shared by the three subtask operations. */
  predicate OnlyTargetChanged(goals: seq<Goal>, r: seq<Goal>, goalId: Id)
  {
    && |r| == |goals|
    && (forall i :: 0 <= i < |r| ==> r[i].id == goals[i].id && r[i].title == goals[i].title)
    && (forall i :: 0 <= i < |r| && goals[i].id != goalId ==> r[i] == goals[i])
  }

  /** The `map` of `addSubtask`: the matching goal gets one more, unfinished, subtask. */
  function AddSubtask(goals: seq<Goal>, goalId: Id, subId: Id, text: string): (r: seq<Goal>)
    ensures OnlyTargetChanged(goals, r, goalId)
    ensures forall i :: 0 <= i < |r| && goals[i].id == goalId ==>
      var n := |goals[i].subtasks|;
      && |r[i].subtasks| == n + 1
      && r[i].subtasks[..n] == goals[i].subtasks
      && r[i].subtasks[n] == Subtask(subId, text, false)
  {
    seq(|goals|, i requires 0 <= i < |goals| =>
      if goals[i].id == goalId
      then goals[i].(subtasks := goals[i].subtasks + [Subtask(subId, text, false)])
      else goals[i])
  }

  /** The inner `map` of `toggleSubtask`. */
  function ToggleIn(subtasks: seq<Subtask>, subId: Id): (r: seq<Subtask>)
    ensures |r| == |subtasks|
    ensures forall j :: 0 <= j < |r| ==>
      r[j].id == subtasks[j].id && r[j].text == subtasks[j].text &&
      r[j].done == (if subtasks[j].id == subId then !subtasks[j].done else subtasks[j].done)
  {
    seq(|subtasks|, j requires 0 <= j < |subtasks| =>
      if subtasks[j].id == subId then subtasks[j].(done := !subtasks[j].done) else subtasks[j])
  }

  /** `toggleSubtask`: flip the `done` flag of the matching subtasks of the matching goal. */
  function ToggleSubtask(goals: seq<Goal>, goalId: Id, subId: Id): (r: seq<Goal>)
    ensures OnlyTargetChanged(goals, r, goalId)
    ensures forall i :: 0 <= i < |r| && goals[i].id == goalId ==>
      r[i].subtasks == ToggleIn(goals[i].subtasks, subId)
  {
    seq(|goals|, i requires 0 <= i < |goals| =>
      if goals[i].id == goalId
      then goals[i].(subtasks := ToggleIn(goals[i].subtasks, subId))
      else goals[i])
  }

  /** `deleteSubtask`: filter the matching goal's subtasks by id; the goal list keeps its length. */
  function DeleteSubtask(goals: seq<Goal>, goalId: Id, subId: Id): (r: seq<Goal>)
    ensures OnlyTargetChanged(goals, r, goalId)
    ensures forall i, s :: 0 <= i < |r| && goals[i].id == goalId ==>
      (s in r[i].subtasks <==> s in goals[i].subtasks && s.id != subId)
    ensures forall i :: 0 <= i < |r| && goals[i].id == goalId ==>
      r[i].subtasks == RemoveKey(goals[i].subtasks, SubtaskId, subId)
  {
    seq(|goals|, i requires 0 <= i < |goals| =>
      if goals[i].id == goalId
      then goals[i].(subtasks := RemoveKey(goals[i].subtasks, SubtaskId, subId))
      else goals[i])
  }

  /** Toggling the same subtask twice gives back the original subtasks. */
  lemma ToggleInTwice(subtasks: seq<Subtask>, subId: Id)
    ensures ToggleIn(ToggleIn(subtasks, subId), subId) == subtasks
  {
    var once := ToggleIn(subtasks, subId);
    var twice := ToggleIn(once, subId);
    assert |twice| == |subtasks|;
    forall j | 0 <= j < |subtasks|
      ensures twice[j] == subtasks[j]
    {
      assert once[j].id == subtasks[j].id;
    }
  }

  /** `toggleSubtask` is an involution on the whole goal list. */
  lemma ToggleSubtaskTwice(goals: seq<Goal>, goalId: Id, subId: Id)
    ensures ToggleSubtask(ToggleSubtask(goals, goalId, subId), goalId, subId) == goals
  {
    var once := ToggleSubtask(goals, goalId, subId);
    var twice := ToggleSubtask(once, goalId, subId);
    forall i | 0 <= i < |goals|
      ensures twice[i] == goals[i]
    {
      if goals[i].id == goalId {
        ToggleInTwice(goals[i].subtasks, subId);
      }
    }
  }

  /** Deleting the fresh subtask that `addSubtask` just appended restores the goal list. */
  lemma DeleteSubtaskUndoesAdd(goals: seq<Goal>, goalId: Id, subId: Id, text: string)
    requires SubtaskIdFresh(goals, subId)
    ensures DeleteSubtask(AddSubtask(goals, goalId, subId, text), goalId, subId) == goals
  {
    var added := AddSubtask(goals, goalId, subId, text);
    var back := DeleteSubtask(added, goalId, subId);
    forall i | 0 <= i < |goals|
      ensures back[i] == goals[i]
    {
      if goals[i].id == goalId {
        var subs := goals[i].subtasks;
        assert added[i].subtasks == subs + [Subtask(subId, text, false)];
        RemoveKeyAppend(subs, [Subtask(subId, text, false)], SubtaskId, subId);
        assert forall s :: s in subs ==> s.id != subId by {
          forall s | s in subs ensures s.id != subId {
            assert goals[i] in goals;
          }
        }
        RemoveKeyAbsent(subs, SubtaskId, subId);
        assert RemoveKey([Subtask(subId, text, false)], SubtaskId, subId) == [];
      }
    }
  }

  /** Number of finished subtasks (`subtasks.filter((s) => s.done).length`). */
  function DoneCount(subtasks: seq<Subtask>): (n: nat)
    ensures n <= |subtasks|
    ensures n == |subtasks| <==> forall s :: s in subtasks ==> s.done
    ensures n == 0 <==> forall s :: s in subtasks ==> !s.done
  {
    if subtasks == [] then 0
    else (if subtasks[0].done then 1 else 0) + DoneCount(subtasks[1..])
  }

  /** The denominator of the progress bar: `subtasks.length || 1`. */
  function ShownTotal(g: Goal): (t: nat)
    ensures t >= 1 && t >= |g.subtasks|
    ensures |g.subtasks| > 0 ==> t == |g.subtasks|
    ensures |g.subtasks| == 0 ==> t == 1
  {
    if |g.subtasks| == 0 then 1 else |g.subtasks|
  }

  /**
   * `Math.round((done / total) * 100)`: the whole percentage nearest to
   * 100 * done / total, halves rounded up.
   */
  function Progress(g: Goal): (pct: nat)
    ensures pct <= 100
    ensures var t := ShownTotal(g);
            2 * t * pct <= 200 * DoneCount(g.subtasks) + t < 2 * t * (pct + 1)
  {
    var t := ShownTotal(g);
    var d := DoneCount(g.subtasks);
    DivBounds(200 * d + t, 2 * t);
    var q := (200 * d + t) / (2 * t);
    assert 2 * t * q <= 201 * t;
    QuotientAtMost100(q, t);
    q
  }

  lemma DivBounds(x: nat, y: nat)
    requires y > 0
    ensures y * (x / y) <= x < y * (x / y + 1)
  {
  }

  lemma QuotientAtMost100(q: int, t: nat)
    requires t > 0 && 2 * t * q <= 201 * t
    ensures q <= 100
  {
    assert 2 * t * q < 2 * t * 101;
    MulCancelLess(2 * t, q, 101);
  }

  /** Cancelling a positive factor from a strict inequality between products. */
  lemma MulCancelLess(k: int, a: int, b: int)
    requires k > 0 && k * a < k * b
    ensures a < b
  {
  }

  /** An untouched goal shows 0 %. */
  lemma ProgressNoneDone(g: Goal)
    requires DoneCount(g.subtasks) == 0
    ensures Progress(g) == 0
  {
    var t := ShownTotal(g);
    var p := Progress(g);
    assert 2 * t * p <= t;
    assert 2 * t * p < 2 * t * 1;
    MulCancelLess(2 * t, p, 1);
  }

  /** A goal whose every subtask is done shows 100 %. */
  lemma ProgressAllDone(g: Goal)
    requires |g.subtasks| > 0 && DoneCount(g.subtasks) == |g.subtasks|
    ensures Progress(g) == 100
  {
    var t := ShownTotal(g);
    var p := Progress(g);
    assert 200 * t + t < 2 * t * (p + 1);
    assert 2 * t * 100 < 2 * t * (p + 1);
    MulCancelLess(2 * t, 100, p + 1);
  }

  /** One of three subtasks done shows 33 %. */
  lemma ProgressOneOfThree(a: Subtask, b: Subtask, c: Subtask, id: Id, title: string)
    requires a.done && !b.done && !c.done
    ensures Progress(Goal(id, title, [a, b, c])) == 33
  {
    var g := Goal(id, title, [a, b, c]);
    assert DoneCount(g.subtasks) == 1 by {
      assert g.subtasks[1..] == [b, c];
      assert [b, c][1..] == [c];
    }
  }

  /**
   * A fresh goal with one added subtask, toggled once, shows that subtask
   * done and a progress of 100 %.
   */
  lemma ShipScenario(goals: seq<Goal>, goalId: Id, subId: Id)
    ensures var g1 := [Goal(goalId, "Ship v1", [])] + goals;
            var g2 := AddSubtask(g1, goalId, subId, "write spec");
            var g3 := ToggleSubtask(g2, goalId, subId);
            && g3[0].subtasks == [Subtask(subId, "write spec", true)]
            && DoneCount(g3[0].subtasks) == 1
            && Progress(g3[0]) == 100
  {
    var g1 := [Goal(goalId, "Ship v1", [])] + goals;
    var g2 := AddSubtask(g1, goalId, subId, "write spec");
    var g3 := ToggleSubtask(g2, goalId, subId);
    assert g2[0].subtasks == [Subtask(subId, "write spec", false)];
    assert g3[0].subtasks == [Subtask(subId, "write spec", true)];
    ProgressAllDone(g3[0]);
  }

  /** "Subtasks done" across all goals. */
  function SubtasksDone(goals: seq<Goal>): (n: nat)
    ensures n == 0 <==> forall g, s :: g in goals && s in g.subtasks ==> !s.done
  {
    if goals == [] then 0 else DoneCount(goals[0].subtasks) + SubtasksDone(goals[1..])
  }
}
