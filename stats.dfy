/**
 * The read-side aggregators behind the charts and the summary panels:
 * the trailing window of days, tasks completed per day, focus minutes per
 * day, the focus total over a range of days and the summary counts.
 * Calendar days are integers and `today` is a parameter.
 */
module Stats {
  import opened Common
  import opened Tasks
  import opened Goals
  import opened FocusLog

  /** The `n` days ending with `today`, oldest first: `[today - n + 1 .. today]`. */
  function Window(today: Day, n: int): (days: seq<Day>)
    ensures |days| == if n <= 0 then 0 else n
    ensures forall k :: 0 <= k < |days| ==> days[k] == today - |days| + 1 + k
    decreases n
  {
    if n <= 0 then [] else Window(today - 1, n - 1) + [today]
  }

  /** `buildLast7Days`: counts `i` down from 6 to 0 and pushes `today - i`. */
  method BuildLast7Days(today: Day) returns (days: seq<Day>)
    ensures days == Window(today, 7)
    ensures |days| == 7 && days[0] == today - 6 && days[6] == today
  {
    days := [];
    var i := 6;
    while i >= 0
      invariant -1 <= i <= 6
      invariant |days| == 6 - i
      invariant forall k :: 0 <= k < |days| ==> days[k] == today - 6 + k
    {
      days := days + [today - i];
      i := i - 1;
    }
    assert days == Window(today, 7);
  }

  // ---------------------------------------------------------------------
  // Tasks completed per day

  /** `tasks.filter((t) => t.completedDate === key).length`. */
  function CompletedOn(tasks: seq<Task>, d: Day): (n: nat)
    ensures n <= |tasks|
  {
    if tasks == [] then 0
    else (if tasks[0].completedDate == Some(d) then 1 else 0) + CompletedOn(tasks[1..], d)
  }

  /** Tasks whose completion date lies in `[lo .. hi]`. */
  function CompletedBetween(tasks: seq<Task>, lo: Day, hi: Day): nat
  {
    if tasks == [] then 0
    else
      (if tasks[0].completedDate.Some? && lo <= tasks[0].completedDate.value <= hi then 1 else 0)
      + CompletedBetween(tasks[1..], lo, hi)
  }

  /** `days.map(...)` of `getTasksCompletedPerDay`, for any list of days. */
  function CompletedSeries(tasks: seq<Task>, days: seq<Day>): (r: seq<nat>)
    ensures |r| == |days|
    ensures forall k :: 0 <= k < |r| ==> r[k] == CompletedOn(tasks, days[k])
  {
    if days == [] then []
    else CompletedSeries(tasks, days[..|days| - 1]) + [CompletedOn(tasks, days[|days| - 1])]
  }

  /** `getTasksCompletedPerDay`: seven counts, oldest day first, today last. */
  function TasksCompletedPerDay(tasks: seq<Task>, today: Day): (r: seq<nat>)
    ensures |r| == 7
    ensures forall k :: 0 <= k < 7 ==> r[k] == CompletedOn(tasks, today - 6 + k)
  {
    CompletedSeries(tasks, Window(today, 7))
  }

  lemma {:induction false} CompletedBetweenEmpty(tasks: seq<Task>, lo: Day, hi: Day)
    requires hi < lo
    ensures CompletedBetween(tasks, lo, hi) == 0
  {
    if tasks != [] {
      CompletedBetweenEmpty(tasks[1..], lo, hi);
    }
  }

  /** Widening the range by its last day adds that day's count. */
  lemma {:induction false} CompletedBetweenExtend(tasks: seq<Task>, lo: Day, hi: Day)
    requires lo <= hi
    ensures CompletedBetween(tasks, lo, hi) == CompletedBetween(tasks, lo, hi - 1) + CompletedOn(tasks, hi)
  {
    if tasks != [] {
      CompletedBetweenExtend(tasks[1..], lo, hi);
    }
  }

  lemma SumSnoc(s: seq<nat>, v: nat)
    ensures Sum(s + [v]) == Sum(s) + v
  {
    assert (s + [v])[..|s|] == s;
  }

  lemma CompletedWindowStep(tasks: seq<Task>, today: Day, n: int)
    requires n > 0
    ensures Sum(CompletedSeries(tasks, Window(today, n)))
         == Sum(CompletedSeries(tasks, Window(today - 1, n - 1))) + CompletedOn(tasks, today)
  {
    var w := Window(today - 1, n - 1);
    assert (w + [today])[..|w|] == w;
    SumSnoc(CompletedSeries(tasks, w), CompletedOn(tasks, today));
  }

  /**
   * Summing the per-day series over the window of `n` days ending on `today`
   * counts the tasks completed from `lo = today - n + 1` to `today`.
   */
  lemma {:induction false} CompletedWindowSum(tasks: seq<Task>, lo: Day, today: Day, n: int)
    requires lo == today - n + 1
    ensures Sum(CompletedSeries(tasks, Window(today, n))) == CompletedBetween(tasks, lo, today)
    decreases n
  {
    if n <= 0 {
      CompletedBetweenEmpty(tasks, lo, today);
    } else {
      calc {
        Sum(CompletedSeries(tasks, Window(today, n)));
        == { CompletedWindowStep(tasks, today, n); }
        Sum(CompletedSeries(tasks, Window(today - 1, n - 1))) + CompletedOn(tasks, today);
        == { CompletedWindowSum(tasks, lo, today - 1, n - 1); }
        CompletedBetween(tasks, lo, today - 1) + CompletedOn(tasks, today);
        == { CompletedBetweenExtend(tasks, lo, today); }
        CompletedBetween(tasks, lo, today);
      }
    }
  }

  /** When every task obeys the completion invariant, only done tasks are counted. */
  lemma {:induction false} CompletedBetweenAtMostDone(tasks: seq<Task>, lo: Day, hi: Day)
    ensures AllConsistent(tasks) ==> CompletedBetween(tasks, lo, hi) <= CountStatus(tasks, Done)
  {
    if tasks != [] && AllConsistent(tasks) {
      assert forall t :: t in tasks[1..] ==> t in tasks;
      assert tasks[0] in tasks;
      CompletedBetweenAtMostDone(tasks[1..], lo, hi);
    }
  }

  // ---------------------------------------------------------------------
  // Focus minutes per day

  /** `focusLogs.filter((f) => f.date === key).reduce((sum, f) => sum + f.minutes, 0)`. */
  function FocusOnDay(logs: seq<FocusLogEntry>, d: Day): (n: nat)
    ensures forall e :: e in logs && e.date == d ==> e.minutes <= n
    ensures (forall e :: e in logs ==> e.date != d) ==> n == 0
  {
    if logs == [] then 0
    else
      FocusOnDay(logs[..|logs| - 1], d)
      + (if logs[|logs| - 1].date == d then logs[|logs| - 1].minutes else 0)
  }

  /** Minutes of the entries dated within `[lo .. hi]`. */
  function FocusBetween(logs: seq<FocusLogEntry>, lo: Day, hi: Day): nat
  {
    if logs == [] then 0
    else
      FocusBetween(logs[..|logs| - 1], lo, hi)
      + (if lo <= logs[|logs| - 1].date <= hi then logs[|logs| - 1].minutes else 0)
  }

  /** `days.map(...)` of `getFocusMinutesPerDay`, for any list of days. */
  function FocusSeries(logs: seq<FocusLogEntry>, days: seq<Day>): (r: seq<nat>)
    ensures |r| == |days|
    ensures forall k :: 0 <= k < |r| ==> r[k] == FocusOnDay(logs, days[k])
  {
    if days == [] then []
    else FocusSeries(logs, days[..|days| - 1]) + [FocusOnDay(logs, days[|days| - 1])]
  }

  /** `getFocusMinutesPerDay`: seven totals, oldest day first, today last. */
  function FocusMinutesPerDay(logs: seq<FocusLogEntry>, today: Day): (r: seq<nat>)
    ensures |r| == 7
    ensures forall k :: 0 <= k < 7 ==> r[k] == FocusOnDay(logs, today - 6 + k)
  {
    FocusSeries(logs, Window(today, 7))
  }

  lemma {:induction false} FocusBetweenEmpty(logs: seq<FocusLogEntry>, lo: Day, hi: Day)
    requires hi < lo
    ensures FocusBetween(logs, lo, hi) == 0
  {
    if logs != [] {
      FocusBetweenEmpty(logs[..|logs| - 1], lo, hi);
    }
  }

  /** Widening the range by its last day adds that day's minutes. */
  lemma {:induction false} FocusBetweenExtend(logs: seq<FocusLogEntry>, lo: Day, hi: Day)
    requires lo <= hi
    ensures FocusBetween(logs, lo, hi) == FocusBetween(logs, lo, hi - 1) + FocusOnDay(logs, hi)
  {
    if logs != [] {
      FocusBetweenExtend(logs[..|logs| - 1], lo, hi);
    }
  }

  lemma FocusWindowStep(logs: seq<FocusLogEntry>, today: Day, n: int)
    requires n > 0
    ensures Sum(FocusSeries(logs, Window(today, n)))
         == Sum(FocusSeries(logs, Window(today - 1, n - 1))) + FocusOnDay(logs, today)
  {
    var w := Window(today - 1, n - 1);
    assert (w + [today])[..|w|] == w;
    SumSnoc(FocusSeries(logs, w), FocusOnDay(logs, today));
  }

  /**
   * Summing the per-day series over the window of `n` days ending on `today`
   * gives the minutes logged from `lo = today - n + 1` to `today`.
   */
  lemma {:induction false} FocusWindowSum(logs: seq<FocusLogEntry>, lo: Day, today: Day, n: int)
    requires lo == today - n + 1
    ensures Sum(FocusSeries(logs, Window(today, n))) == FocusBetween(logs, lo, today)
    decreases n
  {
    if n <= 0 {
      FocusBetweenEmpty(logs, lo, today);
    } else {
      calc {
        Sum(FocusSeries(logs, Window(today, n)));
        == { FocusWindowStep(logs, today, n); }
        Sum(FocusSeries(logs, Window(today - 1, n - 1))) + FocusOnDay(logs, today);
        == { FocusWindowSum(logs, lo, today - 1, n - 1); }
        FocusBetween(logs, lo, today - 1) + FocusOnDay(logs, today);
        == { FocusBetweenExtend(logs, lo, today); }
        FocusBetween(logs, lo, today);
      }
    }
  }

  /**
   * The first loop of `sumFocusForRange(daysBack)`: counts `i` down from
   * `daysBack - 1` to 0 and pushes `today - i`.
   */
  method TrailingDays(today: Day, daysBack: int) returns (days: seq<Day>)
    ensures days == Window(today, daysBack)
  {
    days := [];
    var i := daysBack - 1;
    while i >= 0
      invariant i <= daysBack - 1
      invariant i >= -1 || i == daysBack - 1
      invariant |days| == daysBack - 1 - i
      invariant forall k :: 0 <= k < |days| ==> days[k] == today - daysBack + 1 + k
    {
      days := days + [today - i];
      i := i - 1;
    }
    assert days == Window(today, daysBack);
  }

  /**
   * `sumFocusForRange(daysBack)`: builds the trailing `daysBack` days, then
   * adds up each day's minutes.
   */
  method SumFocusForRange(logs: seq<FocusLogEntry>, today: Day, daysBack: int) returns (total: nat)
    ensures total == FocusBetween(logs, today - daysBack + 1, today)
    ensures daysBack == 7 ==> total == Sum(FocusMinutesPerDay(logs, today))
  {
    var days := TrailingDays(today, daysBack);
    total := 0;
    var j := 0;
    while j < |days|
      invariant 0 <= j <= |days|
      invariant total == Sum(FocusSeries(logs, days[..j]))
    {
      FocusPrefixStep(logs, days, j);
      total := total + FocusOnDay(logs, days[j]);
      j := j + 1;
    }
    assert days[..|days|] == days;
    FocusRangeSum(logs, today, daysBack);
  }

  /** The window's per-day totals add up to the range total; for seven days, to the chart series. */
  lemma FocusRangeSum(logs: seq<FocusLogEntry>, today: Day, daysBack: int)
    ensures Sum(FocusSeries(logs, Window(today, daysBack))) == FocusBetween(logs, today - daysBack + 1, today)
    ensures daysBack == 7 ==> FocusBetween(logs, today - 6, today) == Sum(FocusMinutesPerDay(logs, today))
  {
    var lo := today - daysBack + 1;
    FocusWindowSum(logs, lo, today, daysBack);
    if daysBack == 7 {
      assert lo == today - 6;
      assert FocusMinutesPerDay(logs, today) == FocusSeries(logs, Window(today, 7));
    }
  }

  /** One more day of a prefix adds that day's minutes to the prefix's total. */
  lemma FocusPrefixStep(logs: seq<FocusLogEntry>, days: seq<Day>, j: nat)
    requires j < |days|
    ensures Sum(FocusSeries(logs, days[..j + 1])) == Sum(FocusSeries(logs, days[..j])) + FocusOnDay(logs, days[j])
  {
    assert days[..j + 1][..j] == days[..j];
    SumSnoc(FocusSeries(logs, days[..j]), FocusOnDay(logs, days[j]));
  }

  /** The seven-day focus series adds up to the minutes logged in `[today - 6 .. today]`. */
  lemma FocusSeriesTotal(logs: seq<FocusLogEntry>, today: Day)
    ensures Sum(FocusMinutesPerDay(logs, today)) == FocusBetween(logs, today - 6, today)
  {
    FocusWindowSum(logs, today - 6, today, 7);
  }

  /** An entry dated outside the seven-day window leaves the whole series unchanged. */
  lemma OldEntryIgnored(logs: seq<FocusLogEntry>, e: FocusLogEntry, today: Day)
    requires e.date < today - 6 || e.date > today
    ensures FocusMinutesPerDay(logs + [e], today) == FocusMinutesPerDay(logs, today)
    ensures FocusBetween(logs + [e], today - 6, today) == FocusBetween(logs, today - 6, today)
  {
    assert (logs + [e])[..|logs|] == logs;
  }

  /** Twenty minutes yesterday count; ninety-nine minutes ten days ago do not. */
  lemma RangeExample(today: Day)
    ensures FocusBetween([FocusLogEntry(today - 1, 20, Focus), FocusLogEntry(today - 10, 99, Focus)],
                         today - 6, today) == 20
  {
    var first := [FocusLogEntry(today - 1, 20, Focus)];
    var logs := first + [FocusLogEntry(today - 10, 99, Focus)];
    assert logs[..|logs| - 1] == first;
    assert first[..|first| - 1] == [];
    assert FocusBetween(first, today - 6, today) == 20;
  }

  // ---------------------------------------------------------------------
  // Summary panels

  /** The values `updateStats` shows in the today and quick-stats panels. */
  datatype Summary = Summary(
    total: nat,
    completed: nat,
    inProgress: nat,
    focusToday: nat,
    goalCount: nat,
    subtasksDone: nat,
    weekFocus: nat,
    doneThisWeek: nat)

  lemma {:induction false} StatusCountsBounded(tasks: seq<Task>)
    ensures CountStatus(tasks, Done) + CountStatus(tasks, InProgress) <= |tasks|
  {
    if tasks != [] {
      StatusCountsBounded(tasks[1..]);
    }
  }

  function ComputeSummary(tasks: seq<Task>, goals: seq<Goal>, logs: seq<FocusLogEntry>, today: Day): (s: Summary)
    ensures s.total == |tasks| && s.goalCount == |goals|
    ensures s.completed == CountStatus(tasks, Done) && s.inProgress == CountStatus(tasks, InProgress)
    ensures s.focusToday == FocusOnDay(logs, today) && s.subtasksDone == SubtasksDone(goals)
    ensures s.completed + s.inProgress <= s.total
    ensures s.focusToday <= s.weekFocus
    ensures s.weekFocus == Sum(FocusMinutesPerDay(logs, today))
    ensures s.doneThisWeek == CompletedBetween(tasks, today - 6, today)
    ensures AllConsistent(tasks) ==> s.doneThisWeek <= s.completed
  {
    StatusCountsBounded(tasks);
    FocusBetweenExtend(logs, today - 6, today);
    FocusSeriesTotal(logs, today);
    CompletedWindowSum(tasks, today - 6, today, 7);
    CompletedBetweenAtMostDone(tasks, today - 6, today);
    Summary(
      |tasks|,
      CountStatus(tasks, Done),
      CountStatus(tasks, InProgress),
      FocusOnDay(logs, today),
      |goals|,
      SubtasksDone(goals),
      FocusBetween(logs, today - 6, today),
      Sum(TasksCompletedPerDay(tasks, today)))
  }
}
