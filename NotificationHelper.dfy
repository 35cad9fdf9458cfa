/** helpers/notificationHelper.js: the deadline notifiers and the
    backlog sweep. Instants are epoch milliseconds. E-mail dispatch is
    replaced by the label of the message each record would be sent. */
module NotificationHelper {
  import opened Models

  const DayMs: int := 24 * 60 * 60 * 1000
  const TwoDaysMs: int := 48 * 60 * 60 * 1000
  const WeekMs: int := 7 * 24 * 60 * 60 * 1000
  const MonthMs: int := 30 * 24 * 60 * 60 * 1000

  /** `setHours(23, 59, 59, 999)` applied to the local midnight `todayStart`.
      The same call also mutates `now`, so every `x - now` in the notifiers
      is measured from this instant, not from midnight. */
  function TodayEnd(todayStart: int): (r: int)
    ensures r == todayStart + DayMs - 1
  {
    todayStart + ((23 * 60 + 59) * 60 + 59) * 1000 + 999
  }

  // ---------------------------------------------------------------- tasks

  datatype TaskAlert = TaskDueInTwoDays | TaskDueInOneDay | TaskDueToday | NoTaskAlert

  /** The branch `notifyDeadlines` takes for one task. Each task lands in
      exactly one window, so it is sent at most one e-mail per run. */
  function TaskAlertFor(deadline: int, todayStart: int): (r: TaskAlert)
    ensures r == TaskDueInTwoDays <==> DayMs < deadline - TodayEnd(todayStart) <= TwoDaysMs
    ensures r == TaskDueInOneDay <==> 0 < deadline - TodayEnd(todayStart) <= DayMs
    ensures r == TaskDueToday <==> todayStart <= deadline <= TodayEnd(todayStart)
    ensures r == NoTaskAlert <==> deadline < todayStart || deadline > TodayEnd(todayStart) + TwoDaysMs
  {
    var now := TodayEnd(todayStart);
    var todayEnd := TodayEnd(todayStart);
    var timeToDeadline := deadline - now;
    if timeToDeadline <= TwoDaysMs && timeToDeadline > DayMs then TaskDueInTwoDays
    else if timeToDeadline <= DayMs && timeToDeadline > 0 then TaskDueInOneDay
    else if deadline >= todayStart && deadline <= todayEnd then TaskDueToday
    else NoTaskAlert
  }

  /** A task whose branch sends an e-mail but that has no populated
      assignee: reading `task.assignedTo.email` throws. */
  predicate Unaddressable(t: Task, todayStart: int)
  {
    TaskAlertFor(t.deadline, todayStart) != NoTaskAlert && t.assignee.None?
  }

  /** What one run of the task sweep does: the label of each task visited,
      and whether the run threw. */
  datatype SweepOutcome<A> = SweepOutcome(alerts: seq<A>, aborted: bool)

  /** `notifyDeadlines()` over the loaded tasks, in order. The first task
      that needs an e-mail but has no assignee throws inside `forEach`,
      which ends the run: the tasks after it are not visited. */
  function NotifyDeadlines(tasks: seq<Task>, todayStart: int): (r: SweepOutcome<TaskAlert>)
    ensures |r.alerts| <= |tasks|
    ensures forall i :: 0 <= i < |r.alerts| ==> r.alerts[i] == TaskAlertFor(tasks[i].deadline, todayStart)
    ensures forall i :: 0 <= i < |r.alerts| ==> !Unaddressable(tasks[i], todayStart)
    ensures r.aborted <==> exists i :: 0 <= i < |tasks| && Unaddressable(tasks[i], todayStart)
    ensures !r.aborted ==> |r.alerts| == |tasks|
    ensures r.aborted ==> |r.alerts| < |tasks| && Unaddressable(tasks[|r.alerts|], todayStart)
    decreases |tasks|
  {
    if |tasks| == 0 then SweepOutcome([], false)
    else if Unaddressable(tasks[0], todayStart) then SweepOutcome([], true)
    else
      var rest := NotifyDeadlines(tasks[1..], todayStart);
      assert forall i :: 1 <= i < |tasks| ==> tasks[i] == tasks[1..][i - 1];
      SweepOutcome([TaskAlertFor(tasks[0].deadline, todayStart)] + rest.alerts, rest.aborted)
  }

  // ------------------------------------------------------------- projects

  datatype ProjectAlert =
    | ProjectDueInSevenDays
    | ProjectDueInThirtyDays
    | ProjectDueInOneDay
    | ProjectDueToday
    | NoProjectAlert

  /** The branch `notifyProjectDeadlines` takes for one project. The
      7-day and 30-day branches require both `endDate - now > 0` and
      `endDate <= todayEnd`, and `now` is `todayEnd`: they never fire, and
      only the 1-day and today windows remain. */
  function ProjectAlertFor(endDate: int, todayStart: int): (r: ProjectAlert)
    ensures r != ProjectDueInSevenDays && r != ProjectDueInThirtyDays
    ensures r == ProjectDueInOneDay <==> TodayEnd(todayStart) < endDate <= TodayEnd(todayStart) + DayMs
    ensures r == ProjectDueToday <==> todayStart <= endDate <= TodayEnd(todayStart)
    ensures r == NoProjectAlert <==> endDate < todayStart || endDate > TodayEnd(todayStart) + DayMs
  {
    var now := TodayEnd(todayStart);
    var todayEnd := TodayEnd(todayStart);
    var timeToDeadline := endDate - now;
    if timeToDeadline <= WeekMs && timeToDeadline > 0 && endDate >= todayStart && endDate <= todayEnd then
      ProjectDueInSevenDays
    else if timeToDeadline <= MonthMs && timeToDeadline > 0 && endDate >= todayStart && endDate <= todayEnd then
      ProjectDueInThirtyDays
    else if timeToDeadline <= DayMs && timeToDeadline > 0 then ProjectDueInOneDay
    else if endDate >= todayStart && endDate <= todayEnd then ProjectDueToday
    else NoProjectAlert
  }

  /** A project whose branch sends an e-mail but that has no populated owner. */
  predicate OwnerMissing(p: Project, todayStart: int)
  {
    ProjectAlertFor(p.endDate.epochMs, todayStart) != NoProjectAlert && p.owner.None?
  }

  /** `notifyProjectDeadlines()` over the loaded projects, in order; like
      the task sweep it ends at the first project it cannot address. */
  function NotifyProjectDeadlines(projects: seq<Project>, todayStart: int): (r: SweepOutcome<ProjectAlert>)
    ensures |r.alerts| <= |projects|
    ensures forall i :: 0 <= i < |r.alerts| ==> r.alerts[i] == ProjectAlertFor(projects[i].endDate.epochMs, todayStart)
    ensures forall i :: 0 <= i < |r.alerts| ==> !OwnerMissing(projects[i], todayStart)
    ensures r.aborted <==> exists i :: 0 <= i < |projects| && OwnerMissing(projects[i], todayStart)
    ensures !r.aborted ==> |r.alerts| == |projects|
    ensures r.aborted ==> |r.alerts| < |projects| && OwnerMissing(projects[|r.alerts|], todayStart)
    decreases |projects|
  {
    if |projects| == 0 then SweepOutcome([], false)
    else if OwnerMissing(projects[0], todayStart) then SweepOutcome([], true)
    else
      var rest := NotifyProjectDeadlines(projects[1..], todayStart);
      assert forall i :: 1 <= i < |projects| ==> projects[i] == projects[1..][i - 1];
      SweepOutcome([ProjectAlertFor(projects[0].endDate.epochMs, todayStart)] + rest.alerts, rest.aborted)
  }

  // -------------------------------------------------------------- backlog

  /** What `markTaskAsBacklog` does to one task: the query selects the
      overdue tasks that are not completed, and those not yet in the
      backlog get status `backlog`. Only the status can change. */
  function Swept(t: Task, now: int): (r: Task)
    ensures r.(status := t.status) == t
    ensures t.deadline <= now && t.status != Completed ==> r.status == Backlog
    ensures t.deadline > now || t.status == Completed ==> r == t
  {
    if t.deadline <= now && t.status != Completed then
      if t.status != Backlog then t.(status := Backlog) else t
    else t
  }

  /** The whole collection after the sweep. */
  function SweptAll(tasks: seq<Task>, now: int): (r: seq<Task>)
    ensures |r| == |tasks|
    ensures forall i :: 0 <= i < |r| ==> r[i] == Swept(tasks[i], now)
  {
    seq(|tasks|, i requires 0 <= i < |tasks| => Swept(tasks[i], now))
  }

  /** A second sweep at the same instant changes nothing. */
  lemma SweptAllIdempotent(tasks: seq<Task>, now: int)
    ensures SweptAll(SweptAll(tasks, now), now) == SweptAll(tasks, now)
  {
    var once := SweptAll(tasks, now);
    forall i | 0 <= i < |once|
      ensures Swept(once[i], now) == once[i]
    {
      assert once[i] == Swept(tasks[i], now);
    }
  }

  /** After the sweep no task is both overdue and outside the backlog,
      unless it is completed. */
  lemma SweptAllLeavesNoOverdueOpenTask(tasks: seq<Task>, now: int)
    ensures forall i :: 0 <= i < |tasks| ==>
      var t := SweptAll(tasks, now)[i];
      t.deadline <= now && t.status != Completed ==> t.status == Backlog
  {
  }

  /** `markTaskAsBacklog()` over the loaded tasks, rewriting each status in place. */
  method MarkTaskAsBacklog(tasks: array<Task>, now: int)
    modifies tasks
    ensures tasks[..] == SweptAll(old(tasks[..]), now)
  {
    var i := 0;
    while i < tasks.Length
      invariant 0 <= i <= tasks.Length
      invariant forall k :: 0 <= k < i ==> tasks[k] == Swept(old(tasks[k]), now)
      invariant forall k :: i <= k < tasks.Length ==> tasks[k] == old(tasks[k])
    {
      var task := tasks[i];
      if task.deadline <= now && task.status != Completed {
        if task.status != Backlog {
          tasks[i] := task.(status := Backlog);
        }
      }
      i := i + 1;
    }
  }
}
