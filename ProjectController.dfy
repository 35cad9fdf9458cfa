/** controllers/projectController.js: the computations inside the project
    handlers, over a project that is already loaded and populated. */
module ProjectController {
  import opened Wrappers
  import opened JsNumber
  import opened Calendar
  import opened DateKey
  import opened Models
  import opened ProjectHelper

  // ------------------------------------------------------- removeMembers

  /** `project.members.filter(member => member.toString() !== memberId)`. */
  function RemoveMember(members: seq<string>, memberId: string): (r: seq<string>)
    ensures memberId !in r
    ensures forall x :: x != memberId ==> multiset(r)[x] == multiset(members)[x]
    ensures |r| == |members| - multiset(members)[memberId]
    ensures memberId !in members ==> r == members
    decreases |members|
  {
    if |members| == 0 then []
    else
      var n := |members|;
      var last := members[n - 1];
      assert members == members[..n - 1] + [last];
      RemoveMember(members[..n - 1], memberId) + (if last != memberId then [last] else [])
  }

  /** The filter keeps the survivors in their stored order: filtering a
      concatenation filters each part and concatenates the results. */
  lemma {:induction false} RemoveMemberAppend(a: seq<string>, b: seq<string>, memberId: string)
    ensures RemoveMember(a + b, memberId) == RemoveMember(a, memberId) + RemoveMember(b, memberId)
    decreases |b|
  {
    if |b| == 0 {
      assert a + b == a;
    } else {
      var front, last := b[..|b| - 1], b[|b| - 1];
      var kept := if last != memberId then [last] else [];
      assert b == front + [last];
      calc {
        RemoveMember(a + b, memberId);
        { assert a + b == (a + front) + [last]; }
        RemoveMember((a + front) + [last], memberId);
        { RemoveMemberLast(a + front, last, memberId); }
        RemoveMember(a + front, memberId) + kept;
        { RemoveMemberAppend(a, front, memberId); }
        (RemoveMember(a, memberId) + RemoveMember(front, memberId)) + kept;
        RemoveMember(a, memberId) + (RemoveMember(front, memberId) + kept);
        { RemoveMemberLast(front, last, memberId); }
        RemoveMember(a, memberId) + RemoveMember(b, memberId);
      }
    }
  }

  lemma RemoveMemberLast(members: seq<string>, last: string, memberId: string)
    ensures RemoveMember(members + [last], memberId)
         == RemoveMember(members, memberId) + (if last != memberId then [last] else [])
  {
    assert (members + [last])[..|members|] == members;
  }

  // --------------------------------------------- getCompletionPercentage

  /** `(completedTasks / totalTasks) * 100 || 0`: the NaN of a project
      without tasks is normalised to 0. */
  function CompletionPercentage(tasks: seq<Task>): (r: Num)
    ensures r.Finite? && 0.0 <= r.val <= 100.0
    ensures |tasks| == 0 ==> r.val == 0.0
    ensures |tasks| > 0 ==> r.val == CompletedCount(tasks) as real / |tasks| as real * 100.0
  {
    OrZero(TaskCompletionPercentage(tasks))
  }

  /** The reported percentage is 100 exactly when there are tasks and all
      of them are completed, and 0 exactly when none is completed (which
      includes a project without tasks). */
  lemma CompletionPercentageExtremes(tasks: seq<Task>)
    ensures CompletionPercentage(tasks).val == 100.0 <==> |tasks| > 0 && CompletedCount(tasks) == |tasks|
    ensures CompletionPercentage(tasks).val == 0.0 <==> CompletedCount(tasks) == 0
  {
    if |tasks| > 0 {
      TaskCompletionPercentageExtremes(tasks);
    }
  }

  // ------------------------------------------------ getProjectRiskLevels

  datatype RiskKind = BudgetRisk | TimeRisk

  datatype Impact = NoImpact | Low | Medium | High

  /** A risk object without its description text. */
  datatype Risk = Risk(kind: RiskKind, difference: real, percentage: Num, impact: Impact)

  /** The tiering both risk branches apply to their percentage:
      below 30 low, from 30 below 60 medium, high otherwise (+Infinity or
      NaN fails both comparisons and is high; -Infinity is below 30 and
      low). */
  function ImpactOf(percentage: Num): (r: Impact)
    ensures r != NoImpact
    ensures percentage.Finite? ==>
      && (r == Low <==> percentage.val < 30.0)
      && (r == Medium <==> 30.0 <= percentage.val < 60.0)
      && (r == High <==> 60.0 <= percentage.val)
    ensures percentage == PosInf || percentage == NaN ==> r == High
    ensures percentage == NegInf ==> r == Low
  {
    if Less(percentage, Finite(30.0)) then Low
    else if AtLeast(percentage, Finite(30.0)) && Less(percentage, Finite(60.0)) then Medium
    else High
  }

  /** The budget entry of the report: an overrun when the payroll over the
      project's duration exceeds the budget. */
  function BudgetRiskOf(p: Project): (r: Risk)
    ensures r.kind == BudgetRisk
    ensures r.impact == NoImpact <==> Cost(p) <= p.budget
    ensures Cost(p) <= p.budget ==> r.difference == 0.0 && r.percentage == Finite(0.0)
    ensures Cost(p) > p.budget ==> r.difference == Cost(p) - p.budget && r.difference > 0.0
    ensures Cost(p) > p.budget ==> r.impact == ImpactOf(r.percentage)
    ensures Cost(p) > p.budget && p.budget > 0.0 ==>
      r.percentage.Finite? && r.percentage.val == r.difference / p.budget * 100.0 && r.percentage.val > 0.0
    ensures Cost(p) > p.budget && p.budget == 0.0 ==> r.percentage == PosInf && r.impact == High
    ensures Cost(p) > p.budget && p.budget != 0.0 ==> r.percentage == Finite(r.difference / p.budget * 100.0)
  {
    var cost := Cost(p);
    if cost > p.budget then
      var difference := cost - p.budget;
      var percentage := Times(Div(difference, p.budget), 100.0);
      Risk(BudgetRisk, difference, percentage, ImpactOf(percentage))
    else
      Risk(BudgetRisk, 0.0, Finite(0.0), NoImpact)
  }

  /** The budget tiers read as bounds on the cost: low below 130% of the
      budget, medium from 130% below 160%, high from 160%. */
  lemma BudgetRiskTiers(p: Project)
    requires p.budget > 0.0 && Cost(p) > p.budget
    ensures BudgetRiskOf(p).impact == Low <==> Cost(p) < 1.3 * p.budget
    ensures BudgetRiskOf(p).impact == Medium <==> 1.3 * p.budget <= Cost(p) < 1.6 * p.budget
    ensures BudgetRiskOf(p).impact == High <==> 1.6 * p.budget <= Cost(p)
  {
    var d := Cost(p) - p.budget;
    ScaledShare(d, p.budget);
  }

  /** `d / b * 100` against the two tier bounds. */
  lemma ScaledShare(d: real, b: real)
    requires b > 0.0
    ensures d / b * 100.0 < 30.0 <==> d < 0.3 * b
    ensures d / b * 100.0 < 60.0 <==> d < 0.6 * b
  {
    var q := d / b;
    assert q * b == d;
    SignOfProduct(0.3 - q, b);
    SignOfProduct(0.6 - q, b);
    assert (0.3 - q) * b == 0.3 * b - d;
    assert (0.6 - q) * b == 0.6 * b - d;
  }

  lemma SignOfProduct(x: real, b: real)
    requires b > 0.0
    ensures x * b > 0.0 <==> x > 0.0
    ensures x * b < 0.0 <==> x < 0.0
  {
  }

  /** The time entry of the report: flagged when proportionally less time
      than work remains, with the elapsed share as its percentage. */
  function ScheduleRiskOf(p: Project, today: Date): (r: Risk)
    ensures r.kind == TimeRisk
    ensures r.impact != NoImpact <==> BehindSchedule(p, today)
    ensures |p.tasks| == 0 ==> r == Risk(TimeRisk, 0.0, Finite(0.0), NoImpact)
    ensures !BehindSchedule(p, today) ==> r.difference == 0.0 && r.percentage == Finite(0.0)
    ensures BehindSchedule(p, today) ==>
      r.difference == p.duration - RemainingDuration(p, today) && r.impact == ImpactOf(r.percentage)
    ensures p.duration > 0.0 && BehindSchedule(p, today) ==>
      r.difference > 0.0 && r.percentage.Finite?
      && r.percentage.val == r.difference / p.duration * 100.0 && r.percentage.val > 0.0
    ensures BehindSchedule(p, today) && p.duration != 0.0 ==>
      r.percentage == Finite(r.difference / p.duration * 100.0)
    ensures BehindSchedule(p, today) && p.duration == 0.0 ==> r.percentage == PosInf && r.impact == High
  {
    BehindScheduleMeaning(p, today);
    if BehindSchedule(p, today) then
      var difference := p.duration - RemainingDuration(p, today);
      var percentage := Times(Div(difference, p.duration), 100.0);
      Risk(TimeRisk, difference, percentage, ImpactOf(percentage))
    else
      Risk(TimeRisk, 0.0, Finite(0.0), NoImpact)
  }

  /** The schedule tiers read as bounds on the remaining duration: low
      while more than 70% of the duration remains, medium while more than
      40% remains, high otherwise. */
  lemma ScheduleRiskTiers(p: Project, today: Date)
    requires p.duration > 0.0 && BehindSchedule(p, today)
    ensures ScheduleRiskOf(p, today).impact == Low <==> RemainingDuration(p, today) > 0.7 * p.duration
    ensures ScheduleRiskOf(p, today).impact == Medium
        <==> 0.4 * p.duration < RemainingDuration(p, today) <= 0.7 * p.duration
    ensures ScheduleRiskOf(p, today).impact == High <==> RemainingDuration(p, today) <= 0.4 * p.duration
  {
    ScaledShare(p.duration - RemainingDuration(p, today), p.duration);
  }

  /** The `risk` array of `getProjectRiskLevels`: always the budget entry
      followed by the time entry. */
  function RiskReport(p: Project, today: Date): (r: seq<Risk>)
    ensures |r| == 2
    ensures r[0].kind == BudgetRisk && r[1].kind == TimeRisk
    ensures r[0] == BudgetRiskOf(p) && r[1] == ScheduleRiskOf(p, today)
  {
    [BudgetRiskOf(p), ScheduleRiskOf(p, today)]
  }

  /** A project with a budget of 1000, a payroll of 600 a month and a
      duration of 2 months overruns by 200, which is 20%: a low risk. */
  lemma BudgetRiskExample(p: Project)
    requires p.budget == 1000.0 && Payroll(p.members) == 600.0 && p.duration == 2.0
    ensures BudgetRiskOf(p) == Risk(BudgetRisk, 200.0, Finite(20.0), Low)
  {
  }

  // ---------------------------------------- getProjectWithHighestRiskLevels

  /** The error the handler meets: the helper module does not export
      `calculateRiskLevel`, so the imported name is undefined and calling
      it throws a TypeError. */
  datatype HandlerError = RiskLevelNotAFunction

  /** The `forEach` of `getProjectWithHighestRiskLevels` from project `i`
      on, with the running `projectWithHighestRiskLevels` (an index) and
      `highestRiskLevel`. `call` is the imported `calculateRiskLevel`
      binding: None when the name is undefined, so calling it throws
      before anything else happens in that iteration. */
  function ScanForHighestRisk(projects: seq<Project>, call: Option<Project -> Num>, i: nat,
                              chosen: Option<nat>, highest: Num): (r: Result<(Option<nat>, Num), HandlerError>)
    requires i <= |projects|
    ensures call.None? ==> (r.Failure? <==> i < |projects|)
    ensures call.Some? ==> r.Success?
    ensures r.Success? && r.value.0 != chosen ==> r.value.0.Some? && i <= r.value.0.value < |projects|
    decreases |projects| - i
  {
    if i == |projects| then Success((chosen, highest))
    else match call
      case None => Failure(RiskLevelNotAFunction)
      case Some(riskLevelOf) =>
        var riskLevel := riskLevelOf(projects[i]);
        if Less(highest, riskLevel) then ScanForHighestRisk(projects, call, i + 1, Some(i), riskLevel)
        else ScanForHighestRisk(projects, call, i + 1, chosen, highest)
  }

  /** The handler's computation with a given binding for the import,
      starting from no project and level 0. */
  function HighestRiskWith(projects: seq<Project>, call: Option<Project -> Num>): Result<(Option<nat>, Num), HandlerError>
  {
    ScanForHighestRisk(projects, call, 0, None, Finite(0.0))
  }

  /** `getProjectWithHighestRiskLevels` as wired: the helper module does
      not export `calculateRiskLevel`, so the binding is undefined. The
      handler then fails exactly when there is a project to visit, and
      reports no project at level 0 otherwise. */
  function HighestRiskAsWired(projects: seq<Project>): (r: Result<(Option<nat>, Num), HandlerError>)
    ensures r.Failure? <==> |projects| > 0
    ensures r.Success? ==> r.value == (None, Finite(0.0))
  {
    HighestRiskWith(projects, None)
  }

  /** Every non-empty project list makes the handler fail. */
  lemma HighestRiskAsWiredFailsOnAnyProject(p: Project)
    ensures HighestRiskAsWired([p]) == Failure(RiskLevelNotAFunction)
  {
  }

  /** The single-number risk level with the undefined `riskObj` read as the
      time entry of the risk report: the mean of the schedule-risk
      percentage (0 when on schedule) and the task completion percentage.
      It agrees with the helper wherever the helper does not throw. */
  function ProjectRiskLevel(p: Project, today: Date): Num
  {
    var durationRiskPercentage := ScheduleRiskOf(p, today).percentage;
    Times(Plus(durationRiskPercentage, TaskCompletionPercentage(p.tasks)), 0.5)
  }

  /** The corrected level agrees with the helper wherever the helper does
      not throw, is NaN for a project without tasks, and when the project
      is behind schedule the schedule risk lifts it above half the task
      completion percentage. */
  lemma ProjectRiskLevelMeaning(p: Project, today: Date)
    ensures !BehindSchedule(p, today) ==> CalculateRiskLevel(p, today) == Success(ProjectRiskLevel(p, today))
    ensures |p.tasks| == 0 ==> ProjectRiskLevel(p, today) == NaN
    ensures p.duration > 0.0 && BehindSchedule(p, today) ==>
      ProjectRiskLevel(p, today).Finite? && TaskCompletionPercentage(p.tasks).Finite?
      && ProjectRiskLevel(p, today).val > TaskCompletionPercentage(p.tasks).val / 2.0
  {
    BehindScheduleMeaning(p, today);
  }

  /** The corrected level as the binding the handler would call. */
  function CorrectedBinding(today: Date): Option<Project -> Num>
  {
    Some(p => ProjectRiskLevel(p, today))
  }

  /** The same scan over levels already computed, one per project. */
  function ScanLevels(levels: seq<Num>, i: nat, chosen: Option<nat>, highest: Num): (Option<nat>, Num)
    requires i <= |levels|
    decreases |levels| - i
  {
    if i == |levels| then (chosen, highest)
    else if Less(highest, levels[i]) then ScanLevels(levels, i + 1, Some(i), levels[i])
    else ScanLevels(levels, i + 1, chosen, highest)
  }

  /** With a defined binding the handler's scan never fails and visits
      exactly the levels the binding gives for the projects. */
  lemma {:induction false} ScanAgrees(projects: seq<Project>, riskLevelOf: Project -> Num, levels: seq<Num>,
                                      i: nat, chosen: Option<nat>, highest: Num)
    requires |levels| == |projects| && i <= |projects|
    requires forall k :: i <= k < |projects| ==> levels[k] == riskLevelOf(projects[k])
    ensures ScanForHighestRisk(projects, Some(riskLevelOf), i, chosen, highest)
         == Success(ScanLevels(levels, i, chosen, highest))
    decreases |projects| - i
  {
    if i < |projects| {
      if Less(highest, levels[i]) {
        ScanAgrees(projects, riskLevelOf, levels, i + 1, Some(i), levels[i]);
      } else {
        ScanAgrees(projects, riskLevelOf, levels, i + 1, chosen, highest);
      }
    }
  }

  /** The corrected risk level of each project, in order. */
  ghost function RiskLevels(projects: seq<Project>, today: Date): (r: seq<Num>)
    ensures |r| == |projects|
    ensures forall i :: 0 <= i < |projects| ==> r[i] == ProjectRiskLevel(projects[i], today)
  {
    seq(|projects|, i requires 0 <= i < |projects| => ProjectRiskLevel(projects[i], today))
  }

  /** A level that beats the running maximum beats every level the
      maximum was not below. */
  lemma Overtakes(highest: Num, riskLevel: Num, level: Num)
    requires Less(highest, riskLevel)
    requires !Less(highest, level)
    ensures !Less(riskLevel, level)
    ensures !AtLeast(level, riskLevel)
  {
    if Less(riskLevel, level) {
      LessTransitive(highest, riskLevel, level);
    }
    if AtLeast(level, riskLevel) {
      LessTotal(level, riskLevel);
    }
  }

  /** What the running maximum knows after visiting the first `i` levels:
      `highest` is 0 or a level above 0 reached first at `chosen`, and no
      level visited so far beats it. */
  ghost predicate MaxSoFar(levels: seq<Num>, i: nat, chosen: Option<nat>, highest: Num)
    requires i <= |levels|
  {
    && AtLeast(highest, Finite(0.0))
    && (forall k :: 0 <= k < i ==> !Less(highest, levels[k]))
    && (chosen.None? ==> highest == Finite(0.0))
    && (chosen.Some? ==> chosen.value < i && highest == levels[chosen.value])
    && (chosen.Some? ==> Less(Finite(0.0), highest))
    && (chosen.Some? ==> forall k :: 0 <= k < chosen.value ==> !AtLeast(levels[k], highest))
  }

  /** One visit keeps what the running maximum knows, whether or not the
      visited level beats it. */
  lemma MaxSoFarStep(levels: seq<Num>, i: nat, chosen: Option<nat>, highest: Num)
    requires i < |levels| && MaxSoFar(levels, i, chosen, highest)
    ensures Less(highest, levels[i]) ==> MaxSoFar(levels, i + 1, Some(i), levels[i])
    ensures !Less(highest, levels[i]) ==> MaxSoFar(levels, i + 1, chosen, highest)
  {
    var riskLevel := levels[i];
    if Less(highest, riskLevel) {
      forall k | 0 <= k <= i
        ensures !Less(riskLevel, levels[k])
      {
        if k < i {
          Overtakes(highest, riskLevel, levels[k]);
        } else {
          LessIrreflexive(riskLevel);
        }
      }
      forall k | 0 <= k < i
        ensures !AtLeast(levels[k], riskLevel)
      {
        Overtakes(highest, riskLevel, levels[k]);
      }
      if chosen.Some? {
        LessTransitive(Finite(0.0), highest, riskLevel);
      }
    }
  }

  /** The running maximum of `getProjectWithHighestRiskLevels` over the
      corrected risk level: the index of the first project reaching the
      highest level, provided that level is above 0. A NaN level (a project
      without tasks) fails every comparison and is never chosen. The loop
      is the handler's scan with the corrected binding. */
  method HighestRiskProject(projects: seq<Project>, today: Date) returns (chosen: Option<nat>, highest: Num)
    ensures chosen.Some? ==> chosen.value < |projects| && highest == ProjectRiskLevel(projects[chosen.value], today)
    ensures chosen.None? ==> highest == Finite(0.0)
    ensures AtLeast(highest, Finite(0.0))
    ensures forall i :: 0 <= i < |projects| ==> !Less(highest, ProjectRiskLevel(projects[i], today))
    ensures chosen.None? <==> forall i :: 0 <= i < |projects| ==> !Less(Finite(0.0), ProjectRiskLevel(projects[i], today))
    ensures chosen.Some? ==> Less(Finite(0.0), highest)
    ensures chosen.Some? ==> forall i :: 0 <= i < chosen.value ==> !AtLeast(ProjectRiskLevel(projects[i], today), highest)
    ensures HighestRiskWith(projects, CorrectedBinding(today)) == Success((chosen, highest))
  {
    ghost var levels := RiskLevels(projects, today);
    ghost var outcome := ScanLevels(levels, 0, None, Finite(0.0));
    chosen := None;
    highest := Finite(0.0);
    var i := 0;
    while i < |projects|
      invariant 0 <= i <= |projects|
      invariant MaxSoFar(levels, i, chosen, highest)
      invariant outcome == ScanLevels(levels, i, chosen, highest)
    {
      var riskLevel := ProjectRiskLevel(projects[i], today);
      MaxSoFarStep(levels, i, chosen, highest);
      if Less(highest, riskLevel) {
        chosen := Some(i);
        highest := riskLevel;
      }
      i := i + 1;
    }
    MaxSoFarMeaning(projects, today, levels, chosen, highest);
    ScanAgrees(projects, CorrectedBinding(today).value, levels, 0, None, Finite(0.0));
  }

  /** What the running maximum knows after the last project, restated
      in terms of the projects' risk levels. */
  lemma MaxSoFarMeaning(projects: seq<Project>, today: Date, levels: seq<Num>, chosen: Option<nat>, highest: Num)
    requires levels == RiskLevels(projects, today)
    requires MaxSoFar(levels, |levels|, chosen, highest)
    ensures chosen.Some? ==> chosen.value < |projects| && highest == ProjectRiskLevel(projects[chosen.value], today)
    ensures chosen.None? ==> highest == Finite(0.0)
    ensures AtLeast(highest, Finite(0.0))
    ensures forall i :: 0 <= i < |projects| ==> !Less(highest, ProjectRiskLevel(projects[i], today))
    ensures chosen.None? <==> forall i :: 0 <= i < |projects| ==> !Less(Finite(0.0), ProjectRiskLevel(projects[i], today))
    ensures chosen.Some? ==> Less(Finite(0.0), highest)
    ensures chosen.Some? ==> forall i :: 0 <= i < chosen.value ==> !AtLeast(ProjectRiskLevel(projects[i], today), highest)
  {
    if chosen.Some? {
      assert Less(Finite(0.0), levels[chosen.value]);
    } else {
      forall i | 0 <= i < |projects|
        ensures !Less(Finite(0.0), ProjectRiskLevel(projects[i], today))
      {
        assert levels[i] == ProjectRiskLevel(projects[i], today);
      }
    }
  }

  // ------------------------------------------------ getProjectTaskStatus

  /** How many of the tasks have the given status. */
  function StatusCount(tasks: seq<Task>, status: TaskStatus): nat
    decreases |tasks|
  {
    if |tasks| == 0 then 0
    else StatusCount(tasks[..|tasks| - 1], status) + (if tasks[|tasks| - 1].status == status then 1 else 0)
  }

  /** Every task has one of the four statuses, so the four counts add up
      to the number of tasks. */
  lemma {:induction false} StatusCountsPartition(tasks: seq<Task>)
    ensures StatusCount(tasks, InProgress) + StatusCount(tasks, Completed)
          + StatusCount(tasks, Backlog) + StatusCount(tasks, Idle) == |tasks|
    decreases |tasks|
  {
    if |tasks| > 0 {
      StatusCountsPartition(tasks[..|tasks| - 1]);
    }
  }

  /** The counter's `completed` is the filter count the completion
      percentage and the risk report use. */
  lemma {:induction false} StatusCountCompleted(tasks: seq<Task>)
    ensures StatusCount(tasks, Completed) == CompletedCount(tasks)
    decreases |tasks|
  {
    if |tasks| > 0 {
      StatusCountCompleted(tasks[..|tasks| - 1]);
    }
  }

  /** The `switch` over `task.status` incrementing one of four counters. */
  method GetProjectTaskStatus(tasks: seq<Task>) returns (pending: nat, completed: nat, backlogs: nat, idle: nat)
    ensures pending == StatusCount(tasks, InProgress)
    ensures completed == StatusCount(tasks, Completed) && completed == CompletedCount(tasks)
    ensures backlogs == StatusCount(tasks, Backlog)
    ensures idle == StatusCount(tasks, Idle)
    ensures pending + completed + backlogs + idle == |tasks|
  {
    pending, completed, backlogs, idle := 0, 0, 0, 0;
    var i := 0;
    while i < |tasks|
      invariant 0 <= i <= |tasks|
      invariant pending == StatusCount(tasks[..i], InProgress)
      invariant completed == StatusCount(tasks[..i], Completed)
      invariant backlogs == StatusCount(tasks[..i], Backlog)
      invariant idle == StatusCount(tasks[..i], Idle)
    {
      assert tasks[..i + 1][..i] == tasks[..i];
      match tasks[i].status {
        case InProgress => pending := pending + 1;
        case Completed => completed := completed + 1;
        case Backlog => backlogs := backlogs + 1;
        case Idle => idle := idle + 1;
      }
      i := i + 1;
    }
    assert tasks[..i] == tasks;
    StatusCountsPartition(tasks);
    StatusCountCompleted(tasks);
  }

  // ---------------------------------------------- getProjectProductivity

  /** The day keys of the tasks that have a completion date, in task order. */
  function CompletionKeys(tasks: seq<Task>): seq<string>
    decreases |tasks|
  {
    if |tasks| == 0 then []
    else
      var t := tasks[|tasks| - 1];
      CompletionKeys(tasks[..|tasks| - 1]) + (if t.completedOn.Some? then [DayKey(t.completedOn.value)] else [])
  }

  lemma CompletionKeysStep(tasks: seq<Task>, i: nat)
    requires i < |tasks|
    ensures tasks[i].completedOn.Some? ==>
      CompletionKeys(tasks[..i + 1]) == CompletionKeys(tasks[..i]) + [DayKey(tasks[i].completedOn.value)]
    ensures tasks[i].completedOn.None? ==> CompletionKeys(tasks[..i + 1]) == CompletionKeys(tasks[..i])
  {
    assert tasks[..i + 1][..i] == tasks[..i];
    assert CompletionKeys(tasks[..i]) + [] == CompletionKeys(tasks[..i]);
  }

  /** How many tasks have a completion date. */
  function CompletedOnCount(tasks: seq<Task>): nat
    decreases |tasks|
  {
    if |tasks| == 0 then 0
    else CompletedOnCount(tasks[..|tasks| - 1]) + (if tasks[|tasks| - 1].completedOn.Some? then 1 else 0)
  }

  /** How many tasks were completed on the calendar day `d`. */
  function CompletedOnDay(tasks: seq<Task>, d: Date): nat
    decreases |tasks|
  {
    if |tasks| == 0 then 0
    else CompletedOnDay(tasks[..|tasks| - 1], d) + (if tasks[|tasks| - 1].completedOn == Some(d) then 1 else 0)
  }

  /** One key per completed task, and the occurrences of a day's key are
      exactly the tasks completed that day. */
  lemma {:induction false} CompletionKeysLength(tasks: seq<Task>)
    ensures |CompletionKeys(tasks)| == CompletedOnCount(tasks)
    decreases |tasks|
  {
    if |tasks| > 0 {
      CompletionKeysLength(tasks[..|tasks| - 1]);
    }
  }

  lemma {:induction false} CompletionKeysCount(tasks: seq<Task>, d: Date)
    ensures multiset(CompletionKeys(tasks))[DayKey(d)] == CompletedOnDay(tasks, d)
    decreases |tasks|
  {
    if |tasks| > 0 {
      var t := tasks[|tasks| - 1];
      CompletionKeysCount(tasks[..|tasks| - 1], d);
      if t.completedOn.Some? {
        DayKeyInjective(t.completedOn.value, d);
      }
    }
  }

  /** The `productivity` object: its keys in insertion order, and the
      count under each key. */
  datatype Counter = Counter(order: seq<string>, counts: map<string, nat>)

  /** Every listed key has a count. */
  predicate Listed(order: seq<string>, counts: map<string, nat>)
  {
    forall i :: 0 <= i < |order| ==> order[i] in counts
  }

  /** No key is listed twice. */
  predicate Distinct(order: seq<string>)
  {
    forall i, j :: 0 <= i < j < |order| ==> order[i] != order[j]
  }

  /** Every listed key has a count, every count is listed, no key twice. */
  ghost predicate WellFormed(c: Counter)
  {
    && Listed(c.order, c.counts)
    && (forall k :: k in c.counts ==> k in c.order)
    && Distinct(c.order)
  }

  /** One iteration for a task with a completion date: a present key (its
      count is at least 1, so the truthiness test holds) is incremented in
      place, a new key is added with 1 at the end. */
  function Add(c: Counter, key: string): (r: Counter)
    requires WellFormed(c)
    ensures WellFormed(r)
    ensures forall k :: k in r.counts <==> k in c.counts || k == key
  {
    if key in c.counts then Counter(c.order, c.counts[key := c.counts[key] + 1])
    else Counter(c.order + [key], c.counts[key := 1])
  }

  /** The object after the loop has seen `keys`. */
  function Tally(keys: seq<string>): (r: Counter)
    ensures WellFormed(r)
    ensures forall k :: k in r.counts <==> k in keys
    decreases |keys|
  {
    if |keys| == 0 then Counter([], map[])
    else
      var prefix := keys[..|keys| - 1];
      assert keys == prefix + [keys[|keys| - 1]];
      Add(Tally(prefix), keys[|keys| - 1])
  }

  lemma TallyStep(keys: seq<string>, key: string)
    ensures Tally(keys + [key]) == Add(Tally(keys), key)
  {
    assert (keys + [key])[..|keys|] == keys;
  }

  /** The count under each key is the number of its occurrences. */
  lemma {:induction false} TallyCounts(keys: seq<string>)
    ensures forall k :: k in Tally(keys).counts ==>
      Tally(keys).counts[k] == multiset(keys)[k] && Tally(keys).counts[k] >= 1
    decreases |keys|
  {
    if |keys| > 0 {
      var prefix := keys[..|keys| - 1];
      var key := keys[|keys| - 1];
      assert keys == prefix + [key];
      TallyCounts(prefix);
      assert multiset(keys) == multiset(prefix) + multiset{key};
    }
  }

  datatype Entry = Entry(date: string, value: nat)

  /** `Object.entries(productivity)`: the keys are not integer-like, so
      they come out in insertion order. */
  function Entries(order: seq<string>, counts: map<string, nat>): (r: seq<Entry>)
    requires Listed(order, counts)
    ensures |r| == |order|
    ensures forall i :: 0 <= i < |order| ==> r[i] == Entry(order[i], counts[order[i]])
    decreases |order|
  {
    if |order| == 0 then []
    else Entries(order[..|order| - 1], counts) + [Entry(order[|order| - 1], counts[order[|order| - 1]])]
  }

  lemma EntriesStep(order: seq<string>, counts: map<string, nat>, j: nat)
    requires j < |order|
    requires Listed(order, counts)
    ensures Entries(order[..j + 1], counts) == Entries(order[..j], counts) + [Entry(order[j], counts[order[j]])]
  {
    assert order[..j + 1][..j] == order[..j];
  }

  /** The `productivityData` list the handler returns. */
  function ProductivityData(tasks: seq<Task>): seq<Entry>
  {
    var c := Tally(CompletionKeys(tasks));
    Entries(c.order, c.counts)
  }

  /** Each entry of a tally is a key with its number of occurrences. */
  lemma TallyEntriesCount(keys: seq<string>)
    ensures forall i :: 0 <= i < |Entries(Tally(keys).order, Tally(keys).counts)| ==>
      var e := Entries(Tally(keys).order, Tally(keys).counts)[i];
      e.value >= 1 && e.date in keys && e.value == multiset(keys)[e.date]
  {
    TallyCounts(keys);
    var c := Tally(keys);
    assert forall k :: k in c.counts ==> k in keys && c.counts[k] == multiset(keys)[k] && c.counts[k] >= 1;
    EntriesCount(c.order, c.counts, keys);
  }

  lemma EntriesCount(order: seq<string>, counts: map<string, nat>, keys: seq<string>)
    requires Listed(order, counts)
    requires forall k :: k in counts ==> k in keys && counts[k] == multiset(keys)[k] && counts[k] >= 1
    ensures forall i :: 0 <= i < |Entries(order, counts)| ==>
      var e := Entries(order, counts)[i];
      e.value >= 1 && e.date in keys && e.value == multiset(keys)[e.date]
  {
    var data := Entries(order, counts);
    forall i | 0 <= i < |data|
      ensures data[i].value >= 1 && data[i].date in keys
      ensures data[i].value == multiset(keys)[data[i].date]
    {
      var k := order[i];
      assert k in counts;
      assert data[i] == Entry(k, counts[k]);
    }
  }

  /** No key has two entries. */
  lemma TallyEntriesDistinct(keys: seq<string>)
    ensures forall i, j :: 0 <= i < j < |Entries(Tally(keys).order, Tally(keys).counts)| ==>
      Entries(Tally(keys).order, Tally(keys).counts)[i].date != Entries(Tally(keys).order, Tally(keys).counts)[j].date
  {
    var c := Tally(keys);
    var data := Entries(c.order, c.counts);
    forall i, j | 0 <= i < j < |data|
      ensures data[i].date != data[j].date
    {
      assert data[i].date == c.order[i] && data[j].date == c.order[j];
    }
  }

  /** Each day appears once, with the number of tasks completed on it. */
  lemma ProductivityDataShape(tasks: seq<Task>)
    ensures forall i :: 0 <= i < |ProductivityData(tasks)| ==> ProductivityData(tasks)[i].value >= 1
    ensures forall i, j :: 0 <= i < j < |ProductivityData(tasks)| ==>
      ProductivityData(tasks)[i].date != ProductivityData(tasks)[j].date
    ensures forall i :: 0 <= i < |ProductivityData(tasks)| ==>
      ProductivityData(tasks)[i].date in CompletionKeys(tasks)
    ensures forall i :: 0 <= i < |ProductivityData(tasks)| ==>
      ProductivityData(tasks)[i].value == multiset(CompletionKeys(tasks))[ProductivityData(tasks)[i].date]
  {
    TallyEntriesCount(CompletionKeys(tasks));
    TallyEntriesDistinct(CompletionKeys(tasks));
  }

  function SumValues(entries: seq<Entry>): nat
    decreases |entries|
  {
    if |entries| == 0 then 0 else SumValues(entries[..|entries| - 1]) + entries[|entries| - 1].value
  }

  /** Raising one key's count raises the sum by one when the key occurs
      once in the order, and leaves it alone when it does not occur. */
  lemma {:induction false} EntriesBump(order: seq<string>, counts: map<string, nat>, key: string)
    requires Listed(order, counts)
    requires key in counts
    requires Distinct(order)
    ensures SumValues(Entries(order, counts[key := counts[key] + 1]))
         == SumValues(Entries(order, counts)) + (if key in order then 1 else 0)
    decreases |order|
  {
    if |order| > 0 {
      var prefix := order[..|order| - 1];
      EntriesBump(prefix, counts, key);
      assert key == order[|order| - 1] ==> key !in prefix;
    }
  }

  /** Entries do not depend on the count of a key outside the order. */
  lemma {:induction false} EntriesUnaffected(order: seq<string>, counts: map<string, nat>, key: string, v: nat)
    requires Listed(order, counts)
    requires key !in order
    ensures Entries(order, counts[key := v]) == Entries(order, counts)
    decreases |order|
  {
    if |order| > 0 {
      EntriesUnaffected(order[..|order| - 1], counts, key, v);
    }
  }

  lemma SumValuesAppend(entries: seq<Entry>, e: Entry)
    ensures SumValues(entries + [e]) == SumValues(entries) + e.value
  {
    assert (entries + [e])[..|entries|] == entries;
  }

  lemma EntriesAppend(order: seq<string>, counts: map<string, nat>, key: string)
    requires Listed(order, counts)
    requires key in counts
    ensures Entries(order + [key], counts) == Entries(order, counts) + [Entry(key, counts[key])]
  {
    assert (order + [key])[..|order|] == order;
  }

  /** A new key adds its count of 1 at the end. */
  lemma AddSumNew(order: seq<string>, counts: map<string, nat>, key: string)
    requires Listed(order, counts)
    requires key !in order
    ensures SumValues(Entries(order + [key], counts[key := 1])) == SumValues(Entries(order, counts)) + 1
  {
    var extended := counts[key := 1];
    EntriesAppend(order, extended, key);
    EntriesUnaffected(order, counts, key, 1);
    SumValuesAppend(Entries(order, counts), Entry(key, 1));
  }

  /** Each iteration adds exactly one to the sum of the counts. */
  lemma AddSum(c: Counter, key: string)
    requires WellFormed(c)
    ensures SumValues(Entries(Add(c, key).order, Add(c, key).counts)) == SumValues(Entries(c.order, c.counts)) + 1
  {
    var order, counts := c.order, c.counts;
    if key in counts {
      assert key in order;
      assert Add(c, key) == Counter(order, counts[key := counts[key] + 1]);
      EntriesBump(order, counts, key);
    } else {
      assert key !in order;
      assert Add(c, key) == Counter(order + [key], counts[key := 1]);
      AddSumNew(order, counts, key);
    }
  }

  /** The counts of the tally add up to the number of keys. */
  lemma {:induction false} TallySum(keys: seq<string>)
    ensures SumValues(Entries(Tally(keys).order, Tally(keys).counts)) == |keys|
    decreases |keys|
  {
    if |keys| > 0 {
      var prefix := keys[..|keys| - 1];
      TallySum(prefix);
      AddSum(Tally(prefix), keys[|keys| - 1]);
    }
  }

  /** The position of the first occurrence of `key`. */
  function FirstIndex(keys: seq<string>, key: string): (r: nat)
    requires key in keys
    ensures r < |keys| && keys[r] == key
    ensures forall j :: 0 <= j < r ==> keys[j] != key
    decreases |keys|
  {
    var prefix := keys[..|keys| - 1];
    if key in prefix then FirstIndex(prefix, key) else |keys| - 1
  }

  lemma FirstIndexExtend(prefix: seq<string>, last: string, k: string)
    requires k in prefix
    ensures FirstIndex(prefix + [last], k) == FirstIndex(prefix, k)
  {
    assert (prefix + [last])[..|prefix|] == prefix;
  }

  lemma FirstIndexLast(prefix: seq<string>, last: string)
    requires last !in prefix
    ensures FirstIndex(prefix + [last], last) == |prefix|
  {
    assert (prefix + [last])[..|prefix|] == prefix;
  }

  /** `order` lists keys of `keys` by increasing first occurrence. */
  ghost predicate FirstOrdered(keys: seq<string>, order: seq<string>)
  {
    && (forall i :: 0 <= i < |order| ==> order[i] in keys)
    && (forall i, j :: 0 <= i < j < |order| ==> FirstIndex(keys, order[i]) < FirstIndex(keys, order[j]))
  }

  /** A key seen before leaves the listing as it was; a new key is
      appended. */
  lemma AddOrder(c: Counter, key: string)
    requires WellFormed(c)
    ensures key in c.counts ==> Add(c, key).order == c.order
    ensures key !in c.counts ==> Add(c, key).order == c.order + [key]
  {
  }

  /** The tally lists the keys in the order of their first occurrences. */
  lemma {:induction false} TallyOrder(keys: seq<string>)
    ensures FirstOrdered(keys, Tally(keys).order)
    decreases |keys|
  {
    if |keys| > 0 {
      var prefix, last := keys[..|keys| - 1], keys[|keys| - 1];
      assert keys == prefix + [last];
      var before := Tally(prefix);
      TallyOrder(prefix);
      TallyStep(prefix, last);
      AddOrder(before, last);
      OrderExtends(prefix, last, before.order, Tally(keys).order);
    }
  }

  /** Appending one key keeps a listing ordered when the listing stays as
      it was, or gains that key as a newcomer at its end. */
  lemma OrderExtends(prefix: seq<string>, last: string, before: seq<string>, after: seq<string>)
    requires FirstOrdered(prefix, before)
    requires after == before || (after == before + [last] && last !in prefix)
    ensures FirstOrdered(prefix + [last], after)
  {
    forall i | 0 <= i < |after|
      ensures after[i] in prefix + [last]
    {
    }
    forall i, j | 0 <= i < j < |after|
      ensures FirstIndex(prefix + [last], after[i]) < FirstIndex(prefix + [last], after[j])
    {
      FirstIndexExtend(prefix, last, before[i]);
      if j < |before| {
        FirstIndexExtend(prefix, last, before[j]);
      } else {
        FirstIndexLast(prefix, last);
      }
    }
  }

  /** The values of the productivity list add up to the number of tasks
      with a completion date. */
  lemma ProductivityDataSum(tasks: seq<Task>)
    ensures SumValues(ProductivityData(tasks)) == CompletedOnCount(tasks)
  {
    var keys := CompletionKeys(tasks);
    TallySum(keys);
    CompletionKeysLength(tasks);
  }

  /** The productivity list holds an entry for a day exactly when some task
      was completed on it, and that entry's value is the number of tasks
      completed on that day. */
  lemma ProductivityDataDays(tasks: seq<Task>, d: Date)
    ensures CompletedOnDay(tasks, d) > 0 <==>
      exists i :: 0 <= i < |ProductivityData(tasks)| && ProductivityData(tasks)[i].date == DayKey(d)
    ensures forall i :: 0 <= i < |ProductivityData(tasks)| && ProductivityData(tasks)[i].date == DayKey(d) ==>
      ProductivityData(tasks)[i].value == CompletedOnDay(tasks, d)
  {
    var keys := CompletionKeys(tasks);
    var c := Tally(keys);
    ProductivityDataShape(tasks);
    CompletionKeysCount(tasks, d);
    var data := Entries(c.order, c.counts);
    assert data == ProductivityData(tasks);
    if DayKey(d) in keys {
      var i := FirstIndex(c.order, DayKey(d));
      assert data[i].date == DayKey(d);
    }
  }

  /** The days appear in the order in which the tasks first mention them. */
  lemma ProductivityDataOrder(tasks: seq<Task>)
    ensures forall i, j :: 0 <= i < j < |ProductivityData(tasks)| ==>
      FirstIndex(CompletionKeys(tasks), ProductivityData(tasks)[i].date)
      < FirstIndex(CompletionKeys(tasks), ProductivityData(tasks)[j].date)
  {
    var keys := CompletionKeys(tasks);
    var c := Tally(keys);
    TallyOrder(keys);
    var data := Entries(c.order, c.counts);
    assert data == ProductivityData(tasks);
  }

  /** The body of the `forEach` for a task with a completion date:
      `productivity[dateKey]++` when the key is present (its count is at
      least 1, so the truthiness test holds), `productivity[dateKey] = 1`
      otherwise, which also appends the key to the insertion order. */
  method CountCompletion(order: seq<string>, productivity: map<string, nat>, dateKey: string)
    returns (order': seq<string>, productivity': map<string, nat>)
    requires WellFormed(Counter(order, productivity))
    ensures Counter(order', productivity') == Add(Counter(order, productivity), dateKey)
  {
    if dateKey in productivity {
      order', productivity' := order, productivity[dateKey := productivity[dateKey] + 1];
    } else {
      order', productivity' := order + [dateKey], productivity[dateKey := 1];
    }
  }

  /** The handler's first loop: the tally of completion days over the
      tasks, into the `productivity` object. */
  method TallyCompletions(tasks: seq<Task>) returns (order: seq<string>, productivity: map<string, nat>)
    ensures Counter(order, productivity) == Tally(CompletionKeys(tasks))
  {
    order := [];
    productivity := map[];
    var i := 0;
    while i < |tasks|
      invariant 0 <= i <= |tasks|
      invariant Counter(order, productivity) == Tally(CompletionKeys(tasks[..i]))
    {
      CompletionKeysStep(tasks, i);
      var task := tasks[i];
      if task.completedOn.Some? {
        var dateKey := DayKey(task.completedOn.value);
        TallyStep(CompletionKeys(tasks[..i]), dateKey);
        order, productivity := CountCompletion(order, productivity, dateKey);
      }
      i := i + 1;
    }
    assert tasks[..i] == tasks;
  }

  /** The handler: the tally, then `Object.entries` turned into the list. */
  method GetProjectProductivity(tasks: seq<Task>) returns (productivityData: seq<Entry>)
    ensures productivityData == ProductivityData(tasks)
  {
    var order, productivity := TallyCompletions(tasks);
    assert Listed(order, productivity);
    productivityData := [];
    var j := 0;
    while j < |order|
      invariant 0 <= j <= |order|
      invariant productivityData == Entries(order[..j], productivity)
    {
      EntriesStep(order, productivity, j);
      productivityData := productivityData + [Entry(order[j], productivity[order[j]])];
      j := j + 1;
    }
    assert order[..j] == order;
    assert productivityData == Entries(order, productivity);
  }

  // ----------------------------------------------- getProjectStatusCount

  datatype StatusEntry = StatusEntry(name: string, value: nat)

  /** How many projects have the given status. */
  function ProjectStatusTotal(projects: seq<Project>, status: ProjectStatus): nat
    decreases |projects|
  {
    if |projects| == 0 then 0
    else ProjectStatusTotal(projects[..|projects| - 1], status) + (if projects[|projects| - 1].status == status then 1 else 0)
  }

  /** How many projects have a status outside the three known ones. */
  function UnlistedTotal(projects: seq<Project>): nat
    decreases |projects|
  {
    if |projects| == 0 then 0
    else UnlistedTotal(projects[..|projects| - 1]) + (if projects[|projects| - 1].status.Unlisted? then 1 else 0)
  }

  lemma {:induction false} ProjectStatusPartition(projects: seq<Project>)
    ensures ProjectStatusTotal(projects, Active) + ProjectStatusTotal(projects, Inactive)
          + ProjectStatusTotal(projects, Finished) + UnlistedTotal(projects) == |projects|
    decreases |projects|
  {
    if |projects| > 0 {
      ProjectStatusPartition(projects[..|projects| - 1]);
    }
  }

  /** `projectStatusCount[project.status]++` over the projects, then the
      three known keys in declaration order. An unknown status only adds a
      key the output loop skips. */
  method GetProjectStatusCount(projects: seq<Project>) returns (progressData: seq<StatusEntry>)
    ensures |progressData| == 3
    ensures progressData[0] == StatusEntry("Active", ProjectStatusTotal(projects, Active))
    ensures progressData[1] == StatusEntry("Inactive", ProjectStatusTotal(projects, Inactive))
    ensures progressData[2] == StatusEntry("Completed", ProjectStatusTotal(projects, Finished))
    ensures progressData[0].value + progressData[1].value + progressData[2].value
         == |projects| - UnlistedTotal(projects)
  {
    var active, inactive, completed := 0, 0, 0;
    var i := 0;
    while i < |projects|
      invariant 0 <= i <= |projects|
      invariant active == ProjectStatusTotal(projects[..i], Active)
      invariant inactive == ProjectStatusTotal(projects[..i], Inactive)
      invariant completed == ProjectStatusTotal(projects[..i], Finished)
    {
      assert projects[..i + 1][..i] == projects[..i];
      match projects[i].status {
        case Active => active := active + 1;
        case Inactive => inactive := inactive + 1;
        case Finished => completed := completed + 1;
        case Unlisted(_) =>
      }
      i := i + 1;
    }
    assert projects[..i] == projects;
    ProjectStatusPartition(projects);
    progressData := [StatusEntry("Active", active), StatusEntry("Inactive", inactive), StatusEntry("Completed", completed)];
  }
}
