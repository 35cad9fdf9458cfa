/** helpers/projectHelper.js: the fractional-month duration calculator and
    the single-number risk level, together with the quantities both the
    helper and the project controller compute from a project. */
module ProjectHelper {
  import opened Wrappers
  import opened JsNumber
  import opened Calendar
  import opened Models

  /** `calculateDurationInMonths(start, end)`: whole months from the year
      and month fields, plus the day difference as a fraction of the length
      of the START month. Negative when `end` is before `start`. */
  function MonthsBetween(start: Date, end: Date): real
  {
    var totalMonths := (end.year - start.year) * 12 + (end.month - start.month);
    var dayDiff := end.day - start.day;
    totalMonths as real + dayDiff as real / DaysInStartMonth(start) as real
  }

  /** The whole-month part of the calculator. */
  function WholeMonths(start: Date, end: Date): int
  {
    12 * (end.year - start.year) + (end.month - start.month)
  }

  /** `k/x - k/y` as one factor times the difference of the unit shares. */
  lemma ShareDifference(k: real, x: real, y: real)
    requires x > 0.0 && y > 0.0
    ensures k / x - k / y == k * (1.0 / x - 1.0 / y)
  {
    assert k / x == k * (1.0 / x);
    assert k / y == k * (1.0 / y);
  }

  /** A non-zero amount has the same share of two positive totals only when they are equal. */
  lemma SameShare(k: real, x: real, y: real)
    requires x > 0.0 && y > 0.0 && k != 0.0 && k / x == k / y
    ensures x == y
  {
    var q := k / x;
    assert q * x == k;
    assert q * y == k;
    assert q * (x - y) == 0.0;
  }

  /** A part of a positive whole is a share between 0 and 1, and 1 only for the whole. */
  lemma ShareBounds(c: real, t: real)
    requires 0.0 <= c <= t && t > 0.0
    ensures 0.0 <= c / t <= 1.0
    ensures c / t == 1.0 <==> c == t
    ensures c / t == 0.0 <==> c == 0.0
  {
    assert (c / t) * t == c;
  }

  /** The same bounds for a count out of a positive total, as a percentage. */
  lemma PercentBounds(c: nat, t: nat)
    requires c <= t && t > 0
    ensures Times(Div(c as real, t as real), 100.0) == Finite(c as real / t as real * 100.0)
    ensures 0.0 <= c as real / t as real * 100.0 <= 100.0
    ensures c as real / t as real * 100.0 == 100.0 <==> c == t
    ensures c as real / t as real * 100.0 == 0.0 <==> c == 0
  {
    ShareBounds(c as real, t as real);
  }

  lemma MonthsBetweenSelf(d: Date)
    ensures MonthsBetween(d, d) == 0.0
  {
  }

  lemma MonthsBetweenSameDayOfMonth(start: Date, end: Date)
    requires start.day == end.day
    ensures MonthsBetween(start, end) == WholeMonths(start, end) as real
  {
  }

  lemma MonthsBetweenParts(start: Date, end: Date)
    ensures MonthsBetween(start, end)
         == WholeMonths(start, end) as real + (end.day - start.day) as real / DaysInStartMonth(start) as real
  {
  }

  /** Swapping the arguments negates the whole-month part, but the day
      fraction is measured against a different month: the sum of both
      directions is the day difference as a share of the first month less
      the same difference as a share of the second. */
  lemma MonthsBetweenSwapped(a: Date, b: Date)
    ensures MonthsBetween(a, b) + MonthsBetween(b, a)
         == (b.day - a.day) as real / DaysInStartMonth(a) as real - (b.day - a.day) as real / DaysInStartMonth(b) as real
  {
    MonthsBetweenParts(a, b);
    MonthsBetweenParts(b, a);
    SwappedArithmetic(MonthsBetween(a, b), MonthsBetween(b, a), WholeMonths(a, b), WholeMonths(b, a),
      a.day, b.day, DaysInStartMonth(a), DaysInStartMonth(b));
  }

  /** Hence the calculator is antisymmetric exactly when the two days of
      month agree or the two months have the same length. */
  lemma MonthsBetweenAntisymmetric(a: Date, b: Date)
    ensures MonthsBetween(a, b) == -MonthsBetween(b, a)
        <==> a.day == b.day || DaysInStartMonth(a) == DaysInStartMonth(b)
  {
    MonthsBetweenParts(a, b);
    MonthsBetweenParts(b, a);
    SwappedArithmetic(MonthsBetween(a, b), MonthsBetween(b, a), WholeMonths(a, b), WholeMonths(b, a),
      a.day, b.day, DaysInStartMonth(a), DaysInStartMonth(b));
  }

  /** The two directions of the calculator, in the shape the calculator
      computes them. */
  lemma SwappedArithmetic(ab: real, ba: real, w: int, wb: int, dayA: int, dayB: int, da: int, db: int)
    requires da > 0 && db > 0 && wb == -w
    requires ab == w as real + (dayB - dayA) as real / da as real
    requires ba == wb as real + (dayA - dayB) as real / db as real
    ensures ab + ba == (dayB - dayA) as real / da as real - (dayB - dayA) as real / db as real
    ensures ab == -ba <==> dayA == dayB || da == db
  {
    var k, x, y := (dayB - dayA) as real, da as real, db as real;
    assert (dayA - dayB) as real / y == -(k / y);
    ShareDifference(k, x, y);
    if k != 0.0 && k / x == k / y {
      SameShare(k, x, y);
    }
  }

  /** Moving the end one day later within its month adds exactly one day's
      share of the start month. */
  lemma MonthsBetweenNextDay(start: Date, end: Date, later: Date)
    requires later.year == end.year && later.month == end.month && later.day == end.day + 1
    ensures MonthsBetween(start, later) == MonthsBetween(start, end) + 1.0 / DaysInStartMonth(start) as real
  {
    var dim := DaysInStartMonth(start) as real;
    assert (later.day - start.day) as real / dim == (end.day - start.day) as real / dim + 1.0 / dim;
  }

  /** `members.reduce((acc, m) => acc + m.salaryPerMonth, 0)`. */
  function Payroll(members: seq<User>): (r: real)
    ensures (forall i :: 0 <= i < |members| ==> members[i].salaryPerMonth >= 0.0) ==> r >= 0.0
    decreases |members|
  {
    if |members| == 0 then 0.0
    else Payroll(members[..|members| - 1]) + members[|members| - 1].salaryPerMonth
  }

  /** `pay * project.duration`. */
  function Cost(p: Project): (r: real)
    ensures Payroll(p.members) >= 0.0 && p.duration >= 0.0 ==> r >= 0.0
    ensures p.duration == 0.0 ==> r == 0.0
  {
    Payroll(p.members) * p.duration
  }

  /** `(completedTasks / totalTasks) * 100`, NaN for a project without tasks. */
  function TaskCompletionPercentage(tasks: seq<Task>): (r: Num)
    ensures |tasks| == 0 ==> r == NaN
    ensures |tasks| > 0 ==> r.Finite? && 0.0 <= r.val <= 100.0
    ensures |tasks| > 0 ==> r.val == CompletedCount(tasks) as real / |tasks| as real * 100.0
  {
    var completed, total := CompletedCount(tasks), |tasks|;
    if total == 0 then Times(Div(completed as real, total as real), 100.0)
    else
      PercentBounds(completed, total);
      Times(Div(completed as real, total as real), 100.0)
  }

  /** The percentage is 100 exactly when every task is completed, and 0
      exactly when none is. */
  lemma TaskCompletionPercentageExtremes(tasks: seq<Task>)
    requires |tasks| > 0
    ensures TaskCompletionPercentage(tasks).val == 100.0 <==> CompletedCount(tasks) == |tasks|
    ensures TaskCompletionPercentage(tasks).val == 0.0 <==> CompletedCount(tasks) == 0
  {
    PercentBounds(CompletedCount(tasks), |tasks|);
  }

  /** `calculateDurationInMonths(new Date(today), new Date(project.endDate))`,
      where `today` is the local midnight of the current day. */
  function RemainingDuration(p: Project, today: Date): real
  {
    MonthsBetween(today, p.endDate.local)
  }

  /** `(remainingDuration / project.duration) * 100`. */
  function DurationPercentage(p: Project, today: Date): Num
  {
    Times(Div(RemainingDuration(p, today), p.duration), 100.0)
  }

  /** The schedule test shared by the helper and the controller:
      `durationPercentage < taskCompletionPercentage`. */
  predicate BehindSchedule(p: Project, today: Date)
  {
    Less(DurationPercentage(p, today), TaskCompletionPercentage(p.tasks))
  }

  /** With a positive duration the test reads as plain arithmetic: less of
      the time is left than of the work is done; with no tasks it never holds. */
  lemma BehindScheduleMeaning(p: Project, today: Date)
    ensures |p.tasks| == 0 ==> !BehindSchedule(p, today)
    ensures p.duration > 0.0 && |p.tasks| > 0 ==>
      (BehindSchedule(p, today)
       <==> RemainingDuration(p, today) / p.duration < CompletedCount(p.tasks) as real / |p.tasks| as real)
    ensures p.duration > 0.0 && BehindSchedule(p, today) ==> RemainingDuration(p, today) < p.duration
  {
    if p.duration > 0.0 && |p.tasks| > 0 {
      var rem, c, t := RemainingDuration(p, today), CompletedCount(p.tasks) as real, |p.tasks| as real;
      assert DurationPercentage(p, today) == Finite(rem / p.duration * 100.0);
      assert TaskCompletionPercentage(p.tasks) == Finite(c / t * 100.0);
      BehindArithmetic(rem, p.duration, c, t);
    }
  }

  /** Comparing the two percentages is comparing the two shares, and a time
      share below a work share (at most 1) means less than the whole
      duration remains. */
  lemma BehindArithmetic(rem: real, dur: real, c: real, t: real)
    requires dur > 0.0 && t > 0.0 && 0.0 <= c <= t
    ensures rem / dur * 100.0 < c / t * 100.0 <==> rem / dur < c / t
    ensures rem / dur < c / t ==> rem < dur
  {
    ShareBounds(c, t);
    assert (rem / dur) * dur == rem;
  }

  /** The ReferenceError the helper throws: it reads the undeclared `riskObj`. */
  datatype RiskLevelError = RiskObjNotDefined

  /** `calculateRiskLevel(project)` as written. The budget percentage is
      computed and then never used; behind schedule, the helper reads the
      undeclared `riskObj` and throws; otherwise `durationRiskPercentage`
      is still 0 and the level is half the task completion percentage. */
  function CalculateRiskLevel(p: Project, today: Date): (r: Result<Num, RiskLevelError>)
    ensures r.Failure? <==> BehindSchedule(p, today)
    ensures r.Success? ==> r.value == Times(TaskCompletionPercentage(p.tasks), 0.5)
    ensures |p.tasks| == 0 ==> r == Success(NaN)
    ensures r.Success? && |p.tasks| > 0 ==> r.value.Finite? && 0.0 <= r.value.val <= 50.0
  {
    var budgetRiskPercentage := if Cost(p) > p.budget then Times(Div(Cost(p), p.budget), 100.0) else Finite(0.0);
    var durationRiskPercentage := Finite(0.0);
    var taskCompletionPercentage := TaskCompletionPercentage(p.tasks);
    if Less(DurationPercentage(p, today), taskCompletionPercentage) then
      Failure(RiskObjNotDefined)
    else
      Success(Times(Plus(durationRiskPercentage, taskCompletionPercentage), 0.5))
  }

  /** Two projects that differ only in their members and budget get the
      same risk level: the budget percentage never reaches the result. */
  lemma BudgetNeverAffectsRiskLevel(p: Project, q: Project, today: Date)
    requires p.(members := q.members, budget := q.budget) == q
    ensures CalculateRiskLevel(p, today) == CalculateRiskLevel(q, today)
  {
    assert p.tasks == q.tasks && p.duration == q.duration && p.endDate == q.endDate;
  }

  /** Any project whose tasks are all complete and whose end date is today
      makes the helper throw: the remaining duration is 0, so 0% of the
      time is left against 100% of the work done. */
  lemma CalculateRiskLevelThrowsWhenDueToday(p: Project, today: Date)
    requires p.duration > 0.0 && |p.tasks| > 0
    requires forall i :: 0 <= i < |p.tasks| ==> p.tasks[i].status == Completed
    requires p.endDate.local == today
    ensures CalculateRiskLevel(p, today) == Failure(RiskObjNotDefined)
  {
    MonthsBetweenSelf(today);
    assert DurationPercentage(p, today) == Finite(0.0);
    assert CompletedCount(p.tasks) == |p.tasks|;
    TaskCompletionPercentageExtremes(p.tasks);
    assert TaskCompletionPercentage(p.tasks) == Finite(100.0);
  }
}
