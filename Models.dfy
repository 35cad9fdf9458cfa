/** The records the core reads, already loaded and populated. Only the
    fields the core touches are kept. */
module Models {
  import opened Wrappers
  import opened Calendar

  /** The status enum of a task (models/task.js:14-18). */
  datatype TaskStatus = Idle | InProgress | Completed | Backlog

  /** A task. `deadline` is the instant in epoch milliseconds; `assignee`
      is the e-mail of the populated `assignedTo` user, None when the
      reference is unset or dangling; `completedOn` is the local calendar
      day of the completion instant, None for the default `null`
      (models/task.js:37-40). */
  datatype Task = Task(
    title: string,
    status: TaskStatus,
    deadline: int,
    assignee: Option<string>,
    completedOn: Option<Date>)

  /** A populated member (models/user.js:40-43 for the salary). */
  datatype User = User(id: string, email: string, salaryPerMonth: real)

  /** A project's status: the three values the histogram knows, and any
      other stored value. `Finished` is the stored `"completed"`; it is not
      called `Completed` because `TaskStatus` already has that constructor. */
  datatype ProjectStatus = Active | Inactive | Finished | Unlisted(name: string)

  /** An instant seen both ways the core reads a Date: as epoch
      milliseconds (subtraction) and through the local-time getters. */
  datatype Instant = Instant(epochMs: int, local: Date)

  datatype Project = Project(
    title: string,
    status: ProjectStatus,
    budget: real,
    duration: real,
    endDate: Instant,
    members: seq<User>,
    tasks: seq<Task>,
    owner: Option<string>)

  /** `tasks.filter(task => task.status === "completed").length`. */
  function CompletedCount(tasks: seq<Task>): (n: nat)
    ensures n <= |tasks|
    ensures n == |tasks| <==> forall i :: 0 <= i < |tasks| ==> tasks[i].status == Completed
    ensures n == 0 <==> forall i :: 0 <= i < |tasks| ==> tasks[i].status != Completed
    decreases |tasks|
  {
    if |tasks| == 0 then 0
    else CompletedCount(tasks[..|tasks| - 1]) + (if tasks[|tasks| - 1].status == Completed then 1 else 0)
  }
}
