/** The records the components share, after `src/lib/types.ts`.
    A `Date` is represented by its millisecond timestamp (`getTime()`). */
module Domain {
  import opened Common

  type Timestamp = int

  datatype JobStatus = Scheduled | InProgress | Completed | OnHold | CompletedAndPaid

  /** The label each status is shown with. */
  function StatusLabel(s: JobStatus): string {
    match s
    case Scheduled => "Scheduled"
    case InProgress => "In Progress"
    case Completed => "Completed"
    case OnHold => "On Hold"
    case CompletedAndPaid => "Completed and Paid"
  }

  datatype Task = Task(id: string, description: string, completed: bool)

  /** `dates` is `None` when the stored value is not an array at all; the
      grouping code guards against that case with `Array.isArray`. */
  datatype Job = Job(
    id: string,
    title: string,
    location: string,
    dates: Option<seq<Timestamp>>,
    status: JobStatus,
    tasks: seq<Task>,
    description: string)

  /** The dates of a job, with a non-array value read as no dates. */
  function DatesOf(job: Job): seq<Timestamp> {
    match job.dates
    case Some(ds) => ds
    case None => []
  }

  datatype Notification = Notification(
    id: string,
    title: string,
    description: string,
    date: Timestamp,
    read: bool,
    jobId: Option<string>)

  datatype Role = Foreman | Laborer | Finisher | Driver

  function RoleName(r: Role): string {
    match r
    case Foreman => "Foreman"
    case Laborer => "Laborer"
    case Finisher => "Finisher"
    case Driver => "Driver"
  }

  /** A team member as the team form reads and writes it (with a role). */
  datatype TeamMember = TeamMember(id: string, name: string, role: Role, avatarUrl: string)
}
