/** The dashboard's data types, mirroring the interfaces of src/types/openproject.ts. */
module OpenProject {
  import opened Wrappers
  import opened Dates

  /** An `{ id, name }` reference (work-package type, assignee, project, priority). */
  datatype Reference = Reference(id: string, name: string)

  datatype Status = Status(id: string, name: string, color: string)

  /**
   * A normalised work package. `kind` is the source's `type` field. Dates are day numbers;
   * `createdAt` and `updatedAt` are kept as the strings the API sends.
   */
  datatype WorkPackage = WorkPackage(
    id: string,
    subject: string,
    description: Option<string>,
    startDate: Option<Day>,
    dueDate: Option<Day>,
    estimatedTime: Option<real>,
    percentageDone: int,
    createdAt: string,
    updatedAt: string,
    status: Status,
    kind: Reference,
    assignedTo: Option<Reference>,
    project: Reference,
    priority: Reference,
    version: Option<string>)

  datatype User = User(id: string, name: string, email: string, avatar: Option<string>)

  /** The credential pair: the instance's base URL and the user's API key. */
  datatype Credentials = Credentials(url: string, apiKey: string)

  /** Four parallel series, one entry per day. */
  datatype BurndownData = BurndownData(dates: seq<Day>, ideal: seq<real>, actual: seq<real>, remaining: seq<real>)

  datatype WorkloadData = WorkloadData(user: User, assignedTasks: nat, estimatedHours: real, completedTasks: nat)
}
