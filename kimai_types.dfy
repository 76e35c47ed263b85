/** The records the panel receives from the Kimai REST API (src/types.ts). */
module KimaiTypes {
  import opened Wrappers

  datatype Customer = Customer(id: nat, name: string)

  datatype Project = Project(id: nat, name: string, customer: nat)

  /** `project` is null for an activity that belongs to every project. */
  datatype Activity = Activity(id: nat, name: string, project: Option<nat>)

  /**
   * A timesheet entry; `beginMs` and `endMs` are the instants the API's
   * timestamps denote, in milliseconds. `endMs` is None while the timer runs.
   */
  datatype TimesheetEntry = TimesheetEntry(
    id: nat,
    description: Option<string>,
    beginMs: int,
    endMs: Option<int>,
    project: Option<nat>,
    activity: nat,
    tags: seq<string>)
}
