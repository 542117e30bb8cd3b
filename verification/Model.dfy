/** The plain data of a board: the records of `model/model.go`.

    Times are integer nanoseconds and calendar dates are day numbers. Strings
    that the source formats for people (the `detail` of a log entry) are kept as
    structured values. An enumerated string type carries one extra constructor
    that stands for every string outside the enumeration. */
module Model {
  import opened Basics

  type Time = int
  type Day = int
  type Bytes = seq<bv8>

  const SECOND: int := 1_000_000_000
  const SCHEMA_VERSION: int := 3

  datatype Status = Todo | InProgress | Review | Done | Blocked | OtherStatus(name: string) {
    predicate Valid() { !OtherStatus? }
  }

  datatype Priority = Low | Medium | High | Urgent | OtherPriority(name: string) {
    predicate Valid() { !OtherPriority? }

    /** 0 (low) to 3 (urgent); unknown priorities rank as low. */
    function Rank(): nat {
      match this
      case Medium => 1
      case High => 2
      case Urgent => 3
      case _ => 0
    }
  }

  datatype Kind = Epic | Story | Leaf | OtherKind(name: string) {
    predicate Valid() { !OtherKind? }

    /** 0 for epics, 1 for stories, 2 for tasks and for anything unknown. */
    function Level(): nat {
      match this
      case Epic => 0
      case Story => 1
      case _ => 2
    }
  }

  datatype Project = Project(key: string, name: string, nextSeq: int, createdAt: Time)

  datatype Task = Task(
    id: string,
    project: string,
    kind: Kind,
    parent: string,
    title: string,
    description: string,
    status: Status,
    priority: Priority,
    labels: seq<string>,
    assignee: string,
    leaseExpires: Option<Time>,
    leaseSeconds: int,
    createdBy: string,
    updatedBy: string,
    createdAt: Time,
    updatedAt: Time,
    startDate: Option<Day>,
    endDate: Option<Day>)

  datatype Agent = Agent(
    name: string,
    kind: string,
    lastHeartbeat: Time,
    currentTask: string,
    meta: Option<map<string, string>>,
    online: bool)

  datatype User = User(
    email: string,
    passwordHash: Bytes,
    salt: Bytes,
    iterations: int,
    createdAt: Time,
    updatedAt: Time)

  datatype Action =
    | ProjectCreated | TaskCreated | LeaseClaimed | LeaseRenewed | LeaseReleased
    | LeaseExpired | TaskDone | FieldsUpdated | StatusMoved | Commented
    | UserRegistered | UserRehashed | ServerStopped | OtherAction(name: string)

  datatype Detail =
    | NoDetail
    | Text(text: string)
    | NamedProject(key: string, name: string)
    | ReleasedFrom(agent: string)
    | LeaseOf(length: int)
    | ChangedFields(fields: seq<string>)
    | MovedFromTo(from: Status, to: Status)

  datatype Activity = Activity(
    id: int,
    time: Time,
    actor: string,
    taskID: string,
    action: Action,
    detail: Detail)

  datatype State = State(
    version: int,
    projects: map<string, Project>,
    tasks: map<string, Task>,
    agents: map<string, Agent>,
    users: map<string, User>,
    activity: seq<Activity>,
    nextActivityID: int,
    archivedThrough: int)

  const NEW_STATE: State := State(SCHEMA_VERSION, map[], map[], map[], map[], [], 0, 0)
}
