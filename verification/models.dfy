/** Records of the task tracker, with field shapes taken from how the
    serializers and helpers use them (core/models.py omits `role` and
    `work_time` on `UserTask`). Decimal fields (`planned_time`,
    `work_time`, `hours`) are integer hundredths. */
module Models {
  import opened Wrappers

  /** `Task.type`: one of the three choices. */
  datatype TaskType = Feature | Bugfix | Hotfix {
    /** The stored choice value, as an f-string prints it. */
    function Value(): string {
      match this
      case Feature => "feature"
      case Bugfix => "bugfix"
      case Hotfix => "hotfix"
    }
  }

  /** `UserTask.Role`: the participant's role on a task. */
  datatype Role = Owner | Executor {
    /** The stored choice value, as an f-string prints it. */
    function Value(): string {
      match this
      case Owner => "owner"
      case Executor => "executor"
    }
  }

  /** A task. `slug` is nullable here so that both a missing and an empty
      slug can be expressed. */
  datatype Task = Task(
    id: nat,
    name: string,
    description: Option<string>,
    status: string,
    taskType: TaskType,
    plannedTime: int,
    slug: Option<string>)

  /** A participant: one user's membership of one task. `workTime` is the
      nullable hours accumulator, in hundredths. */
  datatype UserTask = UserTask(
    id: nat,
    user: nat,
    task: nat,
    role: Role,
    workTime: Option<int>)

  /** `BranchesTask`: a branch record belonging to a task. */
  datatype BranchRecord = BranchRecord(
    name: string,
    url: Option<string>,
    task: nat)
}
