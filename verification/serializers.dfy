/** The bookkeeping of core/serializers.py: task creation and update,
    participant creation and work-time logging, as operations on an
    in-memory store of tasks, participants and branch records. The call
    sites that name `create_branch_and_task_record` invoke
    `Utils.CreateBranchTaskForParticipant`, the helper that exists. */
module Serializers {
  import opened Wrappers
  import opened Models
  import opened Utils

  /** Tasks and participants keyed by id, branch records in creation order,
      and the next ids the database will hand out. */
  datatype Store = Store(
    tasks: map<nat, Task>,
    userTasks: map<nat, UserTask>,
    branches: seq<BranchRecord>,
    nextTaskId: nat,
    nextUserTaskId: nat)

  /** Ids are keys and below the counters; every participant and record
      refers to a stored task. */
  predicate Valid(s: Store) {
    && (forall id :: id in s.tasks ==> s.tasks[id].id == id && id < s.nextTaskId)
    && (forall id :: id in s.userTasks ==>
          s.userTasks[id].id == id && id < s.nextUserTaskId && s.userTasks[id].task in s.tasks)
    && (forall i :: 0 <= i < |s.branches| ==> s.branches[i].task in s.tasks)
  }

  /** The participants of a task. */
  function Participants(s: Store, taskId: nat): set<nat> {
    set id | id in s.userTasks && s.userTasks[id].task == taskId
  }

  /** The writable task fields of a create request. */
  datatype TaskData = TaskData(
    name: string,
    description: Option<string>,
    status: string,
    taskType: TaskType,
    plannedTime: int)

  /** The fields an update request carries; absent ones keep their value.
      `slug` is read-only and cannot appear. */
  datatype TaskPatch = TaskPatch(
    name: Option<string>,
    description: Option<Option<string>>,
    status: Option<string>,
    taskType: Option<TaskType>,
    plannedTime: Option<int>)

  datatype SerializerError =
    | TaskNotFound
    | HoursRequired
    | HoursTooManyDigits
    | HoursNotPositive

  /** `TaskSerializer.create`: stores the task (with the slug the
      persistence layer assigns), makes the requesting user its only
      participant, as OWNER, and appends that participant's branch record. */
  function TaskCreate(s: Store, user: nat, data: TaskData, slug: Option<string>): (r: (Store, Task))
    requires Valid(s)
    ensures Valid(r.0)
    ensures r.1.id !in s.tasks
    ensures r.1 == Task(r.1.id, data.name, data.description, data.status, data.taskType, data.plannedTime, slug)
    ensures r.0.tasks == s.tasks[r.1.id := r.1]
    ensures exists k: nat :: k !in s.userTasks
              && r.0.userTasks == s.userTasks[k := UserTask(k, user, r.1.id, Owner, None)]
              && Participants(r.0, r.1.id) == {k}
    ensures r.0.branches == s.branches + [BranchRecord(BranchName(r.1, Owner), Some(PlaceholderUrl), r.1.id)]
  {
    var task := Task(s.nextTaskId, data.name, data.description, data.status, data.taskType, data.plannedTime, slug);
    var owner := UserTask(s.nextUserTaskId, user, task.id, Owner, None);
    var (records, _) := CreateBranchTaskForParticipant(s.branches, task, owner);
    var s' := Store(s.tasks[task.id := task], s.userTasks[owner.id := owner], records,
                    s.nextTaskId + 1, s.nextUserTaskId + 1);
    assert Participants(s', task.id) == {owner.id};
    (s', task)
  }

  /** `super().update`: writes the fields the request carries. */
  function ApplyPatch(t: Task, patch: TaskPatch): (t': Task)
    ensures t'.id == t.id && t'.slug == t.slug
    ensures t'.name == patch.name.GetOr(t.name)
    ensures t'.description == patch.description.GetOr(t.description)
    ensures t'.status == patch.status.GetOr(t.status)
    ensures t'.taskType == patch.taskType.GetOr(t.taskType)
    ensures t'.plannedTime == patch.plannedTime.GetOr(t.plannedTime)
  {
    t.(name := patch.name.GetOr(t.name),
       description := patch.description.GetOr(t.description),
       status := patch.status.GetOr(t.status),
       taskType := patch.taskType.GetOr(t.taskType),
       plannedTime := patch.plannedTime.GetOr(t.plannedTime))
  }

  /** `TaskSerializer.update`: updates the task's own fields only. Branch
      records are left as they were, whatever changed (the reconciliation
      call is commented out). */
  function TaskUpdate(s: Store, taskId: nat, patch: TaskPatch): (r: (Store, Task))
    requires Valid(s) && taskId in s.tasks
    ensures Valid(r.0)
    ensures r.1 == ApplyPatch(s.tasks[taskId], patch)
    ensures r.0.tasks == s.tasks[taskId := r.1]
    ensures r.0.branches == s.branches
    ensures r.0.userTasks == s.userTasks
  {
    var t := ApplyPatch(s.tasks[taskId], patch);
    (s.(tasks := s.tasks[taskId := t]), t)
  }

  /** `UserTaskSerializer.create`: binds the new participant to the task
      named by the `task_pk` URL argument (work time starts null) and
      appends one branch record for it. A `task_pk` naming no task fails. */
  function UserTaskCreate(s: Store, taskPk: nat, user: nat, role: Role): (r: Result<(Store, UserTask), SerializerError>)
    requires Valid(s)
    ensures r.Success? <==> taskPk in s.tasks
    ensures r.Failure? ==> r.error == TaskNotFound
    ensures r.Success? ==>
              var (s', p) := r.value;
              && Valid(s')
              && p.id !in s.userTasks
              && p == UserTask(p.id, user, taskPk, role, None)
              && s'.userTasks == s.userTasks[p.id := p]
              && s'.tasks == s.tasks
              && s'.branches == s.branches + [BranchRecord(BranchName(s.tasks[taskPk], role), Some(PlaceholderUrl), taskPk)]
              && Participants(s', taskPk) == Participants(s, taskPk) + {p.id}
  {
    if taskPk !in s.tasks then Failure(TaskNotFound)
    else
      var p := UserTask(s.nextUserTaskId, user, taskPk, role, None);
      var (records, _) := CreateBranchTaskForParticipant(s.branches, s.tasks[taskPk], p);
      var s' := s.(userTasks := s.userTasks[p.id := p], branches := records, nextUserTaskId := s.nextUserTaskId + 1);
      Success((s', p))
  }

  // ---------------------------------------------------------------------
  // Work-time logging. Hours are hundredths of an hour.
  // ---------------------------------------------------------------------

  /** `DecimalField(max_digits=5, decimal_places=2)` admits at most 999.99. */
  const MaxHours: int := 99999

  /** The field-level check of `hours`: present unless the request is
      partial, and within five digits. */
  function HoursField(hours: Option<int>, partial: bool): (r: Result<Option<int>, SerializerError>)
    ensures r.Success? <==> (hours.Some? ==> -MaxHours <= hours.value <= MaxHours) && (hours.None? ==> partial)
    ensures r.Success? ==> r.value == hours
  {
    if hours.None? then (if partial then Success(None) else Failure(HoursRequired))
    else if hours.value < -MaxHours || MaxHours < hours.value then Failure(HoursTooManyDigits)
    else Success(hours)
  }

  /** `validate_hours`: only positive values pass, unchanged. */
  function ValidateHours(hours: int): (r: Result<int, SerializerError>)
    ensures r.Success? <==> hours > 0
    ensures r.Success? ==> r.value == hours
    ensures r.Failure? ==> r.error == HoursNotPositive
  {
    if hours <= 0 then Failure(HoursNotPositive) else Success(hours)
  }

  /** `LogWorkTimeSerializer.update`: adds the hours (0 when absent) to the
      accumulator, a null accumulator counting as 0; nothing else changes. */
  function AddWorkTime(p: UserTask, hours: Option<int>): (p': UserTask)
    ensures p'.id == p.id && p'.user == p.user && p'.task == p.task && p'.role == p.role
    ensures p'.workTime.Some?
    ensures p'.workTime.value - p.workTime.GetOr(0) == hours.GetOr(0)
  {
    p.(workTime := Some(p.workTime.GetOr(0) + hours.GetOr(0)))
  }

  /** A log-time request against participant `id`: validation, then update. */
  function LogWorkTime(s: Store, id: nat, hours: Option<int>, partial: bool): (r: Result<(Store, UserTask), SerializerError>)
    requires id in s.userTasks
    ensures r.Success? <==>
              (hours.Some? ==> 0 < hours.value <= MaxHours) && (hours.None? ==> partial)
    ensures r.Success? ==>
              var (s', p) := r.value;
              && p == AddWorkTime(s.userTasks[id], hours)
              && s' == s.(userTasks := s.userTasks[id := p])
    ensures r.Success? && hours.Some? ==>
              r.value.1.workTime.value > s.userTasks[id].workTime.GetOr(0)
    ensures hours.Some? && -MaxHours <= hours.value <= 0 ==> r == Failure(HoursNotPositive)
    ensures hours.Some? && (hours.value < -MaxHours || MaxHours < hours.value) ==> r == Failure(HoursTooManyDigits)
    ensures hours.None? && !partial ==> r == Failure(HoursRequired)
  {
    var checked :- HoursField(hours, partial);
    var valid :- if checked.Some? then
                   (var h :- ValidateHours(checked.value); Success(Some(h)))
                 else Success(None);
    var p := AddWorkTime(s.userTasks[id], valid);
    Success((s.(userTasks := s.userTasks[id := p]), p))
  }

  /** Logging preserves the store invariant. */
  lemma LogWorkTimePreservesValid(s: Store, id: nat, hours: Option<int>, partial: bool)
    requires Valid(s) && id in s.userTasks
    requires LogWorkTime(s, id, hours, partial).Success?
    ensures Valid(LogWorkTime(s, id, hours, partial).value.0)
  {
  }

  /** The sum of a sequence of hours. */
  function Sum(hs: seq<int>): int {
    if |hs| == 0 then 0 else Sum(hs[..|hs| - 1]) + hs[|hs| - 1]
  }

  /** Logs each of `hs` against participant `id` in turn; `None` once one
      is rejected. */
  function LogEach(s: Store, id: nat, hs: seq<int>): Option<Store>
    requires id in s.userTasks
    decreases |hs|
  {
    if |hs| == 0 then Some(s)
    else match LogEach(s, id, hs[..|hs| - 1])
      case None => None
      case Some(s1) =>
        if id !in s1.userTasks then None
        else match LogWorkTime(s1, id, Some(hs[|hs| - 1]), false)
          case Failure(_) => None
          case Success(v) => Some(v.0)
  }

  /** Work time only grows: after logging a non-empty run of valid hours
      the accumulator holds its former value (null as 0) plus their sum,
      which exceeds the former value. */
  lemma {:induction false} LogEachAccumulates(s: Store, id: nat, hs: seq<int>)
    requires id in s.userTasks
    requires |hs| > 0
    requires forall i :: 0 <= i < |hs| ==> 0 < hs[i] <= MaxHours
    ensures LogEach(s, id, hs).Some?
    ensures var s' := LogEach(s, id, hs).value;
            && id in s'.userTasks
            && s'.userTasks[id].workTime == Some(s.userTasks[id].workTime.GetOr(0) + Sum(hs))
            && Sum(hs) > 0
    decreases |hs|
  {
    var init := hs[..|hs| - 1];
    if |init| > 0 {
      LogEachAccumulates(s, id, init);
    }
  }

  /** `TaskSerializer.get_branches`: the records of one task, in order.
      Equal records are separate rows and each is listed. */
  function TaskBranches(records: seq<BranchRecord>, taskId: nat): (r: seq<BranchRecord>)
    ensures |r| <= |records|
    ensures forall x :: x in r <==> x in records && x.task == taskId
    ensures forall x :: multiset(r)[x] == if x.task == taskId then multiset(records)[x] else 0
    decreases |records|
  {
    if |records| == 0 then []
    else
      var init := TaskBranches(records[..|records| - 1], taskId);
      var last := records[|records| - 1];
      assert records == records[..|records| - 1] + [last];
      assert multiset(records) == multiset(records[..|records| - 1]) + multiset{last};
      if last.task == taskId then
        assert multiset(init + [last]) == multiset(init) + multiset{last};
        init + [last]
      else init
  }

  /** A freshly created task lists exactly one branch record: its owner's. */
  lemma {:induction false} NewTaskListsOwnerBranch(s: Store, user: nat, data: TaskData, slug: Option<string>)
    requires Valid(s)
    ensures var (s', task) := TaskCreate(s, user, data, slug);
            TaskBranches(s'.branches, task.id) == [BranchRecord(BranchName(task, Owner), Some(PlaceholderUrl), task.id)]
  {
    var (s', task) := TaskCreate(s, user, data, slug);
    assert s'.branches[..|s'.branches| - 1] == s.branches;
    NoRecordsOfUnknownTask(s.branches, task.id, s.tasks);
  }

  lemma {:induction false} NoRecordsOfUnknownTask(records: seq<BranchRecord>, taskId: nat, tasks: map<nat, Task>)
    requires taskId !in tasks
    requires forall i :: 0 <= i < |records| ==> records[i].task in tasks
    ensures TaskBranches(records, taskId) == []
    decreases |records|
  {
    if |records| > 0 {
      NoRecordsOfUnknownTask(records[..|records| - 1], taskId, tasks);
    }
  }

  // ---------------------------------------------------------------------
  // Consequences for branch records.
  // ---------------------------------------------------------------------

  /** Adding a second participant with the owner's role stores a second
      record with the owner's branch name: nothing deduplicates. */
  lemma SameRoleDuplicatesRecord(s: Store, user: nat, data: TaskData, slug: Option<string>, other: nat)
    requires Valid(s)
    ensures var (s1, task) := TaskCreate(s, user, data, slug);
            var r := UserTaskCreate(s1, task.id, other, Owner);
            r.Success?
            && CountNamed(r.value.0.branches, BranchName(task, Owner))
               == CountNamed(s.branches, BranchName(task, Owner)) + 2
  {
    var (s1, task) := TaskCreate(s, user, data, slug);
    var owner := UserTask(s.nextUserTaskId, user, task.id, Owner, None);
    CreateBranchTaskAddsOne(s.branches, task, owner);
    var r := UserTaskCreate(s1, task.id, other, Owner);
    CreateBranchTaskAddsOne(s1.branches, task, r.value.1);
  }

  /** After an update that changes the task type, the record made at
      creation no longer carries the task's branch name: update does not
      rename records. */
  lemma UpdateLeavesRecordStale(s: Store, user: nat, data: TaskData, slug: Option<string>, patch: TaskPatch)
    requires Valid(s)
    requires patch.taskType.Some? && patch.taskType.value != data.taskType
    ensures var (s1, task) := TaskCreate(s, user, data, slug);
            var (s2, task') := TaskUpdate(s1, task.id, patch);
            && s2.branches[|s2.branches| - 1].name == BranchName(task, Owner)
            && s2.branches[|s2.branches| - 1].name != BranchName(task', Owner)
  {
    var (s1, task) := TaskCreate(s, user, data, slug);
    var (s2, task') := TaskUpdate(s1, task.id, patch);
    BranchNameInjective(task, Owner, task', Owner);
  }
}
