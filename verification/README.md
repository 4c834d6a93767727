# Task tracker branch bookkeeping — a Dafny model

This project models the sequential core of a Django task tracker:

- **Branch naming and branch records** (`core/utils.py`). Each participant of a task gets a
  branch name `{type}/{id}/{slug}-{role}`, with `"no-slug"` standing in for a missing or empty
  slug. One `BranchesTask` record with a placeholder URL is appended per participant.
- **The GitHub service** (`core/services.py`). The remote repository is a map from branch name
  to head sha. `create_branch`, `rename_branch` and `delete_branch` are transitions on that map.
  Each one returns the new remote and either a result or the `ValidationError` raised. The
  result of `create_branch` and `rename_branch` is a URL. The result of `delete_branch` is the
  unit value, as the Python method returns nothing.
- **Serializer bookkeeping** (`core/serializers.py`). This covers task creation (with its OWNER
  participant and branch record), task update, participant creation, the branch listing and
  work-time logging. They run on an in-memory store of tasks, participants and records.

Files:

- `wrappers.dfy`: `Option`/`Result`.
- `decimal.dfy`: how a task id is printed.
- `models.dfy`: record shapes.
- `utils.dfy`: branch naming.
- `services.dfy`: the GitHub service.
- `serializers.dfy`: the store operations.

Modelling choices:

- Decimal fields (`hours`, `work_time`, `planned_time`) are integer hundredths of an hour.
- `UserTask` gets `role` and a nullable `work_time`, as the serializers use them. core/models.py
  does not declare these fields.
- The role choices are printed as `"owner"` and `"executor"`.
- The serializers import `create_branch_and_task_record`, which core/utils.py does not define.
  The model treats both call sites as calling `create_branch_task_for_participant`.
- A remote failure other than 404 or an "already exists" 422 comes from the remote's `Faults`.
  These are sets of branch names on which `get_branch`, `create_git_ref` or the ref delete fails.
  This is how network failures enter the model.
- The slug the persistence layer gives a new task is a parameter of `TaskCreate`. core/models.py
  does not derive it. `TaskSerializer.update` never changes the slug, because it is read-only.
- Naming is deterministic because `BranchName` is a function of (type, id, slug, role) alone.

Facts about the code that a reader might not expect:

- The username is not part of the branch name, so two participants with the same role on one
  task get the same name. `Utils.ParticipantsCollide` and `Serializers.SameRoleDuplicatesRecord`
  show this.
- A rename whose old branch cannot be deleted raises the deletion error after the new branch has
  been created (`GitHub.RenameNotAtomic`).
- `create_branch` on an existing name raises "already exists"; it does not reuse the branch.
- Nothing renames branch records when a task changes: the only such call, in
  `TaskSerializer.update`, is commented out, so records go stale
  (`Serializers.UpdateLeavesRecordStale`).
- `create_branch` takes the source branch as an argument whose default is `"main"`. The model
  always passes it explicitly.

## Model

| member | source | states |
|---|---|---|
| Decimal.ParseNatToString | core/utils.py:6 | the printed task id reads back as the same id |
| Decimal.NatToStringInjective | core/utils.py:6 | distinct task ids print as distinct strings |
| Utils.EffectiveSlug | core/utils.py:5 | a None or empty slug becomes "no-slug"; any other slug is used verbatim; the result is never empty |
| Utils.BranchName | core/utils.py:6 | every name starts with the task prefix `type/id/` and ends with `-role` |
| Utils.BranchNameRoundTrip | core/utils.py:5-6 | parsing a branch name recovers the task type, task id, effective slug and role |
| Utils.ParseAssembledName | core/utils.py:6 | parsing `type/id/slug-role` assembled from any type, id, slug and role gives back exactly those four parts |
| Utils.BranchNameInjective | core/utils.py:5-6 | two names are equal iff type, id, effective slug and role are all equal |
| Utils.ParticipantsCollide | core/utils.py:6 | two participants of one task get the same name iff their roles are equal; the user plays no part |
| Utils.DistinctTasksDistinctNames | core/utils.py:6 | branches of tasks with different ids never share a name |
| Utils.CreateBranchTaskForParticipant | core/utils.py:3-13 | appends exactly one record, with the participant's branch name, the placeholder URL and the task; earlier records are kept |
| Utils.CreateBranchTaskAddsOne | core/utils.py:8-13 | there is no duplicate check: the count of records with that name grows by one even if one already exists |
| GitHub.GetBranch | core/services.py:19-20 | reading a branch yields its sha iff it exists and the call does not fail; a missing branch is NotFound |
| GitHub.CreateGitRef | core/services.py:21 | creating a ref inserts the name iff it is absent and the call does not fail; a present name is AlreadyExists |
| GitHub.DeleteGitRef | core/services.py:51-52 | deleting a ref removes just that name iff it exists and the call does not fail; an absent name is NotFound |
| GitHub.Connect | core/services.py:6-14 | a missing or empty token or repo name gives the configuration error whatever the remote; otherwise it succeeds iff the repo resolves |
| GitHub.CreateBranch | core/services.py:16-27 | success iff the source is readable and the name is fresh; then the name maps to the source's sha, other branches are kept and the tree URL is returned; an existing name gives "already exists"; a missing source gives the generic error; a failure leaves the remote unchanged |
| GitHub.DeleteBranch | core/services.py:49-58 | succeeds unless the delete call fails; on success the name is absent and nothing else changes; a missing branch counts as success; a failure changes nothing |
| GitHub.RenameBranch | core/services.py:29-47 | an existing new name is rejected before the old branch is read, leaving the remote unchanged; a missing old branch fails and changes nothing; on success the new name holds the old sha, the old name is gone, other branches are kept and the new tree URL is returned |
| GitHub.RenameToSelfRejected | core/services.py:31-44 | renaming a branch to its own name always fails and leaves the remote unchanged |
| GitHub.RenameFailureEffects | core/services.py:37-45 | a failed rename changes the remote only when the final delete failed, and then only by adding the new branch |
| GitHub.RenameNotAtomic | core/services.py:37-58 | on every remote where the new name is free, the old branch is readable, the create succeeds and the delete of the old branch fails, rename raises the deletion error and leaves the new branch, holding the old sha, beside the old one |
| GitHub.RenameNotAtomicExample | core/services.py:37-58 | a concrete remote on which a failed rename leaves both branches |
| GitHub.DeleteIdempotent | core/services.py:49-58 | deleting a branch a second time succeeds and changes nothing more |
| GitHub.DeleteUndoesCreate | core/services.py:16-58 | deleting a freshly created branch restores the remote exactly |
| GitHub.RenameBackRestores | core/services.py:29-47 | renaming a branch and then renaming it back restores the remote, if no call fails |
| Serializers.TaskCreate | core/serializers.py:45-54 | stores the task under a fresh id; its only participant is the requesting user as OWNER with null work time; one branch record for that participant is appended; the store invariant is kept |
| Serializers.ApplyPatch | core/serializers.py:56-59 | update writes exactly the fields the request carries; id and the read-only slug are kept |
| Serializers.TaskUpdate | core/serializers.py:56-62 | only the task changes; participants and branch records are untouched, even when name or type change; the store invariant is kept |
| Serializers.UserTaskCreate | core/serializers.py:73-78 | fails iff task_pk names no task; otherwise it adds one participant bound to that task with null work time, appends exactly one branch record for it, and keeps the invariant |
| Serializers.TaskBranches | core/serializers.py:40-42 | the listing holds exactly the records of the given task, each as many times as it is stored |
| Serializers.NewTaskListsOwnerBranch | core/serializers.py:40-54 | a freshly created task lists exactly one branch record, its owner's |
| Serializers.HoursField | core/serializers.py:85 | hours within five digits (at most 999.99) pass; absent hours pass only on a partial request |
| Serializers.ValidateHours | core/serializers.py:92-95 | rejects every value <= 0 and returns positive values unchanged |
| Serializers.AddWorkTime | core/serializers.py:97-102 | work time becomes (old or 0) + hours, absent hours counting as 0; id, user, task and role are unchanged |
| Serializers.LogWorkTime | core/serializers.py:84-102 | accepted iff hours are positive and within five digits (or absent on a partial request); only the participant's work time changes, and it strictly increases when hours are given |
| Serializers.LogWorkTimePreservesValid | core/serializers.py:97-102 | logging keeps the store invariant |
| Serializers.LogEachAccumulates | core/serializers.py:92-100 | after a run of valid logs the accumulator holds its old value (null as 0) plus their sum, which is larger |
| Serializers.SameRoleDuplicatesRecord | core/serializers.py:45-78 | adding a second OWNER to a new task stores a second record with the same branch name |
| Serializers.UpdateLeavesRecordStale | core/serializers.py:56-62 | after an update that changes the type, the creation-time record no longer carries the task's branch name |

## Left out

- Network calls and settings: PyGithub, HTTP, the settings lookup and the `print` in core/services.py:53
  are not modelled. They are replaced by the branch map, its `Faults` and the `Settings` value.
  Retries and timeouts are network concerns.
- Non-GitHub exceptions: exceptions from the GitHub client that are not `GithubException`
  (connection errors, say) are folded into the "other status" failure kind.
- Error messages: `str(e.data)` inspection and message text are abstracted into error constructors.
- Reconciliation: no per-participant sweep on task rename is modelled, because none exists in the
  code. Its only call is commented out and the helper it imports is not defined.
- Views: core/views.py, core/urls.py and core/admin.py are request routing and admin registration.
  The second OWNER row that core/views.py:15-21 creates after `serializer.save()` is view plumbing.
- Permissions: core/permissions.py is ORM existence queries used for authorisation.
- Django auth: `UserSerializer` and `ChangePasswordSerializer` (password hashing) belong to Django auth.
- Other field validation: these checks are done by the REST framework's field layer.
  - `type`: the model's enum admits only the three valid choices.
  - `status`: the slug lookup against stored `Status` rows is dropped. Any string is accepted as a
    status name.
- Nullable user: a participant whose user is null is not modelled. The serializers never
  produce one.
- Record ids: the `id` that `BranchesTaskSerializer` lists (core/serializers.py:25) is dropped
  from `BranchRecord`. Two records with the same name, URL and task are equal values. The listing
  still keeps both, because `Serializers.TaskBranches` preserves multiplicity.
- Serializers.HoursField: an explicit `"hours": null` is not distinguished from absent hours. The
  field's `allow_null=False` rejects it even on a partial request, but the model lets it pass
  there. Values with more than two decimal places (such as 1.005), which the field also rejects,
  cannot be expressed in integer hundredths.
- Slug derivation: the slug is a parameter of `TaskCreate`, because the code that derives it is not part of
  this model.
