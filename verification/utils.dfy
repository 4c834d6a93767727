/** The branch-naming helper of core/utils.py: the canonical name
    `{type}/{id}/{slug}-{role}` and the append of one branch record. */
module Utils {
  import opened Wrappers
  import opened Models
  import opened Decimal

  /** Used in place of a missing or empty slug. */
  const NoSlug: string := "no-slug"

  /** The URL stored on every record this helper creates. */
  const PlaceholderUrl: string := "http://gitlab.example.com/placeholder"

  /** Python's `task.slug or "no-slug"`: both `None` and `""` are falsy. */
  function EffectiveSlug(slug: Option<string>): (s: string)
    ensures s != ""
    ensures slug.Some? && slug.value != "" ==> s == slug.value
    ensures slug.None? || slug.value == "" ==> s == NoSlug
  {
    if slug.Some? && slug.value != "" then slug.value else NoSlug
  }

  /** The part every branch of one task shares: `{type}/{id}/`. */
  function TaskPrefix(task: Task): string {
    task.taskType.Value() + "/" + NatToString(task.id) + "/"
  }

  /** The branch name for a participant with `role` on `task`. The user is
      not an input, so participants with equal roles share a name. */
  function BranchName(task: Task, role: Role): (name: string)
    ensures |TaskPrefix(task)| < |name|
    ensures name[..|TaskPrefix(task)|] == TaskPrefix(task)
    ensures |name| > |role.Value()| && name[|name| - |role.Value()| - 1..] == "-" + role.Value()
  {
    var name := TaskPrefix(task) + EffectiveSlug(task.slug) + "-" + role.Value();
    assert name == TaskPrefix(task) + (EffectiveSlug(task.slug) + "-" + role.Value());
    assert name[|name| - |role.Value()| - 1..] == "-" + role.Value();
    name
  }

  /** `create_branch_task_for_participant`: appends one record named after
      the participant's role on its task, with the placeholder URL; no
      check for an existing record of that name. */
  function CreateBranchTaskForParticipant(records: seq<BranchRecord>, task: Task, participant: UserTask)
    : (r: (seq<BranchRecord>, BranchRecord))
    requires participant.task == task.id
    ensures r.0 == records + [r.1]
    ensures r.1.name == BranchName(task, participant.role)
    ensures r.1.url == Some(PlaceholderUrl)
    ensures r.1.task == task.id
  {
    var record := BranchRecord(BranchName(task, participant.role), Some(PlaceholderUrl), task.id);
    (records + [record], record)
  }

  /** How many records carry `name`. */
  function CountNamed(records: seq<BranchRecord>, name: string): nat {
    if |records| == 0 then 0
    else CountNamed(records[..|records| - 1], name) + (if records[|records| - 1].name == name then 1 else 0)
  }

  /** Record creation never deduplicates: the number of records with the
      new name grows by exactly one, whatever was already stored. */
  lemma CreateBranchTaskAddsOne(records: seq<BranchRecord>, task: Task, participant: UserTask)
    requires participant.task == task.id
    ensures var r := CreateBranchTaskForParticipant(records, task, participant);
            CountNamed(r.0, BranchName(task, participant.role)) == CountNamed(records, BranchName(task, participant.role)) + 1
  {
    var r := CreateBranchTaskForParticipant(records, task, participant);
    assert r.0[..|r.0| - 1] == records;
  }

  // ---------------------------------------------------------------------
  // Reading a branch name back: the inverse of `BranchName`, showing that
  // the name determines the task type, task id, effective slug and role.
  // ---------------------------------------------------------------------

  /** The fields a branch name encodes. */
  datatype BranchKey = BranchKey(taskType: TaskType, taskId: nat, slug: string, role: Role)

  /** Splits `s` at its first `/`. */
  function SplitAtSlash(s: string): (r: Option<(string, string)>)
    ensures r.Some? ==> '/' !in r.value.0 && s == r.value.0 + "/" + r.value.1
  {
    if |s| == 0 then None
    else if s[0] == '/' then Some(("", s[1..]))
    else match SplitAtSlash(s[1..])
      case None => None
      case Some(p) => Some(([s[0]] + p.0, p.1))
  }

  lemma {:induction false} SplitAtSlashConcat(a: string, b: string)
    requires '/' !in a
    ensures SplitAtSlash(a + "/" + b) == Some((a, b))
  {
    if |a| > 0 {
      assert (a + "/" + b)[1..] == a[1..] + "/" + b;
      SplitAtSlashConcat(a[1..], b);
      assert [a[0]] + a[1..] == a;
    } else {
      assert (a + "/" + b)[1..] == b;
    }
  }

  function ParseTaskType(s: string): (r: Option<TaskType>)
    ensures r.Some? ==> r.value.Value() == s
  {
    if s == "feature" then Some(Feature)
    else if s == "bugfix" then Some(Bugfix)
    else if s == "hotfix" then Some(Hotfix)
    else None
  }

  predicate HasSuffix(s: string, suffix: string) {
    |suffix| <= |s| && s[|s| - |suffix|..] == suffix
  }

  /** Splits `{slug}-{role}` into slug and role. */
  function ParseRoleSuffix(s: string): (r: Option<(string, Role)>)
    ensures r.Some? ==> s == r.value.0 + "-" + r.value.1.Value()
  {
    if HasSuffix(s, "-owner") then
      assert s == s[..|s| - 6] + s[|s| - 6..];
      Some((s[..|s| - 6], Owner))
    else if HasSuffix(s, "-executor") then
      assert s == s[..|s| - 9] + s[|s| - 9..];
      Some((s[..|s| - 9], Executor))
    else None
  }

  lemma ParseRoleSuffixConcat(slug: string, role: Role)
    ensures ParseRoleSuffix(slug + "-" + role.Value()) == Some((slug, role))
  {
    var s := slug + "-" + role.Value();
    assert s[..|slug|] == slug;
    if role == Executor {
      assert s[|s| - 6..] == "ecutor";
      assert s[|s| - 9..] == "-executor";
    } else {
      assert s[|s| - 6..] == "-owner";
    }
  }

  /** Parses `{type}/{id}/{slug}-{role}`; `None` for anything else. */
  function ParseBranchName(name: string): (r: Option<BranchKey>)
  {
    match SplitAtSlash(name)
    case None => None
    case Some(p) =>
      match ParseTaskType(p.0)
      case None => None
      case Some(t) =>
        match SplitAtSlash(p.1)
        case None => None
        case Some(q) =>
          if |q.0| == 0 || !AllDigits(q.0) then None
          else match ParseRoleSuffix(q.1)
            case None => None
            case Some(sr) => Some(BranchKey(t, ParseDigits(q.0), sr.0, sr.1))
  }

  /** Round trip: reading a branch name recovers the task's type and id,
      the effective slug and the role. */
  lemma BranchNameRoundTrip(task: Task, role: Role)
    ensures ParseBranchName(BranchName(task, role))
         == Some(BranchKey(task.taskType, task.id, EffectiveSlug(task.slug), role))
  {
    var slug := EffectiveSlug(task.slug);
    var ty, id, rest := task.taskType.Value(), NatToString(task.id), slug + "-" + role.Value();
    assert TaskPrefix(task) == ty + "/" + id + "/";
    assert BranchName(task, role) == TaskPrefix(task) + rest;
    assert TaskPrefix(task) + rest == ty + "/" + (id + "/" + rest);
    ParseAssembledName(task.taskType, task.id, slug, role);
  }

  /** Parsing the assembled pieces of a name gives back the pieces. */
  lemma ParseAssembledName(t: TaskType, n: nat, slug: string, role: Role)
    ensures ParseBranchName(t.Value() + "/" + (NatToString(n) + "/" + (slug + "-" + role.Value())))
         == Some(BranchKey(t, n, slug, role))
  {
    var ty := t.Value();
    var id := NatToString(n);
    var rest := slug + "-" + role.Value();
    TypeValueHasNoSlash(t);
    SplitAtSlashConcat(ty, id + "/" + rest);
    assert ParseTaskType(ty) == Some(t);
    DigitsHaveNoSlash(id);
    SplitAtSlashConcat(id, rest);
    ParseRoleSuffixConcat(slug, role);
    ParseNatToString(n);
  }

  lemma TypeValueHasNoSlash(t: TaskType)
    ensures '/' !in t.Value()
  {
  }

  lemma DigitsHaveNoSlash(s: string)
    requires AllDigits(s)
    ensures '/' !in s
  {
  }

  /** Two branch names coincide exactly when type, id, effective slug and
      role coincide. */
  lemma BranchNameInjective(t1: Task, r1: Role, t2: Task, r2: Role)
    ensures BranchName(t1, r1) == BranchName(t2, r2)
        <==> (t1.taskType == t2.taskType && t1.id == t2.id
              && EffectiveSlug(t1.slug) == EffectiveSlug(t2.slug) && r1 == r2)
  {
    BranchNameRoundTrip(t1, r1);
    BranchNameRoundTrip(t2, r2);
  }

  /** Two participants of one task get the same branch name exactly when
      their roles are equal; who the users are plays no part. */
  lemma ParticipantsCollide(task: Task, a: UserTask, b: UserTask)
    requires a.task == task.id && b.task == task.id
    ensures BranchName(task, a.role) == BranchName(task, b.role) <==> a.role == b.role
  {
    BranchNameInjective(task, a.role, task, b.role);
  }

  /** Branches of different tasks never share a name. */
  lemma DistinctTasksDistinctNames(t1: Task, r1: Role, t2: Task, r2: Role)
    requires t1.id != t2.id
    ensures BranchName(t1, r1) != BranchName(t2, r2)
  {
    BranchNameInjective(t1, r1, t2, r2);
  }
}
