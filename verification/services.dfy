/** `GitHubService` of core/services.py as transitions on an abstract
    remote repository: a map from branch name to head commit sha. The
    library calls become map reads, inserts and removals; failures other
    than "not found" and "already exists" come from the remote's `faults`. */
module GitHub {
  import opened Wrappers

  type BranchName = string
  type Sha = string

  /** The two settings the service reads; Python's `not x` is true of both
      `None` and `""`. */
  datatype Settings = Settings(accessToken: Option<string>, repoName: Option<string>)

  predicate Present(setting: Option<string>) {
    setting.Some? && setting.value != ""
  }

  /** The status of a `GithubException`, abstracted: 404, a 422 whose data
      says "already exists", or anything else. */
  datatype ApiError = NotFound | AlreadyExists | OtherStatus

  /** Branch names on which a call fails with `OtherStatus` (network,
      permission or server trouble), one set per kind of call. */
  datatype Faults = Faults(getFails: set<BranchName>, createFails: set<BranchName>, deleteFails: set<BranchName>)

  /** The state of the remote repository. */
  datatype Remote = Remote(branches: map<BranchName, Sha>, faults: Faults)

  /** A constructed service, bound to one repository. */
  datatype Service = Service(repoName: string)

  /** The `ValidationError`s the service raises, one per message. */
  datatype ServiceError =
    | ConfigurationMissing
    | RepoUnreachable
    | BranchAlreadyExists(name: BranchName)
    | GitHubError
    | NewBranchAlreadyExists(name: BranchName)
    | CheckingNewBranchFailed
    | NewBranchCreationFailed(oldName: BranchName, newName: BranchName)
    | DeletionFailed

  /** The remote after an operation, and what the operation returned or
      raised. The remote is kept on failure too: side effects made before
      the exception are not undone. */
  datatype Step<T> = Step(remote: Remote, result: Result<T, ServiceError>)

  /** The web address of a branch. */
  function TreeUrl(repoName: string, name: BranchName): string {
    "https://github.com/" + repoName + "/tree/" + name
  }

  // ---------------------------------------------------------------------
  // The three library calls.
  // ---------------------------------------------------------------------

  /** `repo.get_branch(name).commit.sha`. */
  function GetBranch(r: Remote, name: BranchName): (res: Result<Sha, ApiError>)
    ensures res.Success? <==> name !in r.faults.getFails && name in r.branches
    ensures res.Success? ==> res.value == r.branches[name]
    ensures res.Failure? ==> res.error != AlreadyExists
    ensures res == Failure(NotFound) <==> name !in r.faults.getFails && name !in r.branches
  {
    if name in r.faults.getFails then Failure(OtherStatus)
    else if name in r.branches then Success(r.branches[name])
    else Failure(NotFound)
  }

  /** `repo.create_git_ref("refs/heads/" + name, sha)`. */
  function CreateGitRef(r: Remote, name: BranchName, sha: Sha): (res: Result<Remote, ApiError>)
    ensures res.Success? <==> name !in r.faults.createFails && name !in r.branches
    ensures res.Success? ==> res.value == r.(branches := r.branches[name := sha])
    ensures res == Failure(AlreadyExists) <==> name !in r.faults.createFails && name in r.branches
  {
    if name in r.faults.createFails then Failure(OtherStatus)
    else if name in r.branches then Failure(AlreadyExists)
    else Success(r.(branches := r.branches[name := sha]))
  }

  /** `repo.get_git_ref("heads/" + name).delete()`. */
  function DeleteGitRef(r: Remote, name: BranchName): (res: Result<Remote, ApiError>)
    ensures res.Success? <==> name !in r.faults.deleteFails && name in r.branches
    ensures res.Success? ==> res.value == r.(branches := r.branches - {name})
    ensures res == Failure(NotFound) <==> name !in r.faults.deleteFails && name !in r.branches
  {
    if name in r.faults.deleteFails then Failure(OtherStatus)
    else if name !in r.branches then Failure(NotFound)
    else Success(r.(branches := r.branches - {name}))
  }

  // ---------------------------------------------------------------------
  // The service.
  // ---------------------------------------------------------------------

  /** `GitHubService.__init__`: the settings are checked before the remote
      is contacted; then the repository must resolve among `reachable`. */
  function Connect(settings: Settings, reachable: set<string>): (res: Result<Service, ServiceError>)
    ensures !Present(settings.accessToken) || !Present(settings.repoName) ==> res == Failure(ConfigurationMissing)
    ensures res.Success? <==> Present(settings.accessToken) && Present(settings.repoName) && settings.repoName.value in reachable
    ensures res.Success? ==> res.value.repoName == settings.repoName.value
    ensures res.Failure? ==> res.error in {ConfigurationMissing, RepoUnreachable}
  {
    if !Present(settings.accessToken) || !Present(settings.repoName) then Failure(ConfigurationMissing)
    else if settings.repoName.value !in reachable then Failure(RepoUnreachable)
    else Success(Service(settings.repoName.value))
  }

  /** The `except GithubException` clause of `create_branch`. */
  function CreateBranchError(e: ApiError, name: BranchName): ServiceError {
    if e == AlreadyExists then BranchAlreadyExists(name) else GitHubError
  }

  /** `create_branch`: a new branch at the head of `source`. */
  function CreateBranch(svc: Service, r: Remote, name: BranchName, source: BranchName): (s: Step<string>)
    ensures s.result.Success? <==>
              source !in r.faults.getFails && source in r.branches
              && name !in r.faults.createFails && name !in r.branches
    ensures s.result.Success? ==>
              s.remote == r.(branches := r.branches[name := r.branches[source]])
              && s.result.value == TreeUrl(svc.repoName, name)
    ensures s.result.Failure? ==> s.remote == r
    ensures s.result == Failure(BranchAlreadyExists(name)) <==>
              source !in r.faults.getFails && source in r.branches
              && name !in r.faults.createFails && name in r.branches
    ensures source !in r.branches ==> s == Step(r, Failure(GitHubError))
    ensures s.result.Failure? ==> s.result.error in {BranchAlreadyExists(name), GitHubError}
  {
    match GetBranch(r, source)
    case Failure(e) => Step(r, Failure(CreateBranchError(e, name)))
    case Success(sha) =>
      match CreateGitRef(r, name, sha)
      case Failure(e) => Step(r, Failure(CreateBranchError(e, name)))
      case Success(r') => Step(r', Success(TreeUrl(svc.repoName, name)))
  }

  /** `delete_branch`: a missing branch counts as deleted. */
  function DeleteBranch(r: Remote, name: BranchName): (s: Step<()>)
    ensures s.result.Success? <==> name !in r.faults.deleteFails
    ensures s.result.Failure? ==> s == Step(r, Failure(DeletionFailed))
    ensures s.result.Success? ==> s.remote == r.(branches := r.branches - {name})
  {
    match DeleteGitRef(r, name)
    case Success(r') => Step(r', Success(()))
    case Failure(NotFound) => Step(r, Success(()))
    case Failure(_) => Step(r, Failure(DeletionFailed))
  }

  /** `rename_branch`: checks the new name first, then copies the old head
      to the new name, then deletes the old branch. The steps are not undone
      when a later one fails. */
  function RenameBranch(svc: Service, r: Remote, oldName: BranchName, newName: BranchName): (s: Step<string>)
    ensures newName !in r.faults.getFails && newName in r.branches ==>
              s == Step(r, Failure(NewBranchAlreadyExists(newName)))
    ensures newName in r.faults.getFails ==> s == Step(r, Failure(CheckingNewBranchFailed))
    ensures newName !in r.faults.getFails && newName !in r.branches
            && (oldName in r.faults.getFails || oldName !in r.branches || newName in r.faults.createFails) ==>
              s == Step(r, Failure(NewBranchCreationFailed(oldName, newName)))
    ensures s.result.Success? <==>
              newName !in r.faults.getFails && newName !in r.branches
              && oldName !in r.faults.getFails && oldName in r.branches
              && newName !in r.faults.createFails && oldName !in r.faults.deleteFails
    ensures s.result.Success? ==>
              s.remote == r.(branches := (r.branches - {oldName})[newName := r.branches[oldName]])
              && s.result.value == TreeUrl(svc.repoName, newName)
  {
    match GetBranch(r, newName)
    case Success(_) => Step(r, Failure(NewBranchAlreadyExists(newName)))
    case Failure(e) =>
      if e != NotFound then Step(r, Failure(CheckingNewBranchFailed))
      else
        match GetBranch(r, oldName)
        case Failure(_) => Step(r, Failure(NewBranchCreationFailed(oldName, newName)))
        case Success(sha) =>
          match CreateGitRef(r, newName, sha)
          case Failure(_) => Step(r, Failure(NewBranchCreationFailed(oldName, newName)))
          case Success(r1) =>
            var d := DeleteBranch(r1, oldName);
            if d.result.Failure? then Step(d.remote, Failure(d.result.error))
            else
              assert (r.branches - {oldName})[newName := sha] == r.branches[newName := sha] - {oldName};
              Step(d.remote, Success(TreeUrl(svc.repoName, newName)))
  }

  // ---------------------------------------------------------------------
  // Properties relating several operations.
  // ---------------------------------------------------------------------

  /** Renaming a branch to its own name always fails and changes nothing:
      either the name exists and the new-name check rejects it, or it does
      not and reading the old branch fails. */
  lemma RenameToSelfRejected(svc: Service, r: Remote, name: BranchName)
    ensures RenameBranch(svc, r, name, name).result.Failure?
    ensures RenameBranch(svc, r, name, name).remote == r
  {
  }

  /** A failed rename leaves the remote unchanged unless the final delete
      failed, in which case the new branch exists beside the old one. */
  lemma RenameFailureEffects(svc: Service, r: Remote, oldName: BranchName, newName: BranchName)
    requires RenameBranch(svc, r, oldName, newName).result.Failure?
    ensures var s := RenameBranch(svc, r, oldName, newName);
            s.remote == r
            || (s.result.error == DeletionFailed
                && oldName in r.branches && newName !in r.branches
                && s.remote == r.(branches := r.branches[newName := r.branches[oldName]]))
  {
  }

  /** Rename is not atomic: whenever the check, the read and the create
      succeed but deleting the old branch fails, the deletion error is
      raised while the new branch already exists beside the old one. */
  lemma RenameNotAtomic(svc: Service, r: Remote, oldName: BranchName, newName: BranchName)
    requires newName !in r.faults.getFails && newName !in r.branches
    requires oldName !in r.faults.getFails && oldName in r.branches
    requires newName !in r.faults.createFails
    requires oldName in r.faults.deleteFails
    ensures RenameBranch(svc, r, oldName, newName)
         == Step(r.(branches := r.branches[newName := r.branches[oldName]]), Failure(DeletionFailed))
  {
  }

  /** A concrete instance: both branches exist after the failed rename. */
  lemma RenameNotAtomicExample(svc: Service)
    ensures var r := Remote(map["old" := "abc"], Faults({}, {}, {"old"}));
            var s := RenameBranch(svc, r, "old", "new");
            s.result == Failure(DeletionFailed)
            && s.remote.branches == map["old" := "abc", "new" := "abc"]
  {
    var r := Remote(map["old" := "abc"], Faults({}, {}, {"old"}));
    assert "new" !in r.branches;
    assert r.branches["new" := "abc"] == map["old" := "abc", "new" := "abc"];
  }

  /** Deleting twice is the same as deleting once. */
  lemma DeleteIdempotent(r: Remote, name: BranchName)
    requires DeleteBranch(r, name).result.Success?
    ensures var once := DeleteBranch(r, name);
            DeleteBranch(once.remote, name) == once
  {
    var once := DeleteBranch(r, name);
    assert once.remote.branches - {name} == once.remote.branches;
  }

  /** Deleting a fresh branch undoes its creation. */
  lemma DeleteUndoesCreate(svc: Service, r: Remote, name: BranchName, source: BranchName)
    requires CreateBranch(svc, r, name, source).result.Success?
    requires name !in r.faults.deleteFails
    ensures DeleteBranch(CreateBranch(svc, r, name, source).remote, name) == Step(r, Success(()))
  {
    var c := CreateBranch(svc, r, name, source);
    assert c.remote.branches - {name} == r.branches;
  }

  /** Renaming back restores the remote, when no call fails on either name. */
  lemma RenameBackRestores(svc: Service, r: Remote, a: BranchName, b: BranchName)
    requires RenameBranch(svc, r, a, b).result.Success?
    requires a !in r.faults.createFails && b !in r.faults.deleteFails
    ensures var there := RenameBranch(svc, r, a, b);
            var back := RenameBranch(svc, there.remote, b, a);
            back.result.Success? && back.remote == r
  {
    var there := RenameBranch(svc, r, a, b);
    var back := RenameBranch(svc, there.remote, b, a);
    assert a != b;
    assert ((there.remote.branches - {b})[a := there.remote.branches[b]]) == r.branches;
  }
}
