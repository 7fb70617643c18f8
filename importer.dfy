/**
 * `GitHubImporter`: the import pipeline as a class.  The fields the source
 * sets once in `__init__` are constants; `tempDir` is the field the clone step
 * sets and the cleanup step reads; `disk` stands for the directories present
 * on the local filesystem; `trace` records every external action issued.
 */
module Importer {
  import opened Wrappers
  import opened Text
  import opened RepoName
  import opened Actions
  import opened Environment
  import opened Pipeline
  import opened RunProperties

  class GitHubImporter {
    const token: string
    const targetUser: string
    const sourceUrl: string
    const customBranch: Option<string>
    const repoName: string
    var tempDir: Option<string>
    var disk: set<string>
    ghost var trace: seq<Action>

    ghost predicate Valid()
      reads this
    {
      Chained(trace)
    }

    /** The stage of the last action issued, -1 before any. */
    ghost function LastRank(): int
      reads this
    {
      if trace == [] then -1 else Rank(trace[|trace| - 1])
    }

    /** The importer's settings as a value. */
    function Job(): ImportJob {
      ImportJob(token, targetUser, sourceUrl, customBranch, repoName)
    }

    /** `__init__`: the name comes from the override or from the URL path (the
        `ValueError` path is in `Launch`); nothing is issued yet. */
    constructor (token: string, targetUser: string, sourceUrl: string,
                 customBranch: Option<string>, name: Option<string>, urlPath: string,
                 disk: set<string>)
      requires ResolveRepoName(name, urlPath).Ok?
      ensures this.token == token && this.targetUser == targetUser && this.sourceUrl == sourceUrl
      ensures this.customBranch == customBranch
      ensures repoName == ResolveRepoName(name, urlPath).value
      ensures tempDir == None && this.disk == disk && trace == []
      ensures Valid()
    {
      this.token := token;
      this.targetUser := targetUser;
      this.sourceUrl := sourceUrl;
      this.customBranch := customBranch;
      this.repoName := ResolveRepoName(name, urlPath).value;
      tempDir := None;
      this.disk := disk;
      trace := [];
    }

    /** Record one external action; the pipeline never goes back a stage. */
    ghost method Log(a: Action)
      requires Valid() && (trace == [] || Before(trace[|trace| - 1], a))
      modifies this`trace
      ensures Valid() && trace == old(trace) + [a]
    {
      trace := trace + [a];
    }

    /** `_check_dependencies`: look each tool up in order, collect the failures, exit 1
        when any is missing.  A Ctrl-C during a lookup unwinds at once. */
    method CheckDependencies(w: World) returns (s: Step<()>, missing: seq<string>)
      requires Valid() && trace == []
      modifies this`trace
      ensures Valid()
      ensures trace == DepTrail(w)
      ensures missing == Missing(Dependencies[..FirstInterrupt(Dependencies, w.lookup)], w.lookup)
      ensures s == if DepsSignal(w).Some? then Raised(DepsSignal(w).value) else Done(())
      ensures LastRank() == 0
    {
      var interrupted;
      interrupted, missing := LookUpDependencies(w);
      if interrupted {
        return Raised(KeyboardInterrupt), missing;
      }
      if missing != [] {
        return Raised(SystemExit(1)), missing;
      }
      return Done(()), missing;
    }

    /** The loop of `_check_dependencies`: one `which` per tool, the failed ones collected
        in order, stopping at an interrupted lookup. */
    method LookUpDependencies(w: World) returns (interrupted: bool, missing: seq<string>)
      requires Valid() && trace == []
      modifies this`trace
      ensures Valid() && trace == DepTrail(w) && LastRank() == 0
      ensures interrupted <==> FirstInterrupt(Dependencies, w.lookup) < |Dependencies|
      ensures missing == Missing(Dependencies[..FirstInterrupt(Dependencies, w.lookup)], w.lookup)
    {
      missing := [];
      var i := 0;
      while i < |Dependencies|
        invariant 0 <= i <= |Dependencies|
        invariant i <= FirstInterrupt(Dependencies, w.lookup)
        invariant missing == Missing(Dependencies[..i], w.lookup)
        invariant Valid() && trace == Lookups(Dependencies[..i])
        invariant LastRank() == if i == 0 then -1 else 0
      {
        var dep := Dependencies[i];
        assert Dependencies[..i + 1] == Dependencies[..i] + [dep];
        LookupsAppend(Dependencies[..i], dep);
        Log(DepLookup(dep));
        var found := w.lookup(dep);
        if found.Interrupted? {
          return true, missing;
        }
        assert Dependencies[..i + 1][..i] == Dependencies[..i];
        if found.Failed? {
          missing := missing + [dep];
        }
        i := i + 1;
      }
      assert Dependencies[..i] == Dependencies;
      return false, missing;
    }

    /** `_validate_token`: anything but status `"200"` exits 1. */
    method ValidateToken(w: World) returns (s: Step<()>)
      requires Valid() && LastRank() < 1
      modifies this`trace
      ensures Valid() && trace == old(trace) + [TokenCheck]
      ensures s == TokenStep(w)
      ensures LastRank() == 1
    {
      Log(TokenCheck);
      match w.tokenStatus
      case Output(code) =>
        if code != "200" {
          return Raised(SystemExit(1));
        }
        return Done(());
      case _ =>
        return Raised(Fault(w.tokenStatus));
    }

    /** `_check_repo_exists`: status `"200"` means the repository exists, and then the
        user must answer yes or the run ends with exit 0; any other status means absent. */
    method CheckRepoExists(w: World) returns (s: Step<bool>)
      requires Valid() && LastRank() < 2
      modifies this`trace
      ensures Valid() && trace == old(trace) + ProbeTrail(w)
      ensures s == ProbeStep(w)
      ensures 2 <= LastRank() <= 3
    {
      Log(ExistsProbe);
      if !w.probeStatus.Output? {
        return Raised(Fault(w.probeStatus));
      }
      if w.probeStatus.text != "200" {
        return Done(false);
      }
      Log(OverwritePrompt);
      if !w.answer.Output? {
        return Raised(Fault(w.answer));
      }
      if !Confirms(w.answer.text) {
        return Raised(SystemExit(0));
      }
      return Done(true);
    }

    /** `_create_github_repo`: find out whether the account is an organisation, POST to
        the matching endpoint, and report whether the reply shows a new repository. */
    method CreateGitHubRepo(w: World) returns (s: Step<bool>)
      requires Valid() && LastRank() < 4
      modifies this`trace
      ensures Valid() && trace == old(trace) + CreateTrail(Job(), w)
      ensures s == CreateStep(w)
      ensures 4 <= LastRank() <= 5
    {
      Log(UserInfoLookup);
      if !w.userInfo.Output? {
        return Raised(Fault(w.userInfo));
      }
      var endpoint := ReposEndpoint(targetUser, w.parse(w.userInfo.text));
      Log(CreateRepo(endpoint, repoName, "Imported from " + sourceUrl));
      if !w.createReply.Output? {
        return Raised(Fault(w.createReply));
      }
      s := CreateVerdict(w.parse(w.createReply.text));
    }

    /** `_clone_source_repo`: set the staging path, clear a leftover directory there,
        and mirror-clone into it; a failed clone exits 1. */
    method CloneSourceRepo(w: World) returns (s: Step<()>)
      requires Valid() && LastRank() < 6
      modifies this`trace, this`tempDir, this`disk
      ensures Valid() && tempDir == Some(TempPath(repoName, w.pid))
      ensures trace == old(trace) + CloneTrail(Job(), tempDir.value, old(disk))
      ensures disk == CloneDisk(w, tempDir.value, old(disk))
      ensures s == CloneStep(w)
      ensures LastRank() == 7
    {
      var path := TempPath(repoName, w.pid);
      tempDir := Some(path);
      if path in disk {
        Log(RemoveStale(path));
        disk := disk - {path};
      }
      Log(MirrorClone(sourceUrl, path));
      if w.clone.Output? || w.cloneLeavesDir {
        disk := disk + {path};
      } else {
        disk := disk - {path};
      }
      match w.clone
      case Output(_) => s := Done(());
      case Failed => s := Raised(SystemExit(1));
      case Interrupted => s := Raised(KeyboardInterrupt);
    }

    /** `_push_to_github`: mirror-push from the staging directory; only with a custom
        branch, and only after the push, one PATCH sets the default branch. */
    method PushToGitHub(w: World) returns (s: Step<()>)
      requires Valid() && LastRank() < 8 && tempDir.Some?
      modifies this`trace
      ensures Valid() && trace == old(trace) + PushTrail(Job(), w, tempDir.value)
      ensures s == PushStep(Job(), w)
      ensures 8 <= LastRank() <= 9
    {
      Log(MirrorPush(RemoteUrl(token, targetUser, repoName), tempDir.value));
      if !w.push.Output? {
        return Raised(Fault(w.push));
      }
      if Truthy(customBranch) {
        Log(SetDefaultBranch(customBranch.value));
        if !w.patch.Output? {
          return Raised(Fault(w.patch));
        }
      }
      return Done(());
    }

    /** `_cleanup`: remove the staging directory when it is set and exists. */
    method Cleanup()
      requires Valid() && LastRank() < 10
      modifies this`trace, this`disk
      ensures Valid()
      ensures var removing := tempDir.Some? && tempDir.value in old(disk);
        disk == (if removing then old(disk) - {tempDir.value} else old(disk)) &&
        trace == old(trace) + [CleanupRan(if removing then tempDir else None)]
      ensures tempDir.Some? ==> tempDir.value !in disk
    {
      if tempDir.Some? && tempDir.value in disk {
        Log(CleanupRan(tempDir));
        disk := disk - {tempDir.value};
      } else {
        Log(CleanupRan(None));
      }
    }

    /** The clone and the push of `import_repo`, the first step that may fail ending
        the `try` block. */
    method TransferRepo(w: World) returns (failure: Option<Signal>)
      requires Valid() && LastRank() < 6
      modifies this`trace, this`tempDir, this`disk
      ensures Valid() && 7 <= LastRank() <= 9
      ensures Attempt(trace, failure, tempDir, disk) == Transfer(Job(), w, old(disk), old(trace))
    {
      failure := None;
      var cloned := CloneSourceRepo(w);
      if cloned.Raised? {
        failure := Some(cloned.signal);
      } else {
        var pushed := PushToGitHub(w);
        if pushed.Raised? {
          failure := Some(pushed.signal);
        }
      }
    }

    /** The existence check of `import_repo` and, when the repository is absent, its
        creation (a `False` result exits 1), then the transfer. */
    method ProvisionTarget(w: World) returns (failure: Option<Signal>)
      requires Valid() && LastRank() < 2 && tempDir == None
      modifies this`trace, this`tempDir, this`disk
      ensures Valid() && LastRank() <= 9
      ensures Attempt(trace, failure, tempDir, disk) == Provision(Job(), w, old(disk), old(trace))
    {
      var found := CheckRepoExists(w);
      if found.Raised? {
        return Some(found.signal);
      }
      var created: Step<bool> := Done(true);
      if !found.value {
        created := CreateGitHubRepo(w);
      }
      if created.Raised? {
        return Some(created.signal);
      } else if !created.value {
        return Some(SystemExit(1));
      }
      failure := TransferRepo(w);
    }

    /** The `try` block of `import_repo`: the steps in their fixed order, the first
        exception ending it. */
    method TryImport(w: World) returns (failure: Option<Signal>)
      requires Valid() && trace == [] && tempDir == None
      modifies this`trace, this`tempDir, this`disk
      ensures Valid() && LastRank() <= 9
      ensures Attempt(trace, failure, tempDir, disk) == Attempted(Job(), w, old(disk))
    {
      var deps, missing := CheckDependencies(w);
      if deps.Raised? {
        return Some(deps.signal);
      }
      var token := ValidateToken(w);
      if token.Raised? {
        return Some(token.signal);
      }
      failure := ProvisionTarget(w);
    }

    /**
     * `import_repo`: the steps in their fixed order, each able to end the run;
     * whatever ends it, the `finally` cleanup runs once, last.
     */
    method ImportRepo(w: World) returns (r: Outcome)
      requires Valid() && trace == [] && tempDir == None
      modifies this`trace, this`tempDir, this`disk
      ensures Valid() && Ordered(trace)
      ensures trace == RunTrace(Job(), w, old(disk))
      ensures r == RunOutcome(Job(), w, old(disk))
      ensures tempDir == Attempted(Job(), w, old(disk)).tempDir
      ensures disk == RunDisk(Job(), w, old(disk))
    {
      var failure := TryImport(w);
      Cleanup();
      r := if failure.Some? then ExitFor(failure.value) else Success;
      ChainedIsOrdered(trace);
    }
  }

  /** The last lines of `main`: reject an empty token, user or source (exit 1), build the
      importer -- whose name derivation may raise an uncaught `ValueError` (exit 1)
      before anything is issued -- and run the import. */
  method Launch(token: string, user: string, source: string, urlPath: string,
                branch: Option<string>, name: Option<string>, disk: set<string>, w: World)
    returns (r: Outcome, ghost trace: seq<Action>, after: set<string>)
    ensures token == [] || user == [] || source == [] ==> r == Exit(1) && trace == [] && after == disk
    ensures ResolveRepoName(name, urlPath).Err? ==> r == Exit(1) && trace == [] && after == disk
    ensures token != [] && user != [] && source != [] && ResolveRepoName(name, urlPath).Ok? ==>
      var job := ImportJob(token, user, source, branch, ResolveRepoName(name, urlPath).value);
      trace == RunTrace(job, w, disk) && after == RunDisk(job, w, disk) &&
      |trace| >= 2 && trace[0] == DepLookup("git") && trace[|trace| - 1].CleanupRan? && Ordered(trace)
    ensures r == Success || r == Exit(0) || r == Exit(1)
    ensures r == Success <==>
      token != [] && user != [] && source != [] && ResolveRepoName(name, urlPath).Ok? && Succeeds(w, branch)
    ensures r == Exit(0) <==>
      token != [] && user != [] && source != [] && ResolveRepoName(name, urlPath).Ok? && Declined(w)
  {
    if token == [] || user == [] || source == [] {
      return Exit(1), [], disk;
    }
    if ResolveRepoName(name, urlPath).Err? {
      return Exit(1), [], disk;
    }
    var importer := new GitHubImporter(token, user, source, branch, name, urlPath, disk);
    r := importer.ImportRepo(w);
    trace := importer.trace;
    after := importer.disk;
    RunOutcomeCases(importer.Job(), w, disk);
    RunTraceShape(importer.Job(), w, disk);
  }
}
