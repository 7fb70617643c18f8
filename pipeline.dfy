/**
 * The decisions of the import pipeline as pure functions of the outside
 * world: how each reply is read, and what a whole run issues and how it ends.
 * `Importer.GitHubImporter.ImportRepo` is proved to follow `RunTrace` and
 * `RunOutcome`; the lemmas at the end state what those promise.
 */
module Pipeline {
  import opened Wrappers
  import opened Text
  import opened Actions
  import opened Environment

  /** The executables `_check_dependencies` looks for, in this order. */
  const Dependencies: seq<string> := ["git", "curl"]

  /** Index of the first dependency whose lookup is interrupted, or `|deps|` when none is. */
  function FirstInterrupt(deps: seq<string>, lookup: string -> Reply): (k: nat)
    ensures k <= |deps|
    ensures forall j :: 0 <= j < k ==> !lookup(deps[j]).Interrupted?
    ensures k < |deps| ==> lookup(deps[k]).Interrupted?
  {
    if deps == [] || lookup(deps[0]).Interrupted? then 0
    else 1 + FirstInterrupt(deps[1..], lookup)
  }

  /** The dependencies whose lookup fails, in list order. */
  function Missing(deps: seq<string>, lookup: string -> Reply): seq<string>
  {
    if deps == [] then []
    else
      var last := deps[|deps| - 1];
      Missing(deps[..|deps| - 1], lookup) + (if lookup(last).Failed? then [last] else [])
  }

  /** The missing list holds exactly the dependencies whose lookup fails, and is no
      longer than the dependency list. */
  lemma {:induction false} MissingSpec(deps: seq<string>, lookup: string -> Reply)
    ensures |Missing(deps, lookup)| <= |deps|
    ensures forall d :: d in Missing(deps, lookup) <==> d in deps && lookup(d).Failed?
  {
    if deps != [] {
      var last := deps[|deps| - 1];
      assert deps == deps[..|deps| - 1] + [last];
      MissingSpec(deps[..|deps| - 1], lookup);
    }
  }

  /** The failed dependencies, read from the front: an independent statement of "in
      list order, each once per occurrence". */
  function Failures(deps: seq<string>, lookup: string -> Reply): seq<string> {
    if deps == [] then []
    else (if lookup(deps[0]).Failed? then [deps[0]] else []) + Failures(deps[1..], lookup)
  }

  lemma {:induction false} FailuresAppend(deps: seq<string>, d: string, lookup: string -> Reply)
    ensures Failures(deps + [d], lookup) ==
      Failures(deps, lookup) + (if lookup(d).Failed? then [d] else [])
  {
    if deps != [] {
      assert (deps + [d])[1..] == deps[1..] + [d];
      FailuresAppend(deps[1..], d, lookup);
    }
  }

  /** The missing list is exactly the failed dependencies, in list order. */
  lemma {:induction false} MissingInOrder(deps: seq<string>, lookup: string -> Reply)
    ensures Missing(deps, lookup) == Failures(deps, lookup)
  {
    if deps != [] {
      var init := deps[..|deps| - 1];
      MissingInOrder(init, lookup);
      FailuresAppend(init, deps[|deps| - 1], lookup);
      assert init + [deps[|deps| - 1]] == deps;
    }
  }

  /** For `git` and `curl`: each failed tool is reported once, `git` before `curl`. */
  lemma MissingTools(lookup: string -> Reply)
    ensures Missing(Dependencies, lookup) ==
      (if lookup("git").Failed? then ["git"] else []) + (if lookup("curl").Failed? then ["curl"] else [])
  {
    MissingInOrder(Dependencies, lookup);
    assert Dependencies[1..] == ["curl"];
    assert Dependencies[1..][1..] == [];
  }

  /** Both tools missing are reported together, `git` first. */
  lemma MissingBoth(lookup: string -> Reply)
    requires lookup("git").Failed? && lookup("curl").Failed?
    ensures Missing(Dependencies, lookup) == ["git", "curl"]
  {
    assert Dependencies[..1] == ["git"];
    assert Dependencies[..1][..0] == [];
  }

  /** The overwrite prompt accepts: `answer.strip().lower() == 'yes'`. */
  predicate Confirms(answer: string) {
    Lower(Strip(answer)) == "yes"
  }

  /** Any capitalisation of `yes`, surrounded by any whitespace, confirms. */
  lemma ConfirmsPadded(p: string, m: string, q: string)
    requires AllSpace(p) && AllSpace(q)
    requires |m| == 3 && m[0] in "yY" && m[1] in "eE" && m[2] in "sS"
    ensures Confirms(p + m + q)
  {
    StripPadded(p, m, q);
    LowerSpec(m);
    assert Lower(m) == "yes";
  }

  /** Nothing but a capitalisation of `yes` confirms. */
  lemma ConfirmsOnlyYes(answer: string)
    requires Confirms(answer)
    ensures var s := Strip(answer); |s| == 3 && s[0] in "yY" && s[1] in "eE" && s[2] in "sS"
  {
    var s := Strip(answer);
    LowerSpec(s);
    assert |Lower(s)| == 3;
    assert LowerChar(s[0]) == 'y' && LowerChar(s[1]) == 'e' && LowerChar(s[2]) == 's';
  }

  /** `user_data.get('type') == 'Organization'`, with an undecodable reply counting as not. */
  predicate IsOrganization(info: Option<JsonObject>) {
    info.Some? && "type" in info.value && info.value["type"] == JString("Organization")
  }

  function OrgRepos(user: string): string {
    "https://api.github.com/orgs/" + user + "/repos"
  }

  const UserRepos: string := "https://api.github.com/user/repos"

  /** The creation endpoint: the organisation's when the account is an organisation,
      the authenticated user's otherwise (including when the lookup did not decode). */
  function ReposEndpoint(user: string, info: Option<JsonObject>): (e: string)
    ensures e == OrgRepos(user) <==> IsOrganization(info)
    ensures e == UserRepos <==> !IsOrganization(info)
  {
    assert OrgRepos(user)[23] == 'o' && UserRepos[23] == 'u';
    if IsOrganization(info) then OrgRepos(user) else UserRepos
  }

  /** How `_create_github_repo` reads the creation reply: true when it decodes and has
      an `id` (and the `html_url` it prints), false when it does not decode or has no
      `id`; an `id` without `html_url` raises `KeyError`. */
  function CreateVerdict(reply: Option<JsonObject>): (s: Step<bool>)
    ensures s == Done(true) <==> reply.Some? && "id" in reply.value && "html_url" in reply.value
    ensures s == Done(false) <==> reply.None? || "id" !in reply.value
    ensures s.Raised? ==> s.signal == Exception
  {
    match reply
    case None => Done(false)
    case Some(obj) =>
      if "id" !in obj then Done(false)
      else if "html_url" in obj then Done(true)
      else Raised(Exception)
  }

  /** The staging directory `/tmp/git-import-{repo_name}-{pid}`. */
  function TempPath(name: string, pid: nat): string {
    "/tmp/git-import-" + name + "-" + Decimal(pid)
  }

  /** The dash that ends the longer prefix falls inside the longer suffix. */
  lemma DashInLongerSuffix(a1: string, d1: string, a2: string, d2: string)
    requires a1 + "-" + d1 == a2 + "-" + d2
    requires |d1| < |d2|
    ensures '-' in d2
  {
    var s, t := a1 + "-" + d1, a2 + "-" + d2;
    assert s[|a1|] == '-';
    assert t[|a1|] == d2[|a1| - |a2| - 1];
  }

  lemma {:induction false} SplitAtLastDash(a1: string, d1: string, a2: string, d2: string)
    requires a1 + "-" + d1 == a2 + "-" + d2
    requires '-' !in d1 && '-' !in d2
    ensures a1 == a2 && d1 == d2
  {
    var s := a1 + "-" + d1;
    var t := a2 + "-" + d2;
    if |d1| < |d2| {
      DashInLongerSuffix(a1, d1, a2, d2);
      assert false;
    } else if |d2| < |d1| {
      DashInLongerSuffix(a2, d2, a1, d1);
      assert false;
    }
    assert d1 == s[|s| - |d1|..] == t[|t| - |d2|..] == d2;
    assert a1 == s[..|a1|] == t[..|a2|] == a2;
  }

  /** Different repository names or different process ids never share a staging directory. */
  lemma TempPathUnique(n1: string, p1: nat, n2: string, p2: nat)
    requires TempPath(n1, p1) == TempPath(n2, p2)
    ensures n1 == n2 && p1 == p2
  {
    var pre := "/tmp/git-import-";
    var d1, d2 := Decimal(p1), Decimal(p2);
    assert '-' !in d1 && '-' !in d2 by {
      assert forall i :: 0 <= i < |d1| ==> d1[i] != '-';
      assert forall i :: 0 <= i < |d2| ==> d2[i] != '-';
    }
    assert TempPath(n1, p1) == (pre + n1) + "-" + d1;
    assert TempPath(n2, p2) == (pre + n2) + "-" + d2;
    SplitAtLastDash(pre + n1, d1, pre + n2, d2);
    assert n1 == (pre + n1)[|pre|..] == (pre + n2)[|pre|..] == n2;
    DecimalInjective(p1, p2);
  }

  /** The push remote, with the token as transport credentials. */
  function RemoteUrl(token: string, user: string, name: string): string {
    "https://" + token + "@github.com/" + user + "/" + name + ".git"
  }

  // How far a run gets, as conditions on the world.

  predicate DepsPass(w: World) {
    FirstInterrupt(Dependencies, w.lookup) == |Dependencies| && Missing(Dependencies, w.lookup) == []
  }

  predicate TokenPass(w: World) {
    DepsPass(w) && w.tokenStatus == Output("200")
  }

  predicate RepoFound(w: World) {
    TokenPass(w) && w.probeStatus == Output("200")
  }

  predicate Declined(w: World) {
    RepoFound(w) && w.answer.Output? && !Confirms(w.answer.text)
  }

  predicate Confirmed(w: World) {
    RepoFound(w) && w.answer.Output? && Confirms(w.answer.text)
  }

  predicate NeedsCreate(w: World) {
    TokenPass(w) && w.probeStatus.Output? && w.probeStatus.text != "200"
  }

  predicate Created(w: World) {
    NeedsCreate(w) && w.userInfo.Output? && w.createReply.Output? &&
    CreateVerdict(w.parse(w.createReply.text)) == Done(true)
  }

  predicate ReachesClone(w: World) {
    Confirmed(w) || Created(w)
  }

  predicate Pushed(w: World) {
    ReachesClone(w) && w.clone.Output? && w.push.Output?
  }

  predicate Succeeds(w: World, branch: Option<string>) {
    Pushed(w) && (Truthy(branch) ==> w.patch.Output?)
  }


  /** The settings of one import (`token`, `target_user`, `source_url`,
      `custom_branch` and the resolved `repo_name`). */
  datatype ImportJob = ImportJob(token: string, targetUser: string, sourceUrl: string,
                                 customBranch: Option<string>, repoName: string)

  /** How far the `try` block of `import_repo` gets: the actions issued, the signal it
      ended with (None when it ran to the end), the staging path and the directories
      present afterwards. */
  datatype Attempt = Attempt(actions: seq<Action>, raised: Option<Signal>,
                             tempDir: Option<string>, disk: set<string>)

  /** One lookup per dependency, in order. */
  function Lookups(deps: seq<string>): (t: seq<Action>)
    ensures |t| == |deps|
  {
    if deps == [] then [] else [DepLookup(deps[0])] + Lookups(deps[1..])
  }

  /** Looking up one more dependency appends its lookup. */
  lemma {:induction false} LookupsAppend(deps: seq<string>, d: string)
    ensures Lookups(deps + [d]) == Lookups(deps) + [DepLookup(d)]
  {
    if deps != [] {
      assert (deps + [d])[1..] == deps[1..] + [d];
      LookupsAppend(deps[1..], d);
    }
  }

  /** The dependency lookups issued: up to and including an interrupted one. */
  function DepTrail(w: World): seq<Action> {
    var k := FirstInterrupt(Dependencies, w.lookup);
    Lookups(Dependencies[..if k < |Dependencies| then k + 1 else k])
  }

  /** Each dependency is looked up, in list order, until one lookup is interrupted. */
  lemma DepTrailSpec(w: World)
    ensures var t := DepTrail(w);
      var k := FirstInterrupt(Dependencies, w.lookup);
      |t| == (if k < |Dependencies| then k + 1 else k) &&
      forall i :: 0 <= i < |t| ==> t[i] == DepLookup(Dependencies[i])
  {
    var k := FirstInterrupt(Dependencies, w.lookup);
    LookupsAt(Dependencies[..if k < |Dependencies| then k + 1 else k]);
  }

  lemma {:induction false} LookupsAt(deps: seq<string>)
    ensures forall i :: 0 <= i < |deps| ==> Lookups(deps)[i] == DepLookup(deps[i])
  {
    if deps != [] {
      LookupsAt(deps[1..]);
    }
  }


  /** What `_check_dependencies` raises, if anything. */
  function DepsSignal(w: World): (s: Option<Signal>)
    ensures s == None <==> DepsPass(w)
    ensures s == Some(KeyboardInterrupt) <==> FirstInterrupt(Dependencies, w.lookup) < |Dependencies|
    ensures s == Some(SystemExit(1)) <==>
      FirstInterrupt(Dependencies, w.lookup) == |Dependencies| && Missing(Dependencies, w.lookup) != []
    ensures s.Some? ==> s.value == KeyboardInterrupt || s.value == SystemExit(1)
  {
    if FirstInterrupt(Dependencies, w.lookup) < |Dependencies| then Some(KeyboardInterrupt)
    else if Missing(Dependencies, w.lookup) != [] then Some(SystemExit(1))
    else None
  }

  /** `_validate_token`: only status `"200"` lets the run go on. */
  function TokenStep(w: World): (s: Step<()>)
    ensures s.Done? <==> w.tokenStatus == Output("200")
    ensures w.tokenStatus.Output? && s.Raised? ==> s.signal == SystemExit(1)
  {
    match w.tokenStatus
    case Output(code) => if code == "200" then Done(()) else Raised(SystemExit(1))
    case _ => Raised(Fault(w.tokenStatus))
  }

  /** The actions of `_check_repo_exists`: the probe, and the prompt when the repository exists. */
  function ProbeTrail(w: World): seq<Action> {
    if w.probeStatus == Output("200") then [ExistsProbe, OverwritePrompt] else [ExistsProbe]
  }

  /** `_check_repo_exists`: true when the repository exists and the user said yes,
      false when it does not exist, exit 0 when the user said anything else. */
  function ProbeStep(w: World): (s: Step<bool>)
    ensures s == Done(true) <==> w.probeStatus == Output("200") && w.answer.Output? && Confirms(w.answer.text)
    ensures s == Done(false) <==> w.probeStatus.Output? && w.probeStatus.text != "200"
    ensures s == Raised(SystemExit(0)) <==> w.probeStatus == Output("200") && w.answer.Output? && !Confirms(w.answer.text)
    ensures s.Raised? ==> !s.signal.SystemExit? || s.signal == SystemExit(0)
  {
    match w.probeStatus
    case Output(code) =>
      if code != "200" then Done(false)
      else if !w.answer.Output? then Raised(Fault(w.answer))
      else if Confirms(w.answer.text) then Done(true)
      else Raised(SystemExit(0))
    case _ => Raised(Fault(w.probeStatus))
  }

  /** The actions of `_create_github_repo`: the account lookup, then the POST if the
      lookup returned at all. */
  function CreateTrail(job: ImportJob, w: World): seq<Action> {
    if !w.userInfo.Output? then [UserInfoLookup]
    else [UserInfoLookup, CreateRepo(ReposEndpoint(job.targetUser, w.parse(w.userInfo.text)),
                                     job.repoName, "Imported from " + job.sourceUrl)]
  }

  /** `_create_github_repo`: true exactly when both calls returned and the reply shows
      the new repository; a reply that does not decode or lacks `id` is false. */
  function CreateStep(w: World): (s: Step<bool>)
    ensures s == Done(true) <==> w.userInfo.Output? && w.createReply.Output? &&
                                 CreateVerdict(w.parse(w.createReply.text)) == Done(true)
    ensures !s.Raised? || !s.signal.SystemExit?
  {
    if !w.userInfo.Output? then Raised(Fault(w.userInfo))
    else if !w.createReply.Output? then Raised(Fault(w.createReply))
    else CreateVerdict(w.parse(w.createReply.text))
  }

  /** The actions of `_clone_source_repo` into `path`. */
  function CloneTrail(job: ImportJob, path: string, disk: set<string>): seq<Action> {
    (if path in disk then [RemoveStale(path)] else []) + [MirrorClone(job.sourceUrl, path)]
  }

  /** The directories present after the clone into `path`. */
  function CloneDisk(w: World, path: string, disk: set<string>): (d: set<string>)
    ensures d - {path} == disk - {path}
    ensures path in d <==> w.clone.Output? || w.cloneLeavesDir
  {
    if w.clone.Output? || w.cloneLeavesDir then disk + {path} else disk - {path}
  }

  /** `_clone_source_repo`: a failed clone exits 1. */
  function CloneStep(w: World): (s: Step<()>)
    ensures s.Done? <==> w.clone.Output?
    ensures w.clone.Failed? ==> s == Raised(SystemExit(1))
  {
    match w.clone
    case Output(_) => Done(())
    case Failed => Raised(SystemExit(1))
    case Interrupted => Raised(KeyboardInterrupt)
  }

  /** The actions of `_push_to_github` run in `cwd`: the mirror push, and the
      default-branch PATCH after it only when a branch is set and the push returned. */
  function PushTrail(job: ImportJob, w: World, cwd: string): (t: seq<Action>)
    ensures |t| == 1 || |t| == 2
    ensures t[0] == MirrorPush(RemoteUrl(job.token, job.targetUser, job.repoName), cwd)
    ensures |t| == 2 <==> w.push.Output? && Truthy(job.customBranch)
    ensures |t| == 2 ==> t[1] == SetDefaultBranch(job.customBranch.value)
  {
    var push := MirrorPush(RemoteUrl(job.token, job.targetUser, job.repoName), cwd);
    if w.push.Output? && Truthy(job.customBranch) then [push, SetDefaultBranch(job.customBranch.value)]
    else [push]
  }

  /** `_push_to_github`: done when the push, and the PATCH if one is sent, returned. */
  function PushStep(job: ImportJob, w: World): (s: Step<()>)
    ensures s.Done? <==> w.push.Output? && (Truthy(job.customBranch) ==> w.patch.Output?)
    ensures !s.Raised? || !s.signal.SystemExit?
  {
    if !w.push.Output? then Raised(Fault(w.push))
    else if Truthy(job.customBranch) && !w.patch.Output? then Raised(Fault(w.patch))
    else Done(())
  }

  /** The `try` block of `import_repo`. */
  function Attempted(job: ImportJob, w: World, disk: set<string>): Attempt {
    var deps := DepTrail(w);
    if DepsSignal(w).Some? then Attempt(deps, DepsSignal(w), None, disk)
    else
      var validated := deps + [TokenCheck];
      if TokenStep(w).Raised? then Attempt(validated, Some(TokenStep(w).signal), None, disk)
      else Provision(job, w, disk, validated)
  }

  /** The existence probe and, when the repository is absent, its creation, after
      the actions `before`. */
  function Provision(job: ImportJob, w: World, disk: set<string>, before: seq<Action>): Attempt {
    var probed := before + ProbeTrail(w);
    match ProbeStep(w)
    case Raised(signal) => Attempt(probed, Some(signal), None, disk)
    case Done(found) =>
      var ready := if found then probed else probed + CreateTrail(job, w);
      var created := if found then Done(true) else CreateStep(w);
      match created
      case Raised(signal) => Attempt(ready, Some(signal), None, disk)
      case Done(ok) =>
        if !ok then Attempt(ready, Some(SystemExit(1)), None, disk)
        else Transfer(job, w, disk, ready)
  }

  /** The clone and the push, after the actions `before`. */
  function Transfer(job: ImportJob, w: World, disk: set<string>, before: seq<Action>): Attempt {
    var path := TempPath(job.repoName, w.pid);
    var cloned := before + CloneTrail(job, path, disk);
    var after := CloneDisk(w, path, disk);
    match CloneStep(w)
    case Raised(signal) => Attempt(cloned, Some(signal), Some(path), after)
    case Done(_) =>
      var pushed := cloned + PushTrail(job, w, path);
      match PushStep(job, w)
      case Raised(signal) => Attempt(pushed, Some(signal), Some(path), after)
      case Done(_) => Attempt(pushed, None, Some(path), after)
  }

  /** Whether the `finally` cleanup removes the staging directory. */
  predicate Removes(a: Attempt) {
    a.tempDir.Some? && a.tempDir.value in a.disk
  }

  /** Every action of a run: the attempt, then the cleanup. */
  function RunTrace(job: ImportJob, w: World, disk: set<string>): seq<Action> {
    var a := Attempted(job, w, disk);
    a.actions + [CleanupRan(if Removes(a) then a.tempDir else None)]
  }

  /** The directories left once the run is over. */
  function RunDisk(job: ImportJob, w: World, disk: set<string>): set<string> {
    var a := Attempted(job, w, disk);
    if Removes(a) then a.disk - {a.tempDir.value} else a.disk
  }

  /** How the run ends. */
  function RunOutcome(job: ImportJob, w: World, disk: set<string>): Outcome {
    var a := Attempted(job, w, disk);
    if a.raised.Some? then ExitFor(a.raised.value) else Success
  }
}
