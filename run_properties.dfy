/**
 * What a whole run of `import_repo` promises, stated on `RunTrace`, `RunOutcome`
 * and `RunDisk`: how it ends, which stages it reaches for each kind of world,
 * that the cleanup is last, and that the staging directory is the only
 * directory it touches and is gone at the end.
 */
module RunProperties {
  import opened Wrappers
  import opened Text
  import opened Actions
  import opened Environment
  import opened Pipeline

  /** Every action of the `try` block comes before the cleanup's stage. */
  predicate BeforeCleanup(t: seq<Action>) {
    forall a | a in t :: Rank(a) < 10
  }

  /** The transfer adds only staging, clone, push and branch actions after `before`,
      and always the clone. */
  lemma TransferShape(job: ImportJob, w: World, disk: set<string>, before: seq<Action>)
    requires BeforeCleanup(before)
    ensures var a := Transfer(job, w, disk, before);
      before <= a.actions && BeforeCleanup(a.actions) &&
      (forall x | x in a.actions[|before|..] :: 6 <= Rank(x)) &&
      MirrorClone(job.sourceUrl, TempPath(job.repoName, w.pid)) in a.actions
  {
    var path := TempPath(job.repoName, w.pid);
    var clone := CloneTrail(job, path, disk);
    var push := if w.clone.Output? then PushTrail(job, w, path) else [];
    TransferActions(job, w, disk, before);
    assert before + clone + push == before + (clone + push);
    TransferTail(job, w, disk);
    AppendTail(before, clone + push);
  }

  /** The clone's and the push's actions all lie between the staging and the branch stage,
      and include the clone. */
  lemma TransferTail(job: ImportJob, w: World, disk: set<string>)
    ensures var path := TempPath(job.repoName, w.pid);
      var tail := CloneTrail(job, path, disk) + (if w.clone.Output? then PushTrail(job, w, path) else []);
      (forall x | x in tail :: 6 <= Rank(x) < 10) && MirrorClone(job.sourceUrl, path) in tail
  {
    var path := TempPath(job.repoName, w.pid);
    var clone := CloneTrail(job, path, disk);
    var push := if w.clone.Output? then PushTrail(job, w, path) else [];
    assert clone[|clone| - 1] == MirrorClone(job.sourceUrl, path);
    assert (clone + push)[|clone| - 1] == MirrorClone(job.sourceUrl, path);
  }

  /** Appending actions past the creation stage keeps the prefix and adds no cleanup. */
  lemma AppendTail(before: seq<Action>, tail: seq<Action>)
    requires BeforeCleanup(before)
    requires forall x | x in tail :: 6 <= Rank(x) < 10
    ensures var t := before + tail;
      before <= t && BeforeCleanup(t) && t[|before|..] == tail &&
      forall x | x in tail :: x in t
  {
    var t := before + tail;
    assert t[|before|..] == tail;
    forall x | x in t ensures Rank(x) < 10 {
      var i :| 0 <= i < |t| && t[i] == x;
      if i >= |before| {
        assert tail[i - |before|] == x;
      } else {
        assert before[i] == x;
      }
    }
    forall x | x in tail ensures x in t {
      var i :| 0 <= i < |tail| && tail[i] == x;
      assert t[|before| + i] == x;
    }
  }

  /** The probe and creation stages keep the actions before them and add no cleanup. */
  lemma ProvisionShape(job: ImportJob, w: World, disk: set<string>, before: seq<Action>)
    requires BeforeCleanup(before)
    ensures var a := Provision(job, w, disk, before);
      before <= a.actions && BeforeCleanup(a.actions)
  {
    var probed := before + ProbeTrail(w);
    assert before <= probed;
    if ProbeStep(w).Done? {
      var ready := if ProbeStep(w).value then probed else probed + CreateTrail(job, w);
      assert probed <= ready;
      TransferShape(job, w, disk, ready);
    }
  }

  /** The attempt starts with the dependency lookups and never contains a cleanup. */
  lemma AttemptShape(job: ImportJob, w: World, disk: set<string>)
    ensures var a := Attempted(job, w, disk);
      DepTrail(w) <= a.actions && BeforeCleanup(a.actions)
  {
    var deps := DepTrail(w);
    DepTrailLookups(w);
    if DepsSignal(w).None? && TokenStep(w).Done? {
      var validated := deps + [TokenCheck];
      assert deps <= validated;
      ProvisionShape(job, w, disk, validated);
    }
  }

  /** The transfer ends cleanly when the clone and the push went through, and exits
      only with code 1. */
  lemma TransferRaised(job: ImportJob, w: World, disk: set<string>, before: seq<Action>)
    ensures var a := Transfer(job, w, disk, before);
      (a.raised.None? <==> w.clone.Output? && PushStep(job, w).Done?) &&
      (a.raised.Some? && a.raised.value.SystemExit? ==> a.raised.value == SystemExit(1))
  {
  }

  /** From the probe on, the run ends cleanly exactly when it succeeds, and exits 0
      exactly when the user declined. */
  lemma ProvisionRaised(job: ImportJob, w: World, disk: set<string>, before: seq<Action>)
    requires TokenPass(w)
    ensures var a := Provision(job, w, disk, before);
      (a.raised.None? <==> Succeeds(w, job.customBranch)) &&
      (a.raised == Some(SystemExit(0)) <==> Declined(w)) &&
      (a.raised.Some? && a.raised.value.SystemExit? ==> a.raised.value.code in {0, 1})
  {
    var probed := before + ProbeTrail(w);
    if ProbeStep(w).Done? {
      var found := ProbeStep(w).value;
      var ready := if found then probed else probed + CreateTrail(job, w);
      var created := if found then Done(true) else CreateStep(w);
      if created == Done(true) {
        assert ReachesClone(w);
        TransferRaised(job, w, disk, ready);
      } else {
        assert !ReachesClone(w);
      }
    }
  }

  /** How the `try` block ends: with no exception exactly when the whole import went
      through, with `SystemExit(0)` exactly when the user declined the overwrite, and
      with no other exit code than 0 and 1. */
  lemma AttemptRaised(job: ImportJob, w: World, disk: set<string>)
    ensures var a := Attempted(job, w, disk);
      (a.raised.None? <==> Succeeds(w, job.customBranch)) &&
      (a.raised == Some(SystemExit(0)) <==> Declined(w)) &&
      (a.raised.Some? && a.raised.value.SystemExit? ==> a.raised.value.code in {0, 1})
  {
    if DepsSignal(w).Some? {
      DepsStage(job, w, disk);
    } else if TokenStep(w).Raised? {
      TokenStage(job, w, disk);
    } else {
      var validated := DepTrail(w) + [TokenCheck];
      assert Attempted(job, w, disk) == Provision(job, w, disk, validated);
      ProvisionRaised(job, w, disk, validated);
    }
  }

  /** A run exits with success, with 0, or with 1; it succeeds exactly when every
      step went through, and exits 0 exactly when the user declined the overwrite. */
  lemma RunOutcomeCases(job: ImportJob, w: World, disk: set<string>)
    ensures var r := RunOutcome(job, w, disk);
      r == Success || r == Exit(0) || r == Exit(1)
    ensures RunOutcome(job, w, disk) == Success <==> Succeeds(w, job.customBranch)
    ensures RunOutcome(job, w, disk) == Exit(0) <==> Declined(w)
  {
    AttemptRaised(job, w, disk);
  }

  /** Appending the cleanup to a `try`-block trace leaves it the only cleanup, last. */
  lemma CleanupOnlyLast(actions: seq<Action>, removed: Option<string>)
    requires BeforeCleanup(actions)
    ensures var t := actions + [CleanupRan(removed)];
      forall i :: 0 <= i < |t| - 1 ==> !t[i].CleanupRan?
  {
    var t := actions + [CleanupRan(removed)];
    forall i | 0 <= i < |t| - 1 ensures !t[i].CleanupRan? {
      assert t[i] == actions[i] && actions[i] in actions;
    }
  }

  /** Every run starts with the `git` lookup and ends with the cleanup, which runs
      once and only at the end. */
  lemma RunTraceShape(job: ImportJob, w: World, disk: set<string>)
    ensures var t := RunTrace(job, w, disk);
      |t| >= 2 && t[0] == DepLookup("git") && t[|t| - 1].CleanupRan? &&
      forall i :: 0 <= i < |t| - 1 ==> !t[i].CleanupRan?
  {
    var a := Attempted(job, w, disk);
    AttemptShape(job, w, disk);
    var removed := if Removes(a) then a.tempDir else None;
    assert RunTrace(job, w, disk) == a.actions + [CleanupRan(removed)];
    CleanupOnlyLast(a.actions, removed);
    DepTrailSpec(w);
    assert |DepTrail(w)| >= 1;
    assert a.actions[0] == DepTrail(w)[0];
  }

  /** Two traces that stay at or below `stage` still do when joined. */
  lemma RanksAppend(p: seq<Action>, q: seq<Action>, stage: nat)
    requires forall x | x in p :: Rank(x) <= stage
    requires forall x | x in q :: Rank(x) <= stage
    ensures forall x | x in p + q :: Rank(x) <= stage
  {
  }

  /** The ranks of two actions bound every action of their pair. */
  lemma PairRanks(a: Action, b: Action, stage: nat)
    requires Rank(a) <= stage && Rank(b) <= stage
    ensures forall x | x in [a, b] :: Rank(x) <= stage
  {
  }

  /** A trace whose actions stay at or below `stage`, followed by the cleanup, halted there. */
  lemma HaltedWithCleanup(acts: seq<Action>, removed: Option<string>, stage: nat)
    requires forall x | x in acts :: Rank(x) <= stage
    ensures Halted(acts + [CleanupRan(removed)], stage)
  {
    var t := acts + [CleanupRan(removed)];
    forall x | x in t ensures x.CleanupRan? || Rank(x) <= stage {
      if x != CleanupRan(removed) {
        assert x in acts;
      }
    }
  }

  /** A run whose attempt stops before the clone: no staging directory, so the cleanup
      removes nothing. */
  lemma RunWithoutStaging(job: ImportJob, w: World, disk: set<string>)
    requires Attempted(job, w, disk).tempDir == None
    ensures var a := Attempted(job, w, disk);
      RunTrace(job, w, disk) == a.actions + [CleanupRan(None)] &&
      RunDisk(job, w, disk) == a.disk
  {
  }

  /** The attempt when the dependency stage raises. */
  lemma DepsStage(job: ImportJob, w: World, disk: set<string>)
    requires DepsSignal(w).Some?
    ensures Attempted(job, w, disk) == Attempt(DepTrail(w), DepsSignal(w), None, disk)
  {
  }

  /** The attempt when the token check raises. */
  lemma TokenStage(job: ImportJob, w: World, disk: set<string>)
    requires DepsSignal(w).None? && TokenStep(w).Raised?
    ensures Attempted(job, w, disk) ==
      Attempt(DepTrail(w) + [TokenCheck], Some(TokenStep(w).signal), None, disk)
  {
  }

  /** The attempt when the probe or the prompt raises. */
  lemma ProbeStage(job: ImportJob, w: World, disk: set<string>)
    requires DepsSignal(w).None? && TokenStep(w).Done? && ProbeStep(w).Raised?
    ensures Attempted(job, w, disk) ==
      Attempt(DepTrail(w) + [TokenCheck] + ProbeTrail(w), Some(ProbeStep(w).signal), None, disk)
  {
    var validated := DepTrail(w) + [TokenCheck];
    assert Attempted(job, w, disk) == Provision(job, w, disk, validated);
  }

  /** A missing or interrupted dependency exits 1 after the lookups alone. */
  lemma DependencyFailureHalts(job: ImportJob, w: World, disk: set<string>)
    requires !DepsPass(w)
    ensures RunOutcome(job, w, disk) == Exit(1)
    ensures Halted(RunTrace(job, w, disk), 0)
    ensures RunDisk(job, w, disk) == disk
  {
    DepsStage(job, w, disk);
    RunWithoutStaging(job, w, disk);
    DepTrailLookups(w);
    HaltedWithCleanup(DepTrail(w), None, 0);
  }

  /** A token that GitHub does not accept, or a check that fails or is interrupted,
      exits 1 before the existence probe. */
  lemma TokenFailureHalts(job: ImportJob, w: World, disk: set<string>)
    requires DepsPass(w) && !TokenPass(w)
    ensures RunOutcome(job, w, disk) == Exit(1)
    ensures Halted(RunTrace(job, w, disk), 1)
    ensures RunDisk(job, w, disk) == disk
  {
    TokenStage(job, w, disk);
    RunWithoutStaging(job, w, disk);
    DepTrailLookups(w);
    RanksAppend(DepTrail(w), [TokenCheck], 1);
    HaltedWithCleanup(DepTrail(w) + [TokenCheck], None, 1);
  }

  /** Declining the overwrite exits 0 after the prompt: nothing is created, cloned or
      pushed, and the local filesystem is left alone. */
  lemma DeclineHalts(job: ImportJob, w: World, disk: set<string>)
    requires Declined(w)
    ensures RunOutcome(job, w, disk) == Exit(0)
    ensures Halted(RunTrace(job, w, disk), 3)
    ensures RunTrace(job, w, disk) == DepTrail(w) + [TokenCheck, ExistsProbe, OverwritePrompt, CleanupRan(None)]
    ensures RunDisk(job, w, disk) == disk
  {
    ProbeStage(job, w, disk);
    RunWithoutStaging(job, w, disk);
    PromptRanks(w, 3);
    HaltedWithCleanup(DepTrail(w) + [TokenCheck] + [ExistsProbe, OverwritePrompt], None, 3);
    Regroup(DepTrail(w), TokenCheck, ExistsProbe, OverwritePrompt, CleanupRan(None));
  }

  /** The actions up to the overwrite prompt stay at or below the prompt stage. */
  lemma PromptRanks(w: World, stage: nat)
    requires 3 <= stage
    ensures forall x | x in DepTrail(w) + [TokenCheck] + [ExistsProbe, OverwritePrompt] :: Rank(x) <= stage
  {
    DepTrailLookups(w);
    RanksAppend(DepTrail(w), [TokenCheck], stage);
    PairRanks(ExistsProbe, OverwritePrompt, stage);
    RanksAppend(DepTrail(w) + [TokenCheck], [ExistsProbe, OverwritePrompt], stage);
  }

  /** The actions up to the existence probe, and the prompt when there is one, stay at
      or below the prompt stage. */
  lemma ProbeRanks(w: World)
    ensures forall x | x in DepTrail(w) + [TokenCheck] + ProbeTrail(w) :: Rank(x) <= 3
  {
    if w.probeStatus == Output("200") {
      PromptRanks(w, 3);
    } else {
      DepTrailLookups(w);
      RanksAppend(DepTrail(w), [TokenCheck], 3);
      RanksAppend(DepTrail(w) + [TokenCheck], [ExistsProbe], 3);
    }
  }

  lemma Regroup<T>(p: seq<T>, a: T, b: T, c: T, d: T)
    ensures p + [a] + [b, c] + [d] == p + [a, b, c, d]
  {
  }

  /** Confirming the overwrite goes straight to the clone: no account lookup and no
      creation request. */
  lemma ConfirmSkipsCreate(job: ImportJob, w: World, disk: set<string>)
    requires Confirmed(w)
    ensures var t := RunTrace(job, w, disk);
      UserInfoLookup !in t && (forall a | a in t :: !a.CreateRepo?) &&
      MirrorClone(job.sourceUrl, TempPath(job.repoName, w.pid)) in t
  {
    var ready := DepTrail(w) + [TokenCheck] + [ExistsProbe, OverwritePrompt];
    ConfirmAttempt(job, w, disk);
    PromptRanks(w, 3);
    TransferSkipsCreate(job, w, disk, ready);
    RunTraceMembers(job, w, disk);
    var acts, t := Attempted(job, w, disk).actions, RunTrace(job, w, disk);
    CleanupAddsNoCreate(acts, t);
    PrefixMember(acts, t, MirrorClone(job.sourceUrl, TempPath(job.repoName, w.pid)));
  }

  /** A trace that adds only cleanups to `acts` adds no account lookup or creation request. */
  lemma CleanupAddsNoCreate(acts: seq<Action>, t: seq<Action>)
    requires forall x | x in acts :: !x.CreateRepo? && x != UserInfoLookup
    requires forall x | x in t :: x in acts || x.CleanupRan?
    ensures UserInfoLookup !in t && forall x | x in t :: !x.CreateRepo?
  {
  }

  /** An action of a prefix is an action of the whole trace. */
  lemma PrefixMember(acts: seq<Action>, t: seq<Action>, x: Action)
    requires acts <= t && x in acts
    ensures x in t
  {
    var i :| 0 <= i < |acts| && acts[i] == x;
    assert t[i] == x;
  }

  /** Apart from cleanups, a trace that extends `acts` only by cleanups holds exactly
      the actions of `acts`. */
  lemma MemberBesidesCleanup(acts: seq<Action>, t: seq<Action>, x: Action)
    requires acts <= t && forall y | y in t :: y in acts || y.CleanupRan?
    requires !x.CleanupRan?
    ensures x in t <==> x in acts
  {
    if x in acts {
      PrefixMember(acts, t, x);
    }
  }

  /** The dependency stage issues lookups only. */
  lemma DepTrailLookups(w: World)
    ensures forall x | x in DepTrail(w) :: x.DepLookup?
  {
    DepTrailSpec(w);
    var deps := DepTrail(w);
    forall x | x in deps ensures x.DepLookup? {
      var i :| 0 <= i < |deps| && deps[i] == x;
    }
  }

  /** A run's trace is the attempt's actions and the cleanup. */
  lemma RunTraceMembers(job: ImportJob, w: World, disk: set<string>)
    ensures var acts := Attempted(job, w, disk).actions;
      acts <= RunTrace(job, w, disk) &&
      forall x | x in RunTrace(job, w, disk) :: x in acts || x.CleanupRan?
  {
  }

  /** After a trace that stops at the prompt, the transfer adds no creation stage. */
  lemma TransferSkipsCreate(job: ImportJob, w: World, disk: set<string>, before: seq<Action>)
    requires forall x | x in before :: Rank(x) <= 3
    ensures var t := Transfer(job, w, disk, before).actions;
      (forall x | x in t :: !x.CreateRepo? && x != UserInfoLookup) &&
      MirrorClone(job.sourceUrl, TempPath(job.repoName, w.pid)) in t
  {
    TransferShape(job, w, disk, before);
    SkipsCreateStages(before, Transfer(job, w, disk, before).actions);
  }

  /** A trace made of actions before the creation stage followed by actions after it
      holds neither an account lookup nor a creation request. */
  lemma SkipsCreateStages(before: seq<Action>, t: seq<Action>)
    requires forall x | x in before :: Rank(x) <= 3
    requires before <= t && forall x | x in t[|before|..] :: 6 <= Rank(x)
    ensures forall x | x in t :: !x.CreateRepo? && x != UserInfoLookup
  {
    forall x | x in t ensures !x.CreateRepo? && x != UserInfoLookup {
      var i :| 0 <= i < |t| && t[i] == x;
      if i < |before| {
        assert before[i] == x && x in before;
      } else {
        assert t[|before|..][i - |before|] == x && x in t[|before|..];
      }
    }
  }

  /** What the transfer issues after `before`: the clone's actions, then the push's
      actions when the clone returned. */
  lemma TransferActions(job: ImportJob, w: World, disk: set<string>, before: seq<Action>)
    ensures var path := TempPath(job.repoName, w.pid);
      Transfer(job, w, disk, before).actions ==
        before + CloneTrail(job, path, disk) + (if w.clone.Output? then PushTrail(job, w, path) else [])
  {
  }

  /** When the repository is absent the probe is followed by the creation stage, and
      the transfer only when the creation succeeded. */
  lemma CreateAttempt(job: ImportJob, w: World, disk: set<string>)
    requires NeedsCreate(w)
    ensures var ready := DepTrail(w) + [TokenCheck] + [ExistsProbe] + CreateTrail(job, w);
      var a := Attempted(job, w, disk);
      if CreateStep(w) == Done(true) then a == Transfer(job, w, disk, ready)
      else a.actions == ready && a.tempDir == None && a.disk == disk
  {
  }

  /** When the user confirms the overwrite the prompt is followed by the transfer. */
  lemma ConfirmAttempt(job: ImportJob, w: World, disk: set<string>)
    requires Confirmed(w)
    ensures var ready := DepTrail(w) + [TokenCheck] + [ExistsProbe, OverwritePrompt];
      Attempted(job, w, disk) == Transfer(job, w, disk, ready)
  {
  }

  /** The repository is created with exactly one request when it was absent and the
      account lookup returned: to the endpoint the lookup selects, with the resolved name
      and the source URL in the description. */
  lemma CreateRequestOnce(job: ImportJob, w: World, disk: set<string>)
    requires NeedsCreate(w) && w.userInfo.Output?
    ensures var req := CreateRepo(ReposEndpoint(job.targetUser, w.parse(w.userInfo.text)),
                                  job.repoName, "Imported from " + job.sourceUrl);
      var t := RunTrace(job, w, disk);
      req in t && forall x | x in t && x.CreateRepo? :: x == req
  {
    var req := CreateRepo(ReposEndpoint(job.targetUser, w.parse(w.userInfo.text)),
                          job.repoName, "Imported from " + job.sourceUrl);
    var deps := DepTrail(w);
    var ready := deps + [TokenCheck] + [ExistsProbe] + CreateTrail(job, w);
    assert ready == deps + [TokenCheck, ExistsProbe, UserInfoLookup, req];
    CreateAttempt(job, w, disk);
    if CreateStep(w) == Done(true) {
      TransferSkipsRequest(job, w, disk, ready);
    }
    DepTrailLookups(w);
    RunTraceMembers(job, w, disk);
    SoleRequest(deps, req, Attempted(job, w, disk).actions, RunTrace(job, w, disk));
  }

  /** When the actions before the cleanup extend the creation stage and add no request of
      their own, the stage's request is the only one. */
  lemma SoleRequest(deps: seq<Action>, req: Action, acts: seq<Action>, t: seq<Action>)
    requires forall x | x in deps :: x.DepLookup?
    requires var ready := deps + [TokenCheck, ExistsProbe, UserInfoLookup, req];
      ready <= acts && forall x | x in acts && x.CreateRepo? :: x in ready
    requires acts <= t && forall x | x in t :: x in acts || x.CleanupRan?
    ensures req in t && forall x | x in t && x.CreateRepo? :: x == req
  {
    var ready := deps + [TokenCheck, ExistsProbe, UserInfoLookup, req];
    assert ready[|ready| - 1] == req;
    PrefixMember(ready, acts, req);
    PrefixMember(acts, t, req);
  }

  /** The transfer adds no creation request, and keeps the ones before it. */
  lemma TransferSkipsRequest(job: ImportJob, w: World, disk: set<string>, before: seq<Action>)
    ensures var t := Transfer(job, w, disk, before).actions;
      before <= t && forall x | x in t && x.CreateRepo? :: x in before
  {
    TransferActions(job, w, disk, before);
  }

  /** A failed creation -- a failed or interrupted call, a reply without `id`, or one
      without `html_url` -- exits 1 before anything is cloned. */
  lemma CreateFailureHalts(job: ImportJob, w: World, disk: set<string>)
    requires NeedsCreate(w) && !Created(w)
    ensures RunOutcome(job, w, disk) == Exit(1)
    ensures Halted(RunTrace(job, w, disk), 5)
    ensures RunDisk(job, w, disk) == disk
  {
    RunOutcomeCases(job, w, disk);
    assert !Succeeds(w, job.customBranch) && !Declined(w);
    CreateAttempt(job, w, disk);
    var ready := DepTrail(w) + [TokenCheck] + [ExistsProbe] + CreateTrail(job, w);
    CreateReadyRanks(job, w);
    RunWithoutStaging(job, w, disk);
    HaltedWithCleanup(ready, None, 5);
  }

  /** The actions up to the creation request stay at or below the creation stage. */
  lemma CreateReadyRanks(job: ImportJob, w: World)
    ensures forall x | x in DepTrail(w) + [TokenCheck] + [ExistsProbe] + CreateTrail(job, w) :: Rank(x) <= 5
  {
    DepTrailLookups(w);
    RanksAppend(DepTrail(w), [TokenCheck], 5);
    RanksAppend(DepTrail(w) + [TokenCheck], [ExistsProbe], 5);
    RanksAppend(DepTrail(w) + [TokenCheck] + [ExistsProbe], CreateTrail(job, w), 5);
  }

  /** The default branch is set exactly when a custom branch is given and the push went
      through, and only to that branch. */
  lemma DefaultBranchSet(job: ImportJob, w: World, disk: set<string>, b: string)
    ensures SetDefaultBranch(b) in RunTrace(job, w, disk) <==>
      Pushed(w) && Truthy(job.customBranch) && b == job.customBranch.value
  {
    RunTraceMembers(job, w, disk);
    if ReachesClone(w) {
      var ready := ReachedTransfer(job, w, disk);
      TransferBranch(job, w, disk, ready, b);
    } else {
      BranchNeedsClone(job, w, disk, b);
    }
  }

  /** The transfer sets the default branch `b` exactly when the clone and the push
      returned and `b` is the custom branch. */
  lemma TransferBranch(job: ImportJob, w: World, disk: set<string>, before: seq<Action>, b: string)
    requires forall x | x in before :: Rank(x) <= 5
    ensures SetDefaultBranch(b) in Transfer(job, w, disk, before).actions <==>
      w.clone.Output? && w.push.Output? && Truthy(job.customBranch) && b == job.customBranch.value
  {
    TransferActions(job, w, disk, before);
    var path := TempPath(job.repoName, w.pid);
    var push := PushTrail(job, w, path);
    if w.clone.Output? && w.push.Output? && Truthy(job.customBranch) {
      assert push[1] == SetDefaultBranch(job.customBranch.value);
    }
  }

  /** A probe that fails or is interrupted, or a prompt that is declined, fails or is
      interrupted, ends the run after the prompt stage. */
  lemma ProbeFailureHalts(job: ImportJob, w: World, disk: set<string>)
    requires TokenPass(w) && !NeedsCreate(w) && !Confirmed(w)
    ensures RunOutcome(job, w, disk) != Success
    ensures Halted(RunTrace(job, w, disk), 3)
    ensures RunDisk(job, w, disk) == disk
  {
    ProbeStage(job, w, disk);
    RunWithoutStaging(job, w, disk);
    ProbeRanks(w);
    HaltedWithCleanup(DepTrail(w) + [TokenCheck] + ProbeTrail(w), None, 3);
  }

  /** A run that does not reach the clone issues nothing past the creation stage,
      never sets the staging directory and leaves the local filesystem alone. */
  lemma NoCloneHalts(job: ImportJob, w: World, disk: set<string>)
    requires !ReachesClone(w)
    ensures RunOutcome(job, w, disk) != Success
    ensures Halted(RunTrace(job, w, disk), 5)
    ensures Attempted(job, w, disk).tempDir == None
    ensures RunDisk(job, w, disk) == disk
  {
    if !DepsPass(w) {
      DependencyFailureHalts(job, w, disk);
    } else if !TokenPass(w) {
      TokenFailureHalts(job, w, disk);
    } else if NeedsCreate(w) {
      CreateFailureHalts(job, w, disk);
      CreateAttempt(job, w, disk);
    } else {
      ProbeFailureHalts(job, w, disk);
    }
  }

  /** Without a clone there is no push and no default-branch update. */
  lemma BranchNeedsClone(job: ImportJob, w: World, disk: set<string>, b: string)
    requires !ReachesClone(w)
    ensures SetDefaultBranch(b) !in Attempted(job, w, disk).actions
  {
    NoCloneHalts(job, w, disk);
    RunTraceMembers(job, w, disk);
    HaltedPrefix(RunTrace(job, w, disk), Attempted(job, w, disk).actions, 5);
    HaltedExcludes(Attempted(job, w, disk).actions, 5, SetDefaultBranch(b));
  }

  /** A prefix of a trace halted at `stage` is halted there too. */
  lemma HaltedPrefix(t: seq<Action>, acts: seq<Action>, stage: nat)
    requires Halted(t, stage) && acts <= t
    ensures Halted(acts, stage)
  {
    forall x | x in acts ensures x.CleanupRan? || Rank(x) <= stage {
      var i :| 0 <= i < |acts| && acts[i] == x;
      assert t[i] == x;
    }
  }

  /** A trace halted at `stage` holds no action past it other than the cleanup. */
  lemma HaltedExcludes(t: seq<Action>, stage: nat, x: Action)
    requires Halted(t, stage)
    requires !x.CleanupRan? && stage < Rank(x)
    ensures x !in t
  {
  }

  /** A run that reaches the clone is the transfer after the actions of the earlier
      stages, none of them past the creation stage. */
  lemma ReachedTransfer(job: ImportJob, w: World, disk: set<string>) returns (ready: seq<Action>)
    requires ReachesClone(w)
    ensures Attempted(job, w, disk) == Transfer(job, w, disk, ready)
    ensures forall x | x in ready :: Rank(x) <= 5
  {
    if Confirmed(w) {
      ready := DepTrail(w) + [TokenCheck] + [ExistsProbe, OverwritePrompt];
      ConfirmAttempt(job, w, disk);
      PromptRanks(w, 5);
    } else {
      ready := DepTrail(w) + [TokenCheck] + [ExistsProbe] + CreateTrail(job, w);
      CreateAttempt(job, w, disk);
      CreateReadyRanks(job, w);
    }
  }

  /** After the transfer and the cleanup, the staging directory is gone and nothing
      else has changed. */
  lemma TransferCleared(job: ImportJob, w: World, disk: set<string>, before: seq<Action>)
    ensures var a := Transfer(job, w, disk, before);
      var path := TempPath(job.repoName, w.pid);
      a.tempDir == Some(path) &&
      (if Removes(a) then a.disk - {path} else a.disk) == disk - {path}
  {
    var path := TempPath(job.repoName, w.pid);
    var after := CloneDisk(w, path, disk);
    if path !in after {
      assert after == after - {path};
    }
  }

  /** The staging directory is set exactly when the run reaches the clone, and the run
      changes the local filesystem in one way only: that directory is gone at the end,
      whether the clone made it, found it left over, or failed half-way. */
  lemma StagingRemoved(job: ImportJob, w: World, disk: set<string>)
    ensures var path := TempPath(job.repoName, w.pid);
      Attempted(job, w, disk).tempDir == (if ReachesClone(w) then Some(path) else None) &&
      RunDisk(job, w, disk) == (if ReachesClone(w) then disk - {path} else disk)
  {
    if ReachesClone(w) {
      var ready := ReachedTransfer(job, w, disk);
      TransferCleared(job, w, disk, ready);
    } else {
      NoCloneHalts(job, w, disk);
    }
  }

  /** A leftover staging directory is removed before the clone, and nothing else is
      ever removed before the cleanup. */
  lemma StaleRemoval(job: ImportJob, w: World, disk: set<string>, p: string)
    ensures RemoveStale(p) in RunTrace(job, w, disk) <==>
      ReachesClone(w) && p == TempPath(job.repoName, w.pid) && p in disk
  {
    if ReachesClone(w) {
      var ready := ReachedTransfer(job, w, disk);
      TransferStale(job, w, disk, ready, p);
      RunTraceMembers(job, w, disk);
      MemberBesidesCleanup(Attempted(job, w, disk).actions, RunTrace(job, w, disk), RemoveStale(p));
    } else {
      NoCloneHalts(job, w, disk);
      HaltedExcludes(RunTrace(job, w, disk), 5, RemoveStale(p));
    }
  }

  /** The transfer removes a leftover directory `p` exactly when `p` is the staging
      directory and is present. */
  lemma TransferStale(job: ImportJob, w: World, disk: set<string>, before: seq<Action>, p: string)
    requires forall x | x in before :: Rank(x) <= 5
    ensures RemoveStale(p) in Transfer(job, w, disk, before).actions <==>
      p == TempPath(job.repoName, w.pid) && p in disk
  {
    TransferActions(job, w, disk, before);
    var path := TempPath(job.repoName, w.pid);
    if path in disk {
      assert CloneTrail(job, path, disk)[0] == RemoveStale(path);
    }
  }
}
