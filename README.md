# git-repo-importer, modelled in Dafny

`git-repo-importer.py` mirrors a git repository into a GitHub account. It derives a repository name from the source URL, then runs a fixed pipeline:

1. check that `git` and `curl` are installed;
2. validate the token;
3. probe whether the target repository exists, and ask before overwriting it;
4. otherwise create it, through the organisation or the user endpoint;
5. mirror-clone the source into a staging directory under `/tmp`;
6. mirror-push it, and set the default branch when one is given.

Whatever happens, the staging directory is cleaned up at the end.

The model has two parts.

**Name derivation** is pure. `RepoName.ExtractRepoName` and `RepoName.ResolveRepoName` are functions of the URL path and the optional override, with lemmas for the suffix and slash cases: trailing slashes are ignored, a path ending in `/.git` fails, and of `.git.git` only one suffix is removed.

**The pipeline** is the class `Importer.GitHubImporter`:

- Its fields are the settings fixed by `__init__`, the `tempDir` field that the clone step sets and the cleanup reads, and `disk`, the set of directory paths present on the local filesystem that the run can touch. Paths are whole names: `disk` records whether a directory exists, not what is inside it.
- A ghost `trace` records every external action issued: a lookup, an API call, a prompt, a clone, a push or a removal.
- Every external result is an oracle input, the `Environment.World`. A `Reply` is either the output of the call, a failure (`CalledProcessError`, or `EOFError` at the prompt), or a Ctrl-C while blocked in it.
- `json.loads` is an oracle from text to an optional JSON object.
- Python exceptions are values: `Signal` is `SystemExit(code)`, `KeyboardInterrupt` or another `Exception`.
- `ExitFor` encodes the handlers of `import_repo`. A `SystemExit` passes through `except Exception` with its code unchanged. Ctrl-C and any other exception exit 1.

Each step method is proved against a pure function of the world (`Pipeline.DepTrail`, `Pipeline.ProbeStep`, …). `ImportRepo` is proved to issue exactly `Pipeline.RunTrace`, to end with `Pipeline.RunOutcome`, and to leave `Pipeline.RunDisk`. The lemmas in `RunProperties` state what those functions promise about whole runs. The trace is kept *chained* by the ghost method `Log`: each action belongs to a later pipeline stage than the one before it, dependency lookups aside. `Actions.ChainedIsOrdered` lifts this to the global order of every run.

## Model

| member | source | states |
|---|---|---|
| RepoName.TrimSlashes | git-repo-importer.py:42 | `rstrip('/')`: the result is a prefix that does not end in `/`, and everything dropped is `/` |
| RepoName.DropGitSuffix | git-repo-importer.py:45-46 | exactly one trailing `.git` is removed when present; otherwise the path is unchanged |
| RepoName.LastSegment | git-repo-importer.py:49 | `split('/')[-1]`: a `/`-free suffix of the path, preceded by `/` or equal to the whole path |
| RepoName.ExtractRepoName | git-repo-importer.py:39-54 | a derived name is non-empty, has no `/`, and is the last `/`-segment of the path with trailing slashes and then one `.git` removed; the `ValueError` is raised exactly when that segment is empty |
| RepoName.ResolveRepoName | git-repo-importer.py:36 | a truthy override is taken verbatim, so no error is possible; `None` or `""` falls back to extraction; a resolved name is never empty |
| RepoName.ExtractWithGitSuffix | git-repo-importer.py:42-49 | `<dir>/<name>.git` followed by any number of slashes derives `<name>` |
| RepoName.ExtractPlain | git-repo-importer.py:42-49 | `<dir>/<name>` with no `.git` suffix, followed by any number of slashes, derives `<name>` |
| RepoName.ExtractFailsOnSlashes | git-repo-importer.py:51-52 | the empty path and an all-slash path raise `ValueError` |
| RepoName.ExtractFailsOnDotGitSegment | git-repo-importer.py:42-52 | `<dir>/.git` plus slashes raises, because the slashes are stripped before the suffix is removed |
| RepoName.ExtractOneSuffixOnly | git-repo-importer.py:45-46 | `<dir>/<name>.git.git` derives `<name>.git`: only one suffix is removed |
| Text.TrimStartSpec | git-repo-importer.py:129 | `lstrip()`: the dropped prefix is all whitespace and the result does not start with whitespace |
| Text.TrimEndSpec | git-repo-importer.py:129 | `rstrip()`: the dropped suffix is all whitespace and the result does not end with whitespace |
| Text.StripSpec | git-repo-importer.py:129 | `strip()`: the result is an infix between two all-whitespace ends and has no whitespace at either end |
| Text.StripPadded | git-repo-importer.py:129 | `strip()` of any whitespace + `m` + any whitespace is `m` |
| Text.LowerSpec | git-repo-importer.py:129 | `lower()` keeps the length and lower-cases every character |
| Text.Decimal | git-repo-importer.py:195 | `str(pid)` is a non-empty string of decimal digits |
| Text.DecimalInjective | git-repo-importer.py:195 | different pids render differently |
| Pipeline.FirstInterrupt | git-repo-importer.py:86-88 | the index of the first lookup that Ctrl-C interrupts: no earlier lookup is interrupted, and the lookup at that index is |
| Pipeline.MissingSpec | git-repo-importer.py:84-90 | the list holds exactly the dependencies whose lookup fails, and is no longer than the dependency list |
| Pipeline.MissingBoth | git-repo-importer.py:83-90 | with both lookups failing, the list is `["git", "curl"]`, in list order |
| Pipeline.MissingInOrder | git-repo-importer.py:84-90 | the collected list equals the failed dependencies read front to back: list order, one entry per failed lookup |
| Pipeline.MissingTools | git-repo-importer.py:83-90 | for `git` and `curl`, the list is `["git"]`, `["curl"]`, `["git", "curl"]` or empty, according to which lookups fail |
| Pipeline.ConfirmsPadded | git-repo-importer.py:129-130 | any capitalisation of `yes`, surrounded by any whitespace, confirms the overwrite |
| Pipeline.ConfirmsOnlyYes | git-repo-importer.py:129-130 | an answer confirms only if its stripped form is a capitalisation of `yes` |
| Pipeline.ReposEndpoint | git-repo-importer.py:148-159 | creation goes to `orgs/<user>/repos` iff the decoded account has `type == "Organization"`; otherwise, including when the lookup does not decode, it goes to `/user/repos` |
| Pipeline.CreateVerdict | git-repo-importer.py:177-189 | true iff the reply decodes and has `id` (and `html_url`); false iff it does not decode or has no `id`; `id` without `html_url` raises `KeyError` |
| Pipeline.TempPathUnique | git-repo-importer.py:195 | different names or pids never share a staging directory |
| Pipeline.DepTrailSpec | git-repo-importer.py:86-88 | the lookups issued are `which git`, then `which curl`, stopping after an interrupted one |
| Pipeline.DepsSignal | git-repo-importer.py:86-95 | the dependency stage raises nothing exactly when no lookup is interrupted and none is missing; Ctrl-C exactly when a lookup is interrupted; exit 1 exactly when no lookup is interrupted and some tool is missing |
| Pipeline.TokenStep | git-repo-importer.py:108-112 | the run goes on exactly when the status is `"200"`; any other status exits 1 |
| Pipeline.ProbeStep | git-repo-importer.py:125-135 | true iff the status is `"200"` and the answer confirms; false iff the status is anything else; exit 0 iff the status is `"200"` and the answer does not confirm; no other exit code |
| Pipeline.CreateStep | git-repo-importer.py:146-189 | true exactly when the account lookup and the POST both returned and the reply shows a new repository; never a `SystemExit` |
| Pipeline.CloneDisk | git-repo-importer.py:197-203 | only the staging path changes on disk; it exists afterwards iff the clone returned or left a partial directory |
| Pipeline.CloneStep | git-repo-importer.py:202-207 | the clone goes on iff it returned; a failed clone exits 1 |
| Pipeline.PushTrail | git-repo-importer.py:213-230 | always exactly the one mirror push to the token-bearing remote, from the staging directory; a second action, the default-branch PATCH, follows iff the push returned and the branch is truthy |
| Pipeline.PushStep | git-repo-importer.py:215-234 | done iff the push returned and, when a branch is given, the PATCH returned; never a `SystemExit` |
| Environment.Fault | git-repo-importer.py:72-77 | a call cut short by Ctrl-C raises `KeyboardInterrupt`; a failed one raises an ordinary exception |
| Environment.ExitFor | git-repo-importer.py:282-287 | a `SystemExit` keeps its code through `except Exception`; Ctrl-C and any other exception exit 1; only `SystemExit(0)` exits 0 |
| Actions.ChainedIsOrdered | git-repo-importer.py:255-273 | if each action follows the previous one's stage, the whole trace is in stage order, with no stage except the lookups entered twice |
| Importer.GitHubImporter.constructor | git-repo-importer.py:31-37 | the settings are stored, the name is resolved, no staging directory is set, and nothing has been issued |
| Importer.GitHubImporter.CheckDependencies | git-repo-importer.py:79-97 | issues `DepTrail`, returns as `missing` the failed lookups made before any Ctrl-C, and raises what `DepsSignal` says: Ctrl-C, exit 1 for a missing tool, or nothing |
| Importer.GitHubImporter.LookUpDependencies | git-repo-importer.py:84-90 | the loop looks each tool up in order, stops at an interrupted lookup, and collects the failed ones as `Missing` of the lookups made |
| Importer.GitHubImporter.ValidateToken | git-repo-importer.py:99-114 | issues one token check, with the result `TokenStep` |
| Importer.GitHubImporter.CheckRepoExists | git-repo-importer.py:116-135 | issues the probe and, only for status `"200"`, the prompt; the result is `ProbeStep` |
| Importer.GitHubImporter.CreateGitHubRepo | git-repo-importer.py:137-189 | issues the account lookup, then the POST to `ReposEndpoint` with the name and `Imported from <source>`; the result is `CreateStep` |
| Importer.GitHubImporter.CloneSourceRepo | git-repo-importer.py:191-207 | sets `tempDir` to `/tmp/git-import-<name>-<pid>`, removes a leftover directory there first, and clones into it |
| Importer.GitHubImporter.PushToGitHub | git-repo-importer.py:209-236 | issues `PushTrail` from `tempDir`, with the result `PushStep` |
| Importer.GitHubImporter.Cleanup | git-repo-importer.py:238-243 | removes `tempDir` exactly when it is set and present, and records that; afterwards the directory is not present |
| Importer.GitHubImporter.TransferRepo | git-repo-importer.py:269-273 | the clone, then the push only if the clone went through |
| Importer.GitHubImporter.ProvisionTarget | git-repo-importer.py:261-273 | the probe; the creation only when the repository is absent, and exit 1 when it fails; then the transfer |
| Importer.GitHubImporter.TryImport | git-repo-importer.py:247-273 | the `try` block: the steps in order, the first exception ending it |
| Importer.GitHubImporter.ImportRepo | git-repo-importer.py:245-289 | the trace is `RunTrace` and is in stage order; the outcome is `RunOutcome`; the filesystem afterwards is `RunDisk` |
| Importer.Launch | git-repo-importer.py:340-354 | an empty token, user or source, or an underivable name, exits 1 with nothing issued and the filesystem untouched; otherwise the run issues exactly `RunTrace` of the resolved job and leaves `RunDisk`, starting with `which git`, ending with the cleanup and in stage order; the exit is success, 0 or 1; success iff every step went through; exit 0 iff the user declined |
| RunProperties.AttemptShape | git-repo-importer.py:255-273 | the `try` block starts with the dependency lookups and issues no cleanup |
| RunProperties.AttemptRaised | git-repo-importer.py:247-287 | the `try` block ends without an exception iff the import goes through, with `SystemExit(0)` iff the user declined, and with no exit code but 0 and 1 |
| RunProperties.RunOutcomeCases | git-repo-importer.py:245-289 | every run ends with success, exit 0 or exit 1; success iff every step went through; exit 0 iff the user declined the overwrite |
| RunProperties.RunTraceShape | git-repo-importer.py:255-289 | every run begins with `which git` and ends with the cleanup, which happens once, last, on every path |
| RunProperties.DependencyFailureHalts | git-repo-importer.py:92-95 | a missing or interrupted tool exits 1 after the lookups alone, and the filesystem is untouched |
| RunProperties.TokenFailureHalts | git-repo-importer.py:108-112 | a status other than `"200"` (or a failed or interrupted check) exits 1 with no probe, creation, clone or push |
| RunProperties.DeclineHalts | git-repo-importer.py:127-132 | declining exits 0: the trace is the lookups, the token check, the probe, the prompt and the cleanup, and the filesystem is untouched |
| RunProperties.ConfirmSkipsCreate | git-repo-importer.py:262-270 | confirming the overwrite skips the account lookup and the creation, and goes on to the clone |
| RunProperties.CreateRequestOnce | git-repo-importer.py:142-175 | an absent repository is created with exactly one POST, to the endpoint the account lookup selects, with the resolved name and `Imported from <source>` |
| RunProperties.CreateFailureHalts | git-repo-importer.py:266-267 | a failed creation exits 1 before any clone, and the filesystem is untouched |
| RunProperties.ProbeFailureHalts | git-repo-importer.py:125-133 | a failed or interrupted probe or prompt, or a declined prompt, ends the run after the prompt stage with the filesystem untouched |
| RunProperties.NoCloneHalts | git-repo-importer.py:195-243 | a run that does not reach the clone issues nothing past creation, never sets `tempDir` and removes nothing |
| RunProperties.DefaultBranchSet | git-repo-importer.py:215-230 | the default-branch PATCH is issued, for the custom branch only, exactly when that branch is truthy and the clone and push went through |
| RunProperties.StagingRemoved | git-repo-importer.py:195-243 | `tempDir` is set iff the run reaches the clone; the run's only effect on the filesystem is that the staging directory is absent at the end |
| RunProperties.StaleRemoval | git-repo-importer.py:197-198 | a leftover directory is removed before the clone iff it is the staging directory and it exists; nothing else is removed before the cleanup |

## Left out

- Running `which`, `curl`, `git` and `rm -rf`, and the HTTP API behind them (lines 56-77). Their results are oracle inputs of `Environment.World`. The text of each command, with its shell quoting, is not modelled; the action records what it addresses.
- `urlparse` (line 41): `ExtractRepoName` takes the path component as its input. `Launch` takes that path as a separate argument next to the source URL.
- `json.loads` and `json.dumps`: decoding is an oracle returning a JSON object or nothing. A reply that decodes to a non-object (a list or a number, where `.get` or `in` would behave differently) is not modelled. The `"private": False` field of the POST body is not recorded in the `CreateRepo` action.
- The `Colors` class and every `print` (lines 16-26 and throughout): presentation only.
- `main`'s argument parsing and interactive prompting (lines 291-338), including the fall-back into interactive mode at line 322. `Launch` starts from the five values that `main` ends up with.
- `rm -rf` (lines 198 and 242) always succeeds in the model. A removal that fails inside `finally` would replace the exit of the run with a new exception; that is not modelled.
- Ctrl-C is modelled only while an external call or the prompt is blocked, not between statements.
- Text.Lower: lower-cases ASCII letters only, not all of Unicode. The only characters Python lower-cases to `y`, `e` or `s` are `Y`, `E` and `S`, so the `yes` test is unaffected.
- Importer.GitHubImporter.ImportRepo: requires a fresh importer (nothing issued, no staging directory), as `main` creates one per run; calling `import_repo` twice on one object is not modelled.
- The contents of directories: `disk` holds paths as opaque names, so entries nested under the staging directory (such as `<path>/objects`) are not modelled. `rm -rf` removing them with the directory is implied, not stated. `StagingRemoved` and `CloneDisk` speak about the filesystem at this granularity.
- The process id is a parameter of the world rather than a call to `os.getpid`.
