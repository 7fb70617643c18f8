/**
 * The externally visible actions one import run issues, in the order of the
 * pipeline's stages: dependency lookups, token check, existence probe,
 * overwrite prompt, organisation lookup, creation, staging-directory
 * preparation, mirror clone, mirror push, default-branch update, cleanup.
 */
module Actions {
  import opened Wrappers

  datatype Action =
    | DepLookup(dep: string)                     // `which <dep>`
    | TokenCheck                                 // GET /user, status code only
    | ExistsProbe                                // GET /repos/<user>/<name>, status code only
    | OverwritePrompt                            // "Do you want to overwrite it? (yes/no)"
    | UserInfoLookup                             // GET /users/<user>
    | CreateRepo(endpoint: string, name: string, description: string)  // POST
    | RemoveStale(path: string)                  // `rm -rf` of a leftover staging directory
    | MirrorClone(source: string, dest: string)  // `git clone --mirror`
    | MirrorPush(remote: string, cwd: string)    // `git push --mirror`
    | SetDefaultBranch(branch: string)           // PATCH /repos/<user>/<name>
    | CleanupRan(removed: Option<string>)        // `_cleanup`, with the directory it removed

  /** The pipeline stage an action belongs to. */
  function Rank(a: Action): nat {
    match a
    case DepLookup(_) => 0
    case TokenCheck => 1
    case ExistsProbe => 2
    case OverwritePrompt => 3
    case UserInfoLookup => 4
    case CreateRepo(_, _, _) => 5
    case RemoveStale(_) => 6
    case MirrorClone(_, _) => 7
    case MirrorPush(_, _) => 8
    case SetDefaultBranch(_) => 9
    case CleanupRan(_) => 10
  }

  /** `a` may precede `b`: a strictly later stage, or two dependency lookups. */
  predicate Before(a: Action, b: Action) {
    Rank(a) < Rank(b) || (a.DepLookup? && b.DepLookup?)
  }

  /** Each action may follow the one before it. */
  predicate Chained(t: seq<Action>) {
    forall i :: 0 <= i < |t| - 1 ==> Before(t[i], t[i + 1])
  }

  /** Every action may follow every earlier one: the stages never go backwards and,
      dependency lookups aside, no stage is entered twice. */
  predicate Ordered(t: seq<Action>) {
    forall i, j :: 0 <= i < j < |t| ==> Before(t[i], t[j])
  }

  /** No action beyond `stage` was issued, except the cleanup. */
  predicate Halted(t: seq<Action>, stage: nat) {
    forall a | a in t :: a.CleanupRan? || Rank(a) <= stage
  }

  /** Adjacent order is global order. */
  lemma {:induction false} ChainedIsOrdered(t: seq<Action>)
    requires Chained(t)
    ensures Ordered(t)
  {
    if |t| >= 2 {
      var p := t[..|t| - 1];
      assert Chained(p) by {
        forall i | 0 <= i < |p| - 1 ensures Before(p[i], p[i + 1]) {
          assert p[i] == t[i] && p[i + 1] == t[i + 1];
        }
      }
      ChainedIsOrdered(p);
      forall i, j | 0 <= i < j < |t| ensures Before(t[i], t[j]) {
        if j < |t| - 1 {
          assert t[i] == p[i] && t[j] == p[j];
        } else if i < |t| - 2 {
          assert Before(p[i], p[|t| - 2]);
          assert Before(t[|t| - 2], t[|t| - 1]);
        }
      }
    }
  }
}
