/**
 * Repository-name derivation (`GitHubImporter._extract_repo_name` and the
 * override rule in `GitHubImporter.__init__`).  The input is the path
 * component of the source URL; URL parsing itself is not modelled.
 */
module RepoName {
  import opened Wrappers
  import opened Text

  /** The `ValueError` raised when no name can be derived. */
  datatype NameError = CouldNotExtractName

  /** `path.rstrip('/')`: drop every trailing slash. */
  function TrimSlashes(p: string): (r: string)
    ensures r <= p
    ensures r == [] || r[|r| - 1] != '/'
    ensures forall i :: |r| <= i < |p| ==> p[i] == '/'
  {
    if p != [] && p[|p| - 1] == '/' then TrimSlashes(p[..|p| - 1]) else p
  }

  predicate HasGitSuffix(p: string) {
    |p| >= 4 && p[|p| - 4..] == ".git"
  }

  /** `if path.endswith('.git'): path = path[:-4]` -- at most one suffix goes. */
  function DropGitSuffix(p: string): (r: string)
    ensures HasGitSuffix(p) ==> r + ".git" == p
    ensures !HasGitSuffix(p) ==> r == p
  {
    if HasGitSuffix(p) then p[..|p| - 4] else p
  }

  /** `path.split('/')[-1]`: the longest slash-free suffix of `p`. */
  function LastSegment(p: string): (r: string)
    ensures '/' !in r
    ensures |r| <= |p| && p[|p| - |r|..] == r
    ensures |r| == |p| || p[|p| - |r| - 1] == '/'
  {
    if p == [] || p[|p| - 1] == '/' then [] else LastSegment(p[..|p| - 1]) + [p[|p| - 1]]
  }

  /** What is left of the path once trailing slashes and then one `.git` are removed. */
  function Stem(path: string): string {
    DropGitSuffix(TrimSlashes(path))
  }

  /**
   * `_extract_repo_name`: the last `/`-segment of the stem, or an error when
   * that segment is empty.  A derived name is never empty and holds no `/`.
   */
  function ExtractRepoName(path: string): (r: Result<string, NameError>)
    ensures r.Ok? ==> r.value != [] && '/' !in r.value
    ensures r.Ok? ==> var s := Stem(path);
      |r.value| <= |s| && s[|s| - |r.value|..] == r.value &&
      (|r.value| == |s| || s[|s| - |r.value| - 1] == '/')
    ensures r.Err? <==> Stem(path) == [] || Stem(path)[|Stem(path)| - 1] == '/'
  {
    var name := LastSegment(Stem(path));
    if name == [] then Err(CouldNotExtractName) else Ok(name)
  }

  /**
   * `repo_name or self._extract_repo_name(source_url)`: a non-empty override is
   * taken verbatim and no extraction happens; `None` or `""` falls back.
   */
  function ResolveRepoName(override: Option<string>, path: string): (r: Result<string, NameError>)
    ensures Truthy(override) ==> r == Ok(override.value)
    ensures !Truthy(override) ==> r == ExtractRepoName(path)
    ensures r.Ok? ==> r.value != []
  {
    if Truthy(override) then Ok(override.value) else ExtractRepoName(path)
  }

  predicate AllSlashes(k: string) {
    forall i :: 0 <= i < |k| ==> k[i] == '/'
  }

  lemma {:induction false} TrimSlashesPadded(m: string, k: string)
    requires m == [] || m[|m| - 1] != '/'
    requires AllSlashes(k)
    ensures TrimSlashes(m + k) == m
  {
    if k != [] {
      assert (m + k)[..|m + k| - 1] == m + k[..|k| - 1];
      TrimSlashesPadded(m, k[..|k| - 1]);
    } else {
      assert m + k == m;
    }
  }

  lemma {:induction false} LastSegmentAfterSlash(dir: string, name: string)
    requires '/' !in name
    ensures LastSegment(dir + "/" + name) == name
  {
    if name != [] {
      var p := dir + "/" + name;
      assert p[..|p| - 1] == dir + "/" + name[..|name| - 1];
      LastSegmentAfterSlash(dir, name[..|name| - 1]);
      assert name == name[..|name| - 1] + [name[|name| - 1]];
    }
  }

  /** `<dir>/<name>.git` followed by any slashes derives `<name>`, whatever `<name>` ends in. */
  lemma ExtractWithGitSuffix(dir: string, name: string, slashes: string)
    requires name != [] && '/' !in name
    requires AllSlashes(slashes)
    ensures ExtractRepoName(dir + "/" + name + ".git" + slashes) == Ok(name)
  {
    var m := dir + "/" + name + ".git";
    TrimSlashesPadded(m, slashes);
    assert HasGitSuffix(m) && m[..|m| - 4] == dir + "/" + name;
    LastSegmentAfterSlash(dir, name);
  }

  /** `<dir>/<name>` followed by any slashes derives `<name>` when it has no `.git` suffix. */
  lemma ExtractPlain(dir: string, name: string, slashes: string)
    requires name != [] && '/' !in name && !HasGitSuffix(name)
    requires AllSlashes(slashes)
    ensures ExtractRepoName(dir + "/" + name + slashes) == Ok(name)
  {
    var m := dir + "/" + name;
    assert m[|m| - 1] == name[|name| - 1];
    TrimSlashesPadded(m, slashes);
    if |name| >= 4 {
      assert m[|m| - 4..] == name[|name| - 4..];
    } else {
      assert m[|m| - |name| - 1] == '/';
      assert !HasGitSuffix(m);
    }
    LastSegmentAfterSlash(dir, name);
  }

  /** A path made only of slashes, the empty path included, yields no name. */
  lemma ExtractFailsOnSlashes(k: string)
    requires AllSlashes(k)
    ensures ExtractRepoName(k).Err?
  {
    TrimSlashesPadded([], k);
    assert [] + k == k;
  }

  /**
   * `<dir>/.git` followed by slashes yields no name: the slashes go before the
   * suffix does, so the segment left after the suffix is empty.
   */
  lemma ExtractFailsOnDotGitSegment(dir: string, slashes: string)
    requires AllSlashes(slashes)
    ensures ExtractRepoName(dir + "/.git" + slashes).Err?
  {
    var m := dir + "/.git";
    TrimSlashesPadded(m, slashes);
    assert HasGitSuffix(m) && m[..|m| - 4] == dir + "/";
  }

  /** Only one `.git` goes: `<dir>/<name>.git.git` derives `<name>.git`. */
  lemma ExtractOneSuffixOnly(dir: string, name: string, slashes: string)
    requires name != [] && '/' !in name
    requires AllSlashes(slashes)
    ensures ExtractRepoName(dir + "/" + name + ".git.git" + slashes) == Ok(name + ".git")
  {
    assert dir + "/" + name + ".git.git" + slashes == dir + "/" + (name + ".git") + ".git" + slashes;
    ExtractWithGitSuffix(dir, name + ".git", slashes);
  }
}
