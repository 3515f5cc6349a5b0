/** `find_project_root`: the nearest directory, from a starting directory
    upwards, that holds a `.git` entry. Paths are lexical, as `pathlib`
    treats them: a path is absolute or relative plus its name parts, and
    its parent drops the last part. The root `/` and the relative `.` have
    no parts and are their own parents, so the walk ends there without
    looking at them. Whether `<dir>/.git` exists is a question to the file
    system, given as a parameter. */
module CliUtils {
  import opened Wrappers

  datatype Path = Path(absolute: bool, parts: seq<string>)

  /** `path.parent`: the last part dropped; `/` and `.` stay where they are. */
  function Parent(p: Path): (q: Path)
    ensures q.absolute == p.absolute
    ensures p.parts == [] ==> q == p
    ensures p.parts != [] ==> q.parts == p.parts[..|p.parts| - 1]
  {
    if p.parts == [] then p else Path(p.absolute, p.parts[..|p.parts| - 1])
  }

  /** The ancestor of `p` that keeps its first `k` parts (`p` itself when
      `k` is all of them). */
  function Ancestor(p: Path, k: nat): Path
    requires k <= |p.parts|
  {
    Path(p.absolute, p.parts[..k])
  }

  const NotInGitRepositoryMessage: string := "Not in a git repository"

  /** `NotInGitRepositoryError`, a `FileNotFoundError` with a fixed message. */
  datatype NotInGitRepositoryError = NotInGitRepositoryError(message: string)

  /** `start or Path.cwd()`: a `Path` is never false, so only a missing
      start falls back to the working directory. */
  function StartOf(start: Option<Path>, cwd: Path): (p: Path)
    ensures start.Some? ==> p == start.value
    ensures start.None? ==> p == cwd
  {
    if start.Some? then start.value else cwd
  }

  /** The walk up from `p`: the first directory with `.git`, stopping at
      the directory that is its own parent without looking at it. */
  function NearestRoot(p: Path, hasGit: Path -> bool): (r: Option<Path>)
    ensures r.Some? ==> hasGit(r.value) && r.value.absolute == p.absolute
    ensures r.Some? ==> 0 < |r.value.parts| <= |p.parts| && r.value.parts == p.parts[..|r.value.parts|]
    decreases |p.parts|
  {
    if p == Parent(p) then None
    else if hasGit(p) then Some(p)
    else NearestRoot(Parent(p), hasGit)
  }

  /** The walk finds the deepest ancestor of `p`, other than `/` or `.`,
      that holds `.git`, and finds nothing exactly when none does. */
  lemma {:induction false} NearestRootIsDeepest(p: Path, hasGit: Path -> bool)
    ensures var r := NearestRoot(p, hasGit);
            && (r.Some? ==> exists k :: 0 < k <= |p.parts| && r.value == Ancestor(p, k))
            && (r.Some? ==> hasGit(r.value) && r.value.parts != [])
            && (r.Some? ==> forall k :: |r.value.parts| < k <= |p.parts| ==> !hasGit(Ancestor(p, k)))
            && (r.None? <==> forall k :: 0 < k <= |p.parts| ==> !hasGit(Ancestor(p, k)))
    decreases |p.parts|
  {
    if p.parts != [] {
      var n := |p.parts|;
      assert Ancestor(p, n) == p;
      var q := Parent(p);
      NearestRootIsDeepest(q, hasGit);
      forall k | 0 < k <= |q.parts| ensures Ancestor(q, k) == Ancestor(p, k) {
        assert q.parts[..k] == p.parts[..k];
      }
      if !hasGit(p) {
        var r := NearestRoot(q, hasGit);
        if r.Some? {
          var k :| 0 < k <= |q.parts| && r.value == Ancestor(q, k);
          assert r.value == Ancestor(p, k);
        }
      }
    }
  }

  /** The walk never asks about `/` or `.` themselves: two file systems
      that differ only there give the same answer, so a `.git` at the root
      of the file system is not found. */
  lemma {:induction false} RootNeverConsulted(p: Path, hasGit: Path -> bool, hasGit': Path -> bool)
    requires forall k :: 0 < k <= |p.parts| ==> hasGit(Ancestor(p, k)) == hasGit'(Ancestor(p, k))
    ensures NearestRoot(p, hasGit) == NearestRoot(p, hasGit')
    decreases |p.parts|
  {
    if p.parts != [] {
      var q := Parent(p);
      assert Ancestor(p, |p.parts|) == p;
      forall k | 0 < k <= |q.parts| ensures Ancestor(q, k) == Ancestor(p, k) {
        assert q.parts[..k] == p.parts[..k];
      }
      RootNeverConsulted(q, hasGit, hasGit');
    }
  }

  /** `find_project_root(start)`, with the file system's answer to
      "does `<dir>/.git` exist" as `hasGit`. */
  method FindProjectRoot(start: Option<Path>, cwd: Path, hasGit: Path -> bool)
    returns (r: Result<Path, NotInGitRepositoryError>)
    ensures r.Success? <==> NearestRoot(StartOf(start, cwd), hasGit).Some?
    ensures r.Success? ==> r.value == NearestRoot(StartOf(start, cwd), hasGit).value
    ensures r.Failure? ==> r.error.message == NotInGitRepositoryMessage
  {
    var current := StartOf(start, cwd);
    ghost var begin := current;
    while current != Parent(current)
      invariant NearestRoot(current, hasGit) == NearestRoot(begin, hasGit)
      decreases |current.parts|
    {
      if hasGit(current) {
        return Success(current);
      }
      current := Parent(current);
    }
    return Failure(NotInGitRepositoryError(NotInGitRepositoryMessage));
  }
}
