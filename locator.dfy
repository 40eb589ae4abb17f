/**
 * The ordered fallback locator: `find_file_aggressively` and
 * `resolve_path_aggressively`. The file system is reduced to the set of
 * regular files, the set of directories, and an abstract recursive `glob`
 * whose matches (and their order) depend on the files present and on the
 * pattern.
 */
module Locator {
  import opened Wrappers
  import opened Strings
  import opened PosixPath

  /**
   * `files` are the paths `os.path.isfile` accepts, `dirs` the other paths
   * `os.path.exists` accepts, and `glob(files, pattern)` is what
   * `glob.glob(pattern, recursive=True)` lists when the regular files are `files`.
   */
  datatype FileSystem = FileSystem(files: set<Path>, dirs: set<Path>, glob: (set<Path>, Path) -> seq<Path>)

  predicate IsFile(fs: FileSystem, p: Path) {
    p in fs.files
  }

  predicate Exists(fs: FileSystem, p: Path) {
    p in fs.files || p in fs.dirs
  }

  function Glob(fs: FileSystem, pattern: Path): seq<Path> {
    fs.glob(fs.files, pattern)
  }

  /** Python's truth value of an optional path: `None` and `""` are both false. */
  predicate Truthy(o: Option<Path>) {
    o.Some? && o.value != ""
  }

  /** The first entry of `paths` that is a regular file. */
  function FirstFile(fs: FileSystem, paths: seq<Path>): (r: Option<Path>)
    ensures r.Some? ==> r.value in paths && IsFile(fs, r.value)
  {
    if paths == [] then None
    else if IsFile(fs, paths[0]) then Some(paths[0])
    else FirstFile(fs, paths[1..])
  }

  /** `FirstFile` picks the file at the least index, and only when no earlier entry is a file. */
  lemma {:induction false} FirstFileIs(fs: FileSystem, paths: seq<Path>, i: nat)
    requires i < |paths| && IsFile(fs, paths[i])
    requires forall j :: 0 <= j < i ==> !IsFile(fs, paths[j])
    ensures FirstFile(fs, paths) == Some(paths[i])
  {
    if i > 0 {
      assert !IsFile(fs, paths[0]);
      FirstFileIs(fs, paths[1..], i - 1);
    }
  }

  /** `FirstFile` finds nothing exactly when no entry is a file. */
  lemma {:induction false} FirstFileNone(fs: FileSystem, paths: seq<Path>)
    ensures FirstFile(fs, paths).None? <==> forall i :: 0 <= i < |paths| ==> !IsFile(fs, paths[i])
  {
    if paths != [] && !IsFile(fs, paths[0]) {
      FirstFileNone(fs, paths[1..]);
      assert forall i :: 1 <= i < |paths| ==> paths[i] == paths[1..][i - 1];
    }
  }

  /** Searching `a + b` searches `a` first and `b` only if `a` has no file. */
  lemma {:induction false} FirstFileAppend(fs: FileSystem, a: seq<Path>, b: seq<Path>)
    ensures FirstFile(fs, a + b) == if FirstFile(fs, a).Some? then FirstFile(fs, a) else FirstFile(fs, b)
  {
    if a == [] {
      assert a + b == b;
    } else {
      assert (a + b)[1..] == a[1..] + b;
      FirstFileAppend(fs, a[1..], b);
    }
  }

  /** `os.path.join(root, '**', filename)`. */
  function GlobPattern(root: Path, filename: Path): Path {
    Join(Join(root, "**"), filename)
  }

  /** The matches `find_file_aggressively` looks at under one root: none when the root does not exist. */
  function RootMatches(fs: FileSystem, root: Path, filename: Path): seq<Path> {
    if Exists(fs, root) then Glob(fs, GlobPattern(root, filename)) else []
  }

  /** All matches over the roots, root by root in order. */
  function AllMatches(fs: FileSystem, filename: Path, roots: seq<Path>): seq<Path> {
    if roots == [] then [] else RootMatches(fs, roots[0], filename) + AllMatches(fs, filename, roots[1..])
  }

  /**
   * `find_file_aggressively(filename, search_roots)`: the first regular file
   * among the recursive glob matches of the existing roots, taken root by
   * root and, within a root, in glob order; `None` when there is none.
   */
  method FindFileAggressively(fs: FileSystem, filename: Path, searchRoots: seq<Path>) returns (r: Option<Path>)
    ensures r == FirstFile(fs, AllMatches(fs, filename, searchRoots))
  {
    var i := 0;
    while i < |searchRoots|
      invariant 0 <= i <= |searchRoots|
      invariant FirstFile(fs, AllMatches(fs, filename, searchRoots)) == FirstFile(fs, AllMatches(fs, filename, searchRoots[i..]))
    {
      var root := searchRoots[i];
      ghost var rest := AllMatches(fs, filename, searchRoots[i + 1..]);
      assert searchRoots[i..][1..] == searchRoots[i + 1..];
      assert AllMatches(fs, filename, searchRoots[i..]) == RootMatches(fs, root, filename) + rest;
      FirstFileAppend(fs, RootMatches(fs, root, filename), rest);
      if Exists(fs, root) {
        var found := FirstMatch(fs, Glob(fs, GlobPattern(root, filename)));
        if found.Some? {
          return found;
        }
      }
      i := i + 1;
    }
    return None;
  }

  /** The inner loop of `find_file_aggressively`: the first glob match that is a regular file. */
  method FirstMatch(fs: FileSystem, paths: seq<Path>) returns (r: Option<Path>)
    ensures r == FirstFile(fs, paths)
  {
    var j := 0;
    while j < |paths|
      invariant 0 <= j <= |paths|
      invariant FirstFile(fs, paths) == FirstFile(fs, paths[j..])
    {
      if IsFile(fs, paths[j]) {
        return Some(paths[j]);
      }
      assert paths[j..][1..] == paths[j + 1..];
      j := j + 1;
    }
    return None;
  }

  /** The project folder and its three nearest ancestors (lines 65-70). */
  function SearchRoots(projectFolder: Path): seq<Path> {
    [projectFolder, Dirname(projectFolder), Dirname(Dirname(projectFolder)), Dirname(Dirname(Dirname(projectFolder)))]
  }

  /** The characters `lstrip('./')` and `lstrip('../')` remove: the same two. */
  lemma DotSlashSets()
    ensures CharSet("./") == {'.', '/'} && CharSet("../") == {'.', '/'}
  {
    assert "../"[0] == '.' && "../"[2] == '/';
    assert "./"[0] == '.' && "./"[1] == '/';
  }

  /**
   * `datasource.lstrip('./').lstrip('../')`: the reference with its leading
   * dots and slashes removed; what is left does not start with either.
   */
  function CleanPath(datasource: string): (r: string)
    ensures EndsWith(datasource, r)
    ensures r == [] || (r[0] != '.' && r[0] != '/')
  {
    DotSlashSets();
    LStrip(LStrip(datasource, CharSet("./")), CharSet("../"))
  }

  /** The second `lstrip` strips the same characters as the first, so it removes nothing. */
  lemma CleanPathStripsOnce(datasource: string)
    ensures CleanPath(datasource) == LStrip(datasource, CharSet("./"))
  {
    DotSlashSets();
    LStripStop(LStrip(datasource, CharSet("./")), CharSet("../"));
  }

  /** Only dots and slashes are removed. */
  lemma CleanPathRemoves(datasource: string)
    ensures forall i :: 0 <= i < |datasource| - |CleanPath(datasource)| ==> datasource[i] == '.' || datasource[i] == '/'
  {
    CleanPathStripsOnce(datasource);
    DotSlashSets();
    LStripRemoves(datasource, {'.', '/'});
  }

  /** `os.path.join(root, clean_path)` for each root, in order. */
  function CleanCandidates(roots: seq<Path>, cleanPath: Path): (r: seq<Path>)
    ensures |r| == |roots|
  {
    if roots == [] then [] else [Join(roots[0], cleanPath)] + CleanCandidates(roots[1..], cleanPath)
  }

  /** Candidate `i` is the stripped path joined to root `i`. */
  lemma {:induction false} CleanCandidatesAt(roots: seq<Path>, cleanPath: Path, i: nat)
    requires i < |roots|
    ensures CleanCandidates(roots, cleanPath)[i] == Join(roots[i], cleanPath)
  {
    if i > 0 {
      CleanCandidatesAt(roots[1..], cleanPath, i - 1);
    }
  }

  /** The last two strategies: the basename search over the roots, then the stripped path under each root. */
  function SearchStage(fs: FileSystem, ds: Path, roots: seq<Path>): (r: Option<Path>)
    ensures r.Some? ==> IsFile(fs, r.value)
  {
    var found := FirstFile(fs, AllMatches(fs, Basename(ds), roots));
    if Truthy(found) then found
    else FirstFile(fs, CleanCandidates(roots, CleanPath(ds)))
  }

  /**
   * The strategies of `resolve_path_aggressively` for the cut reference `ds`,
   * given the normalised project-relative path `resolved` and the search
   * roots: the absolute path, `resolved`, the basename search, then the
   * stripped path under each root.
   */
  function ResolveFrom(fs: FileSystem, ds: Path, resolved: Path, roots: seq<Path>): (r: Option<Path>)
    ensures r.Some? ==> IsFile(fs, r.value)
  {
    if IsAbs(ds) && IsFile(fs, ds) then Some(ds)
    else if IsFile(fs, resolved) then Some(resolved)
    else SearchStage(fs, ds, roots)
  }

  /** `resolve_path_aggressively(datasource, project_folder)`. */
  function ResolveSpec(fs: FileSystem, datasource: string, projectFolder: Path): (r: Option<Path>)
    ensures r.Some? ==> IsFile(fs, r.value)
  {
    var ds := PathPart(datasource);
    ResolveFrom(fs, ds, Normpath(Join(projectFolder, ds)), SearchRoots(projectFolder))
  }

  /** The paths the strategies try, in the order they try them. */
  function CandidatesFrom(fs: FileSystem, ds: Path, resolved: Path, roots: seq<Path>): seq<Path> {
    (if IsAbs(ds) then [ds] else [])
      + ([resolved]
      + (AllMatches(fs, Basename(ds), roots)
      + CleanCandidates(roots, CleanPath(ds))))
  }

  /** Every path the locator tries for a reference, in order. */
  function Candidates(fs: FileSystem, datasource: string, projectFolder: Path): seq<Path> {
    var ds := PathPart(datasource);
    CandidatesFrom(fs, ds, Normpath(Join(projectFolder, ds)), SearchRoots(projectFolder))
  }

  /** A cascade of one optional path, one path and two lists returns the first file of their concatenation. */
  lemma CascadeIsFirst(fs: FileSystem, a: seq<Path>, resolved: Path, g: seq<Path>, c: seq<Path>)
    requires |a| <= 1 && !IsFile(fs, "")
    ensures FirstFile(fs, a + ([resolved] + (g + c)))
      == if a != [] && IsFile(fs, a[0]) then Some(a[0])
         else if IsFile(fs, resolved) then Some(resolved)
         else if Truthy(FirstFile(fs, g)) then FirstFile(fs, g)
         else FirstFile(fs, c)
  {
    FirstFileAppend(fs, g, c);
    FirstFileAppend(fs, [resolved], g + c);
    FirstFileAppend(fs, a, [resolved] + (g + c));
  }

  /** The strategies, taken in order, return the first candidate that is a file. */
  lemma ResolveFromIsFirst(fs: FileSystem, ds: Path, resolved: Path, roots: seq<Path>)
    requires !IsFile(fs, "")
    ensures ResolveFrom(fs, ds, resolved, roots) == FirstFile(fs, CandidatesFrom(fs, ds, resolved, roots))
  {
    CascadeIsFirst(fs, if IsAbs(ds) then [ds] else [], resolved,
      AllMatches(fs, Basename(ds), roots), CleanCandidates(roots, CleanPath(ds)));
  }

  /**
   * Unless the empty path is a file (the one case in which Python's
   * truthiness test on the search result differs from "found"), the locator
   * returns the first candidate that is a file, and `None` when none is.
   */
  lemma ResolveIsFirstCandidate(fs: FileSystem, datasource: string, projectFolder: Path)
    requires !IsFile(fs, "")
    ensures ResolveSpec(fs, datasource, projectFolder) == FirstFile(fs, Candidates(fs, datasource, projectFolder))
  {
    var ds := PathPart(datasource);
    ResolveFromIsFirst(fs, ds, Normpath(Join(projectFolder, ds)), SearchRoots(projectFolder));
  }

  /** Only the text before the first `|` of the reference matters. */
  lemma ResolveUsesPathPart(fs: FileSystem, datasource: string, projectFolder: Path)
    ensures ResolveSpec(fs, datasource, projectFolder) == ResolveSpec(fs, PathPart(datasource), projectFolder)
  {
    NoBar(PathPart(datasource));
  }

  /**
   * `resolve_path_aggressively(datasource, project_folder)`: tries the
   * strategies in order and returns at the first path that is a regular file.
   */
  method ResolvePathAggressively(fs: FileSystem, datasource: string, projectFolder: Path) returns (r: Option<Path>)
    ensures r == ResolveSpec(fs, datasource, projectFolder)
    ensures r.Some? ==> IsFile(fs, r.value)
  {
    var ds := datasource;
    if '|' in ds {
      ds := PathPart(ds);
    } else {
      NoBar(ds);
    }
    assert ds == PathPart(datasource);
    ghost var spec := ResolveFrom(fs, ds, Normpath(Join(projectFolder, ds)), SearchRoots(projectFolder));
    assert ResolveSpec(fs, datasource, projectFolder) == spec;
    if IsAbs(ds) && IsFile(fs, ds) {
      return Some(ds);
    }
    var resolved := Normpath(Join(projectFolder, ds));
    if IsFile(fs, resolved) {
      return Some(resolved);
    }
    var searchRoots := SearchRoots(projectFolder);
    assert spec == SearchStage(fs, ds, searchRoots);
    var filename := Basename(ds);
    var found := FindFileAggressively(fs, filename, searchRoots);
    if Truthy(found) {
      return found;
    }
    r := TryUnderRoots(fs, searchRoots, CleanPath(ds));
  }

  /** The final loop of `resolve_path_aggressively`: the first root under which `cleanPath` is a file. */
  method TryUnderRoots(fs: FileSystem, searchRoots: seq<Path>, cleanPath: Path) returns (r: Option<Path>)
    ensures r == FirstFile(fs, CleanCandidates(searchRoots, cleanPath))
  {
    var i := 0;
    while i < |searchRoots|
      invariant 0 <= i <= |searchRoots|
      invariant FirstFile(fs, CleanCandidates(searchRoots, cleanPath)) == FirstFile(fs, CleanCandidates(searchRoots[i..], cleanPath))
    {
      var candidate := Join(searchRoots[i], cleanPath);
      if IsFile(fs, candidate) {
        return Some(candidate);
      }
      assert searchRoots[i..][1..] == searchRoots[i + 1..];
      i := i + 1;
    }
    return None;
  }
}
