/**
 * `get_unique_output_path`: the destination of a layer's file inside the
 * `Links` folder, and its `Links/...` form relative to the package root,
 * with `_<k>` put before the extension until the destination is not one
 * already used.
 */
module Allocator {
  import opened Strings
  import opened PosixPath

  /** The parent names that are never kept (line 92). */
  const SystemFolders: set<string> :=
    {"Documents", "Desktop", "Downloads", "Users", "home", "tmp", "temp", "Program Files", "Windows", "System32"}

  /** Whether the name of the source's parent directory is kept in the destination. */
  predicate MeaningfulParent(parent: string) {
    parent != "" && parent !in {".", "..", ""} && parent !in SystemFolders
  }

  /** `os.path.basename(os.path.dirname(resolved_path))`. */
  function ParentName(resolvedPath: Path): string {
    Basename(Dirname(resolvedPath))
  }

  /** The destination and relative path before any collision handling (lines 88-101). */
  function BaseCandidates(resolvedPath: Path, linksFolder: Path): (Path, Path) {
    var filename := Basename(resolvedPath);
    var parent := ParentName(resolvedPath);
    if MeaningfulParent(parent) then
      (Join(Join(linksFolder, parent), filename), "Links/" + parent + "/" + filename)
    else
      (Join(linksFolder, filename), "Links/" + filename)
  }

  /** `p` for `k == 0`, else `f"{name}_{k}{ext}"` where `name, ext = os.path.splitext(p)`. */
  function Suffixed(p: Path, k: nat): Path {
    if k == 0 then p else SplitExt(p).0 + "_" + NatToString(k) + SplitExt(p).1
  }

  /** Different counters give different paths. */
  lemma SuffixedInjective(p: Path, a: nat, b: nat)
    requires Suffixed(p, a) == Suffixed(p, b)
    ensures a == b
  {
    var (name, ext) := SplitExt(p);
    if a != 0 && b != 0 {
      var da, db := NatToString(a), NatToString(b);
      var sa, sb := name + "_" + da + ext, name + "_" + db + ext;
      assert |da| == |db|;
      assert da == sa[|name| + 1..|name| + 1 + |da|];
      assert db == sb[|name| + 1..|name| + 1 + |db|];
      NatToStringInjective(a, b);
    } else if a != 0 || b != 0 {
      assert false;
    }
  }

  /** The paths the allocator has tried with counters `0..k`. */
  ghost function Tried(p: Path, k: int): set<Path> {
    set j: nat | j <= k :: Suffixed(p, j)
  }

  /** Trying counter `k` after counters `0..k-1` adds one new path. */
  lemma TriedStep(p: Path, k: nat)
    ensures Tried(p, k) == Tried(p, k - 1) + {Suffixed(p, k)}
    ensures Suffixed(p, k) !in Tried(p, k - 1)
  {
    if Suffixed(p, k) in Tried(p, k - 1) {
      var j: nat :| j <= k - 1 && Suffixed(p, j) == Suffixed(p, k);
      SuffixedInjective(p, j, k);
    }
  }

  /**
   * The least counter `r >= k` for which `Suffixed(p, r)` is not used; it
   * exists because `used` is finite and the suffixed paths are all different.
   */
  function FreeIndex(p: Path, used: set<Path>, k: nat): (r: nat)
    ensures k <= r
    ensures Suffixed(p, r) !in used
    ensures forall j :: k <= j < r ==> Suffixed(p, j) in used
    decreases used - Tried(p, k - 1)
  {
    if Suffixed(p, k) in used then
      TriedStep(p, k);
      FreeIndex(p, used, k + 1)
    else k
  }

  /** The result of `get_unique_output_path(resolved_path, links_folder, copied_paths)`. */
  function UniqueOutputPath(resolvedPath: Path, linksFolder: Path, copiedPaths: set<Path>): (r: (Path, Path))
    ensures r.0 !in copiedPaths
  {
    var (outputPath, relativePath) := BaseCandidates(resolvedPath, linksFolder);
    var k := FreeIndex(outputPath, copiedPaths, 0);
    (Suffixed(outputPath, k), Suffixed(relativePath, k))
  }

  /**
   * The duplicate-handling loop of `get_unique_output_path` (lines 103-116):
   * tries the original destination, then counters 1, 2, ... put before the
   * extension of both the destination and the relative path, until the
   * destination is not in `copiedPaths`.
   */
  method AvoidCollisions(originalOutputPath: Path, originalRelativePath: Path, copiedPaths: set<Path>)
    returns (outputPath: Path, relativePath: Path)
    ensures var k := FreeIndex(originalOutputPath, copiedPaths, 0);
      outputPath == Suffixed(originalOutputPath, k) && relativePath == Suffixed(originalRelativePath, k)
    ensures outputPath !in copiedPaths
  {
    outputPath, relativePath := originalOutputPath, originalRelativePath;
    var counter: nat := 1;
    while outputPath in copiedPaths
      invariant counter >= 1
      invariant outputPath == Suffixed(originalOutputPath, counter - 1)
      invariant relativePath == Suffixed(originalRelativePath, counter - 1)
      invariant FreeIndex(originalOutputPath, copiedPaths, 0) == FreeIndex(originalOutputPath, copiedPaths, counter - 1)
      decreases copiedPaths - Tried(originalOutputPath, counter - 2)
    {
      TriedStep(originalOutputPath, counter - 1);
      var (name, ext) := SplitExt(originalOutputPath);
      outputPath := name + "_" + NatToString(counter) + ext;
      var (nameRel, extRel) := SplitExt(originalRelativePath);
      relativePath := nameRel + "_" + NatToString(counter) + extRel;
      counter := counter + 1;
    }
  }

  /**
   * `get_unique_output_path(resolved_path, links_folder, copied_paths)`:
   * the destination built from the source's name (and parent name when it is
   * kept), made unique against `copiedPaths`.
   */
  method GetUniqueOutputPath(resolvedPath: Path, linksFolder: Path, copiedPaths: set<Path>)
    returns (outputPath: Path, relativePath: Path)
    ensures (outputPath, relativePath) == UniqueOutputPath(resolvedPath, linksFolder, copiedPaths)
    ensures outputPath !in copiedPaths
  {
    var base := BaseCandidates(resolvedPath, linksFolder);
    outputPath, relativePath := AvoidCollisions(base.0, base.1, copiedPaths);
  }

  /** The least counter: every smaller one gives a destination already used. */
  lemma UniqueOutputPathLeast(resolvedPath: Path, linksFolder: Path, copiedPaths: set<Path>)
    ensures var (outputPath, _) := BaseCandidates(resolvedPath, linksFolder);
      var k := FreeIndex(outputPath, copiedPaths, 0);
      && UniqueOutputPath(resolvedPath, linksFolder, copiedPaths).0 == Suffixed(outputPath, k)
      && (outputPath !in copiedPaths ==> UniqueOutputPath(resolvedPath, linksFolder, copiedPaths).0 == outputPath)
      && forall j :: 0 <= j < k ==> Suffixed(outputPath, j) in copiedPaths
  {
  }

  /** The directory part the destination keeps below `Links`: the parent name and a slash, or nothing. */
  function KeptDir(resolvedPath: Path): string {
    if MeaningfulParent(ParentName(resolvedPath)) then ParentName(resolvedPath) + "/" else ""
  }

  /** A name without `/` is a relative path. */
  lemma NameIsRelative(t: Path)
    requires '/' !in t
    ensures !IsAbs(t)
  {
    if t != [] {
      assert t[0] != '/';
    }
  }

  /** `os.path.join(links_folder, parent, filename)` for names without `/` and a non-empty parent. */
  lemma JoinTwoNames(linksFolder: Path, parent: string, filename: Path)
    requires '/' !in parent && '/' !in filename && parent != ""
    ensures Join(Join(linksFolder, parent), filename) == DirPrefix(linksFolder) + (parent + "/") + filename
  {
    var q := DirPrefix(linksFolder);
    NameIsRelative(parent);
    NameIsRelative(filename);
    JoinRelative(linksFolder, parent);
    var dir := q + parent;
    assert dir[|dir| - 1] == parent[|parent| - 1];
    assert Join(dir, filename) == dir + "/" + filename;
    ConcatAssoc(q, parent, "/");
  }

  /**
   * Before collision handling, the destination is the links folder, the kept
   * directory and the source's file name; the relative path is `Links/`, the
   * same directory and the same file name.
   */
  lemma BaseCandidatesShape(resolvedPath: Path, linksFolder: Path)
    ensures BaseCandidates(resolvedPath, linksFolder)
      == (DirPrefix(linksFolder) + KeptDir(resolvedPath) + Basename(resolvedPath),
          "Links/" + KeptDir(resolvedPath) + Basename(resolvedPath))
  {
    var filename := Basename(resolvedPath);
    var parent := ParentName(resolvedPath);
    if MeaningfulParent(parent) {
      JoinTwoNames(linksFolder, parent, filename);
      ConcatAssoc("Links/", parent, "/");
    } else {
      NameIsRelative(filename);
      JoinRelative(linksFolder, filename);
      assert KeptDir(resolvedPath) == "";
      assert DirPrefix(linksFolder) + "" == DirPrefix(linksFolder);
      assert "Links/" + "" == "Links/";
    }
  }

  /** Below a directory prefix, the counter goes into the part below it. */
  lemma SuffixedUnder(q: Path, t: Path, k: nat)
    requires IsDirPrefix(q)
    ensures Suffixed(q + t, k) == q + Suffixed(t, k)
  {
    if k > 0 {
      SplitExtUnder(q, t);
      var (name, ext) := SplitExt(t);
      var d := NatToString(k);
      ConcatAssoc(q, name, "_");
      ConcatAssoc(q, name + "_", d);
      ConcatAssoc(q, name + "_" + d, ext);
    }
  }

  /** A file name with a counter is still a file name: it has no `/`. */
  lemma SuffixedName(t: Path, k: nat)
    requires '/' !in t
    ensures '/' !in Suffixed(t, k)
  {
    if k > 0 {
      SplitExtOfName(t);
      var d := NatToString(k);
      assert forall i :: 0 <= i < |d| ==> d[i] != '/';
    }
  }

  /**
   * The shape of what `get_unique_output_path` returns: with
   * `name = Suffixed(basename, k)` for the chosen counter `k`, the
   * destination is the links folder, the kept directory and `name`; the
   * relative path is `Links/`, the same directory and `name`; both have
   * base name `name`; the parent name appears exactly when it is kept.
   */
  lemma UniqueOutputShape(resolvedPath: Path, linksFolder: Path, copiedPaths: set<Path>, outputPath: Path, relativePath: Path)
    requires UniqueOutputPath(resolvedPath, linksFolder, copiedPaths) == (outputPath, relativePath)
    ensures var name := Suffixed(Basename(resolvedPath), FreeIndex(BaseCandidates(resolvedPath, linksFolder).0, copiedPaths, 0));
      && outputPath == DirPrefix(linksFolder) + KeptDir(resolvedPath) + name
      && relativePath == "Links/" + KeptDir(resolvedPath) + name
      && '/' !in name
      && Basename(outputPath) == name && Basename(relativePath) == name
  {
    var k := FreeIndex(BaseCandidates(resolvedPath, linksFolder).0, copiedPaths, 0);
    var filename := Basename(resolvedPath);
    var dir := KeptDir(resolvedPath);
    var q := DirPrefix(linksFolder) + dir;
    var qr := "Links/" + dir;
    BaseCandidatesShape(resolvedPath, linksFolder);
    assert IsDirPrefix(q) && IsDirPrefix(qr);
    SuffixedUnder(q, filename, k);
    SuffixedUnder(qr, filename, k);
    var name := Suffixed(filename, k);
    SuffixedName(filename, k);
    BasenameUnder(q, name);
    BasenameUnder(qr, name);
    BasenameOfName(name);
  }

  /** The relative path always starts with `Links/`. */
  lemma RelativePathInLinks(resolvedPath: Path, linksFolder: Path, copiedPaths: set<Path>)
    ensures StartsWith(UniqueOutputPath(resolvedPath, linksFolder, copiedPaths).1, "Links/")
  {
    var r := UniqueOutputPath(resolvedPath, linksFolder, copiedPaths);
    UniqueOutputShape(resolvedPath, linksFolder, copiedPaths, r.0, r.1);
    var name := Suffixed(Basename(resolvedPath), FreeIndex(BaseCandidates(resolvedPath, linksFolder).0, copiedPaths, 0));
    ConcatAssoc("Links/", KeptDir(resolvedPath), name);
    assert r.1 == "Links/" + (KeptDir(resolvedPath) + name);
  }
}
