/**
 * `copy_shapefile_sidecars`: the files of a shapefile that exist next to
 * the source, copied next to the destination under the destination's stem.
 */
module Sidecars {
  import opened Strings
  import opened PosixPath
  import opened Locator

  /** The extensions tried, in the order they are tried (line 129). */
  const SidecarExtensions: seq<string> :=
    [".shp", ".dbf", ".shx", ".prj", ".cpg", ".qix", ".sbn", ".sbx", ".shp.xml", ".fix", ".qpj"]

  /** The extensions of `exts` for which `base + ext` is a regular file, in order. */
  function PresentExtensions(fs: FileSystem, base: Path, exts: seq<string>): (r: seq<string>)
    ensures |r| <= |exts|
  {
    if exts == [] then []
    else
      var last := exts[|exts| - 1];
      PresentExtensions(fs, base, exts[..|exts| - 1]) + (if IsFile(fs, base + last) then [last] else [])
  }

  /** The extensions kept are those of the list whose file exists, and no others. */
  lemma {:induction false} PresentExtensionsMembers(fs: FileSystem, base: Path, exts: seq<string>)
    ensures forall e :: e in PresentExtensions(fs, base, exts) <==> e in exts && IsFile(fs, base + e)
  {
    if exts != [] {
      var init := exts[..|exts| - 1];
      var last := exts[|exts| - 1];
      assert exts == init + [last];
      PresentExtensionsMembers(fs, base, init);
    }
  }

  /** Growing the list by one entry adds that entry when its file exists. */
  lemma PresentSnoc(fs: FileSystem, base: Path, exts: seq<string>, i: nat)
    requires i < |exts|
    ensures PresentExtensions(fs, base, exts[..i + 1])
      == PresentExtensions(fs, base, exts[..i]) + (if IsFile(fs, base + exts[i]) then [exts[i]] else [])
  {
    assert exts[..i + 1][..i] == exts[..i];
  }

  /** `a` is `b` with some entries left out, the rest kept in order. */
  predicate SubsequenceOf(a: seq<string>, b: seq<string>)
    decreases |b|
  {
    if a == [] then true
    else if b == [] then false
    else if a[|a| - 1] == b[|b| - 1] then SubsequenceOf(a[..|a| - 1], b[..|b| - 1])
    else SubsequenceOf(a, b[..|b| - 1])
  }

  /** Appending the same entry to both sides keeps a subsequence one. */
  lemma SubsequenceSnoc(a: seq<string>, b: seq<string>, x: string)
    requires SubsequenceOf(a, b)
    ensures SubsequenceOf(a + [x], b + [x])
  {
    assert (a + [x])[..|a|] == a;
    assert (b + [x])[..|b|] == b;
  }

  /** A subsequence of `b` stays one when `b` grows at the end. */
  lemma {:induction false} SubsequenceGrow(a: seq<string>, b: seq<string>, x: string)
    requires SubsequenceOf(a, b)
    ensures SubsequenceOf(a, b + [x])
    decreases |b|, 1
  {
    assert (b + [x])[..|b|] == b;
    if a != [] && a[|a| - 1] == x {
      SubsequenceDrop(a, b);
    }
  }

  /** Dropping the last entry of a non-empty subsequence keeps a subsequence. */
  lemma {:induction false} SubsequenceDrop(a: seq<string>, b: seq<string>)
    requires a != [] && SubsequenceOf(a, b)
    ensures SubsequenceOf(a[..|a| - 1], b)
    decreases |b|, 0
  {
    var a' := a[..|a| - 1];
    var b' := b[..|b| - 1];
    assert b' + [b[|b| - 1]] == b;
    if a[|a| - 1] != b[|b| - 1] {
      SubsequenceDrop(a, b');
    }
    SubsequenceGrow(a', b', b[|b| - 1]);
  }

  /** The present extensions keep the order of the list they come from. */
  lemma {:induction false} PresentExtensionsInOrder(fs: FileSystem, base: Path, exts: seq<string>)
    ensures SubsequenceOf(PresentExtensions(fs, base, exts), exts)
  {
    if exts != [] {
      var init := exts[..|exts| - 1];
      var last := exts[|exts| - 1];
      assert exts == init + [last];
      PresentExtensionsInOrder(fs, base, init);
      if IsFile(fs, base + last) {
        SubsequenceSnoc(PresentExtensions(fs, base, init), init, last);
      } else {
        var p := PresentExtensions(fs, base, init);
        assert PresentExtensions(fs, base, exts) == p + [];
        assert p + [] == p;
        SubsequenceGrow(p, init, last);
        assert SubsequenceOf(p, exts);
      }
    }
  }

  /** The `(source, destination)` pairs for the extensions `exts`. */
  function CopyPairs(baseSrc: Path, baseOut: Path, exts: seq<string>): (r: seq<(Path, Path)>)
    ensures |r| == |exts|
  {
    if exts == [] then []
    else CopyPairs(baseSrc, baseOut, exts[..|exts| - 1]) + [(baseSrc + exts[|exts| - 1], baseOut + exts[|exts| - 1])]
  }

  /** The base names of the destinations for the extensions `exts`. */
  function DestNames(baseOut: Path, exts: seq<string>): (r: seq<Path>)
    ensures |r| == |exts|
  {
    if exts == [] then []
    else DestNames(baseOut, exts[..|exts| - 1]) + [Basename(baseOut + exts[|exts| - 1])]
  }

  lemma {:induction false} CopyPairsAt(baseSrc: Path, baseOut: Path, exts: seq<string>, i: nat)
    requires i < |exts|
    ensures CopyPairs(baseSrc, baseOut, exts)[i] == (baseSrc + exts[i], baseOut + exts[i])
  {
    if i < |exts| - 1 {
      CopyPairsAt(baseSrc, baseOut, exts[..|exts| - 1], i);
    }
  }

  lemma {:induction false} DestNamesAt(baseOut: Path, exts: seq<string>, i: nat)
    requires i < |exts|
    ensures DestNames(baseOut, exts)[i] == Basename(baseOut + exts[i])
  {
    if i < |exts| - 1 {
      DestNamesAt(baseOut, exts[..|exts| - 1], i);
    }
  }

  /**
   * `copy_shapefile_sidecars(src, output_path)`: for each extension of the
   * list whose file exists beside `src`'s stem, one copy from `stem(src) + ext`
   * to `stem(output_path) + ext`, in list order; the result lists the base
   * names of the copies' destinations. `copies` records the
   * `(source, destination)` pairs handed to `shutil.copy2`.
   */
  method CopyShapefileSidecars(fs: FileSystem, src: Path, outputPath: Path)
    returns (copied: seq<Path>, copies: seq<(Path, Path)>)
    ensures copies == SidecarCopies(fs, src, outputPath)
    ensures copied == SidecarNames(fs, src, outputPath)
  {
    copied, copies := CopyPresent(fs, SplitExt(src).0, SplitExt(outputPath).0, SidecarExtensions);
  }

  /** The `(source, destination)` pairs `copy_shapefile_sidecars(src, output_path)` copies. */
  function SidecarCopies(fs: FileSystem, src: Path, outputPath: Path): seq<(Path, Path)> {
    CopyPairs(SplitExt(src).0, SplitExt(outputPath).0, PresentExtensions(fs, SplitExt(src).0, SidecarExtensions))
  }

  /** The list `copy_shapefile_sidecars(src, output_path)` returns. */
  function SidecarNames(fs: FileSystem, src: Path, outputPath: Path): seq<Path> {
    DestNames(SplitExt(outputPath).0, PresentExtensions(fs, SplitExt(src).0, SidecarExtensions))
  }

  /** One returned name per copy: an empty result means nothing was copied. */
  lemma SidecarNamesPerCopy(fs: FileSystem, src: Path, outputPath: Path)
    ensures |SidecarNames(fs, src, outputPath)| == |SidecarCopies(fs, src, outputPath)|
  {
  }

  /**
   * What the copies are: copy `i` goes from the source's stem to the
   * destination's stem, both followed by the `i`-th present extension, and
   * name `i` is the base name of that destination.
   */
  lemma SidecarCopiesAt(fs: FileSystem, src: Path, outputPath: Path)
    ensures var present := PresentExtensions(fs, SplitExt(src).0, SidecarExtensions);
      var copies := SidecarCopies(fs, src, outputPath);
      var copied := SidecarNames(fs, src, outputPath);
      && |copied| == |present| && |copies| == |present|
      && (forall i :: 0 <= i < |present| ==> copies[i] == (SplitExt(src).0 + present[i], SplitExt(outputPath).0 + present[i]))
      && (forall i :: 0 <= i < |present| ==> copied[i] == Basename(SplitExt(outputPath).0 + present[i]))
  {
    var baseSrc, baseOut := SplitExt(src).0, SplitExt(outputPath).0;
    var present := PresentExtensions(fs, baseSrc, SidecarExtensions);
    forall i | 0 <= i < |present|
      ensures CopyPairs(baseSrc, baseOut, present)[i] == (baseSrc + present[i], baseOut + present[i])
      ensures DestNames(baseOut, present)[i] == Basename(baseOut + present[i])
    {
      CopyPairsAt(baseSrc, baseOut, present, i);
      DestNamesAt(baseOut, present, i);
    }
  }

  /** Copying one more extension appends one pair and one name. */
  lemma CopySnoc(baseSrc: Path, baseOut: Path, exts: seq<string>, ext: string)
    ensures CopyPairs(baseSrc, baseOut, exts + [ext]) == CopyPairs(baseSrc, baseOut, exts) + [(baseSrc + ext, baseOut + ext)]
    ensures DestNames(baseOut, exts + [ext]) == DestNames(baseOut, exts) + [Basename(baseOut + ext)]
  {
    assert (exts + [ext])[..|exts|] == exts;
  }

  /** The loop of `copy_shapefile_sidecars` over any list of extensions. */
  method CopyPresent(fs: FileSystem, baseSrc: Path, baseOut: Path, exts: seq<string>)
    returns (copied: seq<Path>, copies: seq<(Path, Path)>)
    ensures copies == CopyPairs(baseSrc, baseOut, PresentExtensions(fs, baseSrc, exts))
    ensures copied == DestNames(baseOut, PresentExtensions(fs, baseSrc, exts))
  {
    copied, copies := [], [];
    ghost var present: seq<string> := [];
    var i := 0;
    while i < |exts|
      invariant 0 <= i <= |exts|
      invariant present == PresentExtensions(fs, baseSrc, exts[..i])
      invariant copies == CopyPairs(baseSrc, baseOut, present)
      invariant copied == DestNames(baseOut, present)
    {
      var ext := exts[i];
      PresentSnoc(fs, baseSrc, exts, i);
      var srcFile := baseSrc + ext;
      if IsFile(fs, srcFile) {
        var outFile := baseOut + ext;
        copies := copies + [(srcFile, outFile)];
        copied := copied + [Basename(outFile)];
        CopySnoc(baseSrc, baseOut, present, ext);
        present := present + [ext];
      }
      i := i + 1;
    }
    assert exts[..i] == exts;
  }

  /** The last three characters of an extension of the list. */
  function Tail3(e: string): (char, char, char)
    requires |e| >= 3
  {
    (e[|e| - 3], e[|e| - 2], e[|e| - 1])
  }

  /** The position in the list of the extension ending in `t`, or -1. */
  function TailIndex(t: (char, char, char)): int {
    if t == ('s', 'h', 'p') then 0 else if t == ('d', 'b', 'f') then 1 else if t == ('s', 'h', 'x') then 2
    else if t == ('p', 'r', 'j') then 3 else if t == ('c', 'p', 'g') then 4 else if t == ('q', 'i', 'x') then 5
    else if t == ('s', 'b', 'n') then 6 else if t == ('s', 'b', 'x') then 7 else if t == ('x', 'm', 'l') then 8
    else if t == ('f', 'i', 'x') then 9 else if t == ('q', 'p', 'j') then 10 else -1
  }

  /** Every extension of the list has at least three characters, and its last three identify it. */
  lemma ExtensionTailsDistinct()
    ensures forall i :: 0 <= i < |SidecarExtensions| ==>
      |SidecarExtensions[i]| >= 3 && TailIndex(Tail3(SidecarExtensions[i])) == i
  {
  }

  /**
   * A copy made for one extension never has the path the loop tests for
   * another: `a + e` and `b + e'` differ for distinct entries `e`, `e'` of the
   * list, whatever the stems `a` and `b`. So copying in list order sees the
   * same components as checking them all first.
   */
  lemma ComponentsDoNotCollide(a: Path, b: Path, i: nat, j: nat)
    requires i < |SidecarExtensions| && j < |SidecarExtensions| && i != j
    ensures a + SidecarExtensions[i] != b + SidecarExtensions[j]
  {
    ExtensionTailsDistinct();
    var e, e' := SidecarExtensions[i], SidecarExtensions[j];
    var x, y := a + e, b + e';
    assert Tail3(x) == Tail3(e);
    assert Tail3(y) == Tail3(e');
  }

  /** No extension of the list holds a `/`. */
  lemma ExtensionsAreNames()
    ensures forall e :: e in SidecarExtensions ==> '/' !in e
  {
  }

  /**
   * Each returned name is the destination's base name without extension
   * followed by one of the extensions: all copies share the destination's stem.
   */
  lemma CopiedNamesShareStem(fs: FileSystem, src: Path, outputPath: Path, i: nat)
    requires i < |PresentExtensions(fs, SplitExt(src).0, SidecarExtensions)|
    ensures var e := PresentExtensions(fs, SplitExt(src).0, SidecarExtensions)[i];
      e in SidecarExtensions
      && Basename(SplitExt(outputPath).0 + e) == Basename(SplitExt(outputPath).0) + e
  {
    var present := PresentExtensions(fs, SplitExt(src).0, SidecarExtensions);
    assert present[i] in present;
    PresentExtensionsMembers(fs, SplitExt(src).0, SidecarExtensions);
    ExtensionsAreNames();
    BasenameAppend(SplitExt(outputPath).0, present[i]);
  }
}
