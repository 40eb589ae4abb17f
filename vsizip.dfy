/**
 * GDAL's `/vsizip/` virtual paths as the packager reads and writes them:
 * `/vsizip/<archive>.zip[/<inner path>][|<qualifier>]`.
 */
module Vsizip {
  import opened Wrappers
  import opened Strings
  import opened PosixPath

  const Prefix: string := "/vsizip/"
  const ZipMarker: string := ".zip"

  /**
   * `parse_vsizip_path`: `Some((zip_path, inner_path))`, or `None` for
   * Python's `(None, None)`. The text after `/vsizip/` is cut at the first `|`,
   * then split after the first `.zip`; the inner path loses its leading `/`s.
   */
  function ParseVsizipPath(s: string): (r: Option<(Path, Path)>)
  {
    if !StartsWith(s, Prefix) then None else SplitAtZip(PathPart(s[|Prefix|..]))
  }

  /** `path.split('.zip', 1)` when `'.zip' in path`: archive part and inner part. */
  function SplitAtZip(path: string): Option<(Path, Path)> {
    match Find(path, ZipMarker)
    case None => None
    case Some(i) => Some((path[..i + |ZipMarker|], LStrip(path[i + |ZipMarker|..], {'/'})))
  }

  /** The prefix `/vsizip/` holds no `|`, so cutting at `|` commutes with removing it. */
  lemma PathPartAfterPrefix(s: string)
    requires StartsWith(s, Prefix)
    ensures StartsWith(PathPart(s), Prefix)
    ensures PathPart(s)[|Prefix|..] == PathPart(s[|Prefix|..])
  {
    var t := s[|Prefix|..];
    assert s == Prefix + t;
    var pt := PathPart(t);
    if '|' in t {
      SplitAtBar(Prefix + pt, Qualifier(t).value);
      assert s == (Prefix + pt) + "|" + Qualifier(t).value;
    } else {
      assert '|' !in s;
    }
  }

  /** `.zip` cannot overlap the prefix `/vsizip/`: it occurs in `Prefix + t` only inside `t`. */
  lemma MarkerAfterPrefix(t: string)
    ensures Contains(Prefix + t, ZipMarker) <==> Contains(t, ZipMarker)
  {
    var s := Prefix + t;
    if Contains(s, ZipMarker) {
      var i: nat :| OccursAt(s, ZipMarker, i);
      assert s[i] == '.';
      assert forall k :: 0 <= k < |Prefix| ==> s[k] == Prefix[k] && Prefix[k] != '.';
      assert i >= |Prefix|;
      assert t[i - |Prefix|..i - |Prefix| + 4] == s[i..i + 4];
      assert OccursAt(t, ZipMarker, i - |Prefix|);
    }
    if Contains(t, ZipMarker) {
      var i: nat :| OccursAt(t, ZipMarker, i);
      assert s[i + |Prefix|..i + |Prefix| + 4] == t[i..i + 4];
      assert OccursAt(s, ZipMarker, i + |Prefix|);
    }
  }

  /**
   * `parse_vsizip_path` gives a result exactly when the reference has the
   * prefix and its text before the first `|` contains `.zip`.
   */
  lemma ParseVsizipPathDefined(s: string)
    ensures ParseVsizipPath(s).Some? <==> StartsWith(s, Prefix) && Contains(PathPart(s), ZipMarker)
  {
    if StartsWith(s, Prefix) {
      PathPartAfterPrefix(s);
      assert PathPart(s) == Prefix + PathPart(s[|Prefix|..]);
      MarkerAfterPrefix(PathPart(s[|Prefix|..]));
      FindSpec(PathPart(s[|Prefix|..]), ZipMarker);
    }
  }

  /** What `SplitAtZip` returns when it returns something: the text up to the first `.zip`, and the rest without its leading `/`s. */
  lemma SplitAtZipUnfold(path: string, zip: Path, inner: Path)
    requires SplitAtZip(path) == Some((zip, inner))
    ensures Find(path, ZipMarker).Some?
    ensures zip == path[..Find(path, ZipMarker).value + |ZipMarker|]
    ensures inner == LStrip(path[Find(path, ZipMarker).value + |ZipMarker|..], {'/'})
  {
  }

  /** The archive part of a path split after its first `.zip`: no `|`, ends in `.zip`, no earlier `.zip`. */
  lemma ZipPartOfSplit(path: string, zip: Path, inner: Path)
    requires '|' !in path
    requires SplitAtZip(path) == Some((zip, inner))
    ensures '|' !in zip
    ensures EndsWith(zip, ZipMarker)
    ensures Find(zip, ZipMarker) == Some(|zip| - |ZipMarker|)
  {
    SplitAtZipUnfold(path, zip, inner);
    var i := Find(path, ZipMarker).value;
    FindInPrefix(path, ZipMarker, i);
    FindSpec(path, ZipMarker);
    assert zip[i..] == path[i..i + 4];
    NotInSlice(path, '|', 0, i + 4);
  }

  /** The inner part of a path split after its first `.zip`: no `|` and no leading `/`. */
  lemma InnerPartOfSplit(path: string, zip: Path, inner: Path)
    requires '|' !in path
    requires SplitAtZip(path) == Some((zip, inner))
    ensures '|' !in inner
    ensures inner == [] || inner[0] != '/'
  {
    SplitAtZipUnfold(path, zip, inner);
    var i := Find(path, ZipMarker).value;
    var rest := path[i + 4..];
    assert inner == rest[|rest| - |inner|..];
    forall k | 0 <= k < |inner| ensures inner[k] != '|' {
      assert inner[k] == rest[|rest| - |inner| + k] == path[i + 4 + |rest| - |inner| + k];
    }
  }

  /**
   * `zip` and `inner` sit in `path` as they do after a split: `zip` is a
   * prefix, `inner` a suffix, and only slashes lie between them.
   */
  predicate Layout(path: string, zip: string, inner: string) {
    && |zip| + |inner| <= |path|
    && StartsWith(path, zip) && EndsWith(path, inner)
    && forall k :: |zip| <= k < |path| - |inner| ==> path[k] == '/'
  }

  /** Putting the same text in front of the path and the archive part keeps the layout. */
  lemma LayoutShift(pre: string, path: string, zip: string, inner: string)
    requires Layout(path, zip, inner)
    ensures Layout(pre + path, pre + zip, inner)
  {
    var p := pre + path;
    assert p[..|pre| + |zip|] == pre + path[..|zip|];
    assert p[|p| - |inner|..] == path[|path| - |inner|..];
    forall k | |pre| + |zip| <= k < |p| - |inner| ensures p[k] == '/' {
      assert p[k] == path[k - |pre|];
    }
  }

  /**
   * The two parts of a path without `|` split after its first `.zip`: the
   * archive part ends in that `.zip` and holds no other, the inner part has
   * no leading `/`, neither has a `|`.
   */
  lemma SplitAtZipParts(path: string, zip: Path, inner: Path)
    requires '|' !in path
    requires SplitAtZip(path) == Some((zip, inner))
    ensures '|' !in zip && '|' !in inner
    ensures EndsWith(zip, ZipMarker)
    ensures Find(zip, ZipMarker) == Some(|zip| - |ZipMarker|)
    ensures inner == [] || inner[0] != '/'
  {
    ZipPartOfSplit(path, zip, inner);
    InnerPartOfSplit(path, zip, inner);
  }

  /** The split parts lie in the path as `Layout` describes. */
  lemma SplitAtZipLayout(path: string, zip: Path, inner: Path)
    requires SplitAtZip(path) == Some((zip, inner))
    ensures Layout(path, zip, inner)
  {
    var i := Find(path, ZipMarker).value;
    var rest := path[i + 4..];
    assert zip == path[..i + 4];
    assert inner == LStrip(rest, {'/'});
    LStripRemoves(rest, {'/'});
  }

  /**
   * The parts `parse_vsizip_path` returns: the archive path runs up to and
   * including the first `.zip` (which is its only `.zip`), the inner path
   * has no leading slash, and neither holds a `|`.
   */
  lemma ParseVsizipPathParts(s: string, zip: Path, inner: Path)
    requires ParseVsizipPath(s) == Some((zip, inner))
    ensures '|' !in zip && '|' !in inner
    ensures EndsWith(zip, ZipMarker)
    ensures Find(zip, ZipMarker) == Some(|zip| - |ZipMarker|)
    ensures inner == [] || inner[0] != '/'
  {
    PathPartAfterPrefix(s);
    SplitAtZipParts(PathPart(s[|Prefix|..]), zip, inner);
  }

  /**
   * Where the parts sit in the reference: its text before the first `|` is
   * `/vsizip/`, the archive path, a run of slashes, and the inner path.
   */
  lemma ParseVsizipPathLayout(s: string, zip: Path, inner: Path)
    requires ParseVsizipPath(s) == Some((zip, inner))
    ensures Layout(PathPart(s), Prefix + zip, inner)
  {
    PathPartAfterPrefix(s);
    var path := PathPart(s[|Prefix|..]);
    SplitAtZipLayout(path, zip, inner);
    LayoutShift(Prefix, path, zip, inner);
    assert PathPart(s) == Prefix + path;
  }

  /** `"|" + tail` when the original reference had a qualifier `tail`, else nothing. */
  function QualifierSuffix(datasource: string): string {
    match Qualifier(datasource)
    case None => ""
    case Some(q) => "|" + q
  }

  /** The rewritten reference of a layer inside a copied archive (lines 214-218). */
  function RewriteVsizip(relativePath: Path, innerPath: Path, datasource: string): string {
    "/vsizip/./" + relativePath + (if innerPath != [] then "/" + innerPath else "") + QualifierSuffix(datasource)
  }

  /** The rewritten reference of a plain or shapefile layer (lines 243-246, 265-268). */
  function RewritePlain(relativePath: Path, datasource: string): string {
    relativePath + QualifierSuffix(datasource)
  }

  /** Appending a qualifier suffix to text without `|` keeps the text as path part and copies the qualifier. */
  lemma QualifierSuffixSplits(t: string, datasource: string)
    requires '|' !in t
    ensures PathPart(t + QualifierSuffix(datasource)) == t
    ensures Qualifier(t + QualifierSuffix(datasource)) == Qualifier(datasource)
  {
    match Qualifier(datasource)
    case None =>
      assert t + QualifierSuffix(datasource) == t;
    case Some(q) =>
      assert t + QualifierSuffix(datasource) == t + "|" + q;
      SplitAtBar(t, q);
  }

  /**
   * Plain round trip: if the new relative path has no `|`, the rewritten
   * reference's path part is that relative path and its qualifier is the
   * original's, character for character.
   */
  lemma RewritePlainRoundTrip(relativePath: Path, datasource: string)
    requires '|' !in relativePath
    ensures PathPart(RewritePlain(relativePath, datasource)) == relativePath
    ensures Qualifier(RewritePlain(relativePath, datasource)) == Qualifier(datasource)
  {
    QualifierSuffixSplits(relativePath, datasource);
  }

  /** Behind `./`, the first `.zip` of a relative path that ends in its first `.zip` is found there again. */
  lemma FirstZipBehindDot(relativePath: Path, tail: string)
    requires |relativePath| >= |ZipMarker| && Find(relativePath, ZipMarker) == Some(|relativePath| - |ZipMarker|)
    ensures Find("./" + relativePath + tail, ZipMarker) == Some(|relativePath| - 2)
  {
    var body := "./" + relativePath + tail;
    var m := |relativePath| - 4;
    FindSpec(relativePath, ZipMarker);
    assert body[m + 2..m + 6] == relativePath[m..m + 4];
    forall j: nat | j < m + 2 ensures !OccursAt(body, ZipMarker, j) {
      if j >= 2 {
        assert body[j..j + 4] == relativePath[j - 2..j + 2];
        assert !OccursAt(relativePath, ZipMarker, j - 2);
      } else {
        assert body[1] == '/';
      }
    }
    FindUnique(body, ZipMarker, m + 2);
  }

  /** The archive and inner parts `SplitAtZip` finds in `"./" + relativePath + innerPart`. */
  lemma SplitRewrittenBody(relativePath: Path, innerPath: Path)
    requires |relativePath| >= |ZipMarker| && Find(relativePath, ZipMarker) == Some(|relativePath| - |ZipMarker|)
    requires innerPath == [] || innerPath[0] != '/'
    ensures var innerPart := if innerPath != [] then "/" + innerPath else "";
      SplitAtZip("./" + relativePath + innerPart) == Some(("./" + relativePath, innerPath))
  {
    var innerPart := if innerPath != [] then "/" + innerPath else "";
    var zip := "./" + relativePath;
    var body := zip + innerPart;
    FirstZipBehindDot(relativePath, innerPart);
    assert body[..|relativePath| + 2] == zip;
    assert body[|relativePath| + 2..] == innerPart;
    if innerPath != [] {
      assert innerPart[1..] == innerPath;
      LStripStop(innerPath, {'/'});
    }
  }

  /** A reference made of `/vsizip/`, text without `|` and a qualifier suffix parses the text alone. */
  lemma ParseAfterPrefix(body: string, datasource: string)
    requires '|' !in body
    ensures ParseVsizipPath(Prefix + body + QualifierSuffix(datasource)) == SplitAtZip(body)
    ensures Qualifier(Prefix + body + QualifierSuffix(datasource)) == Qualifier(datasource)
  {
    var q := QualifierSuffix(datasource);
    var s := Prefix + body + q;
    assert s == Prefix + (body + q);
    assert s[|Prefix|..] == body + q;
    QualifierSuffixSplits(body, datasource);
    QualifierSuffixSplits(Prefix + body, datasource);
  }

  /**
   * Archive round trip: when the relative path has no `|` and its first `.zip`
   * is its final extension, and the inner path is one the parser produces,
   * parsing the rewritten reference gives back archive `"./" + relativePath`,
   * the same inner path, and the original qualifier.
   */
  lemma RewriteVsizipRoundTrip(relativePath: Path, innerPath: Path, datasource: string)
    requires '|' !in relativePath && '|' !in innerPath
    requires |relativePath| >= |ZipMarker| && Find(relativePath, ZipMarker) == Some(|relativePath| - |ZipMarker|)
    requires innerPath == [] || innerPath[0] != '/'
    ensures ParseVsizipPath(RewriteVsizip(relativePath, innerPath, datasource)) == Some(("./" + relativePath, innerPath))
    ensures Qualifier(RewriteVsizip(relativePath, innerPath, datasource)) == Qualifier(datasource)
  {
    var innerPart := if innerPath != [] then "/" + innerPath else "";
    var body := "./" + relativePath + innerPart;
    assert RewriteVsizip(relativePath, innerPath, datasource) == Prefix + body + QualifierSuffix(datasource) by {
      assert "/vsizip/./" == Prefix + "./";
      assert Prefix + "./" + relativePath == Prefix + ("./" + relativePath);
      assert Prefix + ("./" + relativePath) + innerPart == Prefix + body;
    }
    ParseAfterPrefix(body, datasource);
    SplitRewrittenBody(relativePath, innerPath);
  }

  /** Re-parsing a rewritten archive reference gives the inner path the original parse produced. */
  lemma RewriteVsizipReparses(datasource: string, relativePath: Path)
    requires ParseVsizipPath(datasource).Some?
    requires '|' !in relativePath
    requires |relativePath| >= |ZipMarker| && Find(relativePath, ZipMarker) == Some(|relativePath| - |ZipMarker|)
    ensures var inner := ParseVsizipPath(datasource).value.1;
      && ParseVsizipPath(RewriteVsizip(relativePath, inner, datasource)) == Some(("./" + relativePath, inner))
      && Qualifier(RewriteVsizip(relativePath, inner, datasource)) == Qualifier(datasource)
  {
    var (zip, inner) := ParseVsizipPath(datasource).value;
    ParseVsizipPathParts(datasource, zip, inner);
    RewriteVsizipRoundTrip(relativePath, ParseVsizipPath(datasource).value.1, datasource);
  }
}
