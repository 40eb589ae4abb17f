/**
 * The parts of Python's `posixpath` that the packager calls: `join`,
 * `isabs`, `basename`, `dirname`, `splitext` and `normpath`, on `/`-separated
 * paths.
 */
module PosixPath {
  import opened Strings

  type Path = string

  /** `s.rfind(c)`: the last index of `c` in `s`, or -1. */
  function LastIndex(s: string, c: char): (r: int)
    ensures -1 <= r < |s|
    ensures r >= 0 ==> s[r] == c
    ensures forall j :: r < j < |s| ==> s[j] != c
    decreases |s|
  {
    if |s| == 0 then -1
    else if s[|s| - 1] == c then |s| - 1
    else LastIndex(s[..|s| - 1], c)
  }

  /** The postcondition of `LastIndex` determines its result. */
  lemma LastIndexUnique(s: string, c: char, x: int)
    requires -1 <= x < |s|
    requires x >= 0 ==> s[x] == c
    requires forall j :: x < j < |s| ==> s[j] != c
    ensures LastIndex(s, c) == x
  {
  }

  /** A path that is empty or ends in `/`: one `join` appends to without a new separator. */
  predicate IsDirPrefix(q: Path) {
    q == [] || q[|q| - 1] == '/'
  }

  /** The last `c` of `q + t` is found in `t`, shifted by `|q|`, when `q` is a directory prefix and `c` is `/`. */
  lemma LastSlashUnder(q: Path, t: Path)
    requires IsDirPrefix(q)
    ensures LastIndex(q + t, '/') == |q| + LastIndex(t, '/')
  {
    var y := LastIndex(t, '/');
    var s := q + t;
    if y >= 0 {
      assert s[|q| + y] == t[y];
    }
    forall j | |q| + y < j < |s| ensures s[j] != '/' {
      assert s[j] == t[j - |q|];
    }
    LastIndexUnique(s, '/', |q| + y);
  }

  /** Any other character: its last occurrence in `q + t` is in `t` if `t` has one. */
  lemma LastIndexConcat(q: string, t: string, c: char)
    ensures LastIndex(t, c) >= 0 ==> LastIndex(q + t, c) == |q| + LastIndex(t, c)
    ensures LastIndex(t, c) < 0 ==> LastIndex(q + t, c) == LastIndex(q, c)
  {
    var y := LastIndex(t, c);
    var s := q + t;
    if y >= 0 {
      assert s[|q| + y] == t[y];
      forall j | |q| + y < j < |s| ensures s[j] != c {
        assert s[j] == t[j - |q|];
      }
      LastIndexUnique(s, c, |q| + y);
    } else {
      var z := LastIndex(q, c);
      if z >= 0 {
        assert s[z] == q[z];
      }
      forall j | z < j < |s| ensures s[j] != c {
        if j < |q| {
          assert s[j] == q[j];
        } else {
          assert s[j] == t[j - |q|];
        }
      }
      LastIndexUnique(s, c, z);
    }
  }

  /** `os.path.isabs(p)`. */
  predicate IsAbs(p: Path) {
    StartsWith(p, "/")
  }

  /** `os.path.join(a, b)`: an absolute `b` replaces `a`; otherwise one separator is inserted if needed. */
  function Join(a: Path, b: Path): (r: Path)
    ensures EndsWith(r, b)
    ensures !IsAbs(b) ==> StartsWith(r, a)
  {
    if IsAbs(b) then b
    else if a == [] || EndsWith(a, "/") then a + b
    else a + "/" + b
  }

  /** The text `join(a, .)` puts in front of a relative second argument. */
  function DirPrefix(a: Path): (q: Path)
    ensures IsDirPrefix(q)
  {
    if a == [] || EndsWith(a, "/") then a else a + "/"
  }

  lemma JoinRelative(a: Path, b: Path)
    requires !IsAbs(b)
    ensures Join(a, b) == DirPrefix(a) + b
  {
  }

  /** `os.path.basename(p)`: everything after the last `/`. */
  function Basename(p: Path): (r: Path)
    ensures '/' !in r
    ensures EndsWith(p, r)
  {
    p[LastIndex(p, '/') + 1..]
  }

  /** Below a directory prefix, the base name is that of the part below it. */
  lemma BasenameUnder(q: Path, t: Path)
    requires IsDirPrefix(q)
    ensures Basename(q + t) == Basename(t)
  {
    LastSlashUnder(q, t);
    assert (q + t)[|q| + LastIndex(t, '/') + 1..] == t[LastIndex(t, '/') + 1..];
  }

  /** A name without `/` is its own base name. */
  lemma BasenameOfName(t: Path)
    requires '/' !in t
    ensures Basename(t) == t
  {
    LastIndexUnique(t, '/', -1);
  }

  /** The base name of `p + e` for an `e` without `/` is that of `p` followed by `e`. */
  lemma BasenameAppend(p: Path, e: string)
    requires '/' !in e
    ensures Basename(p + e) == Basename(p) + e
  {
    LastIndexConcat(p, e, '/');
    LastIndexUnique(e, '/', -1);
    var k := LastIndex(p, '/') + 1;
    assert (p + e)[k..] == p[k..] + e;
  }

  predicate AllSlashes(s: string) {
    forall i :: 0 <= i < |s| ==> s[i] == '/'
  }

  /** `s.rstrip(c)`. */
  function RStrip(s: string, c: char): (r: string)
    ensures StartsWith(s, r)
    decreases |s|
  {
    if |s| > 0 && s[|s| - 1] == c then RStrip(s[..|s| - 1], c) else s
  }

  /** `os.path.dirname(p)`: the head before the last `/`, trailing slashes removed unless it is all slashes. */
  function Dirname(p: Path): Path {
    var head := p[..LastIndex(p, '/') + 1];
    if head != [] && !AllSlashes(head) then RStrip(head, '/') else head
  }

  /** A directory name as `dirname` leaves it: empty, all slashes, or not ending in `/`. */
  predicate DirShaped(d: Path) {
    d == [] || AllSlashes(d) || d[|d| - 1] != '/'
  }

  /** Stripping trailing slashes from a text that is not all slashes leaves a text ending in something else. */
  lemma {:induction false} RStripNotAllSlashes(s: string)
    requires !AllSlashes(s)
    ensures RStrip(s, '/') != [] && RStrip(s, '/')[|RStrip(s, '/')| - 1] != '/'
    decreases |s|
  {
    if s[|s| - 1] == '/' {
      var t := s[..|s| - 1];
      assert !AllSlashes(t) by {
        var i :| 0 <= i < |s| && s[i] != '/';
        assert i < |t| && t[i] == s[i];
      }
      RStripNotAllSlashes(t);
    }
  }

  /** What `dirname` returns is directory-shaped. */
  lemma DirnameShaped(p: Path)
    ensures DirShaped(Dirname(p))
  {
    var head := p[..LastIndex(p, '/') + 1];
    if head != [] && !AllSlashes(head) {
      RStripNotAllSlashes(head);
    }
  }

  /** Joining a non-empty name gives a directory-shaped path that does not end in `/`. */
  lemma JoinName(a: Path, name: Path)
    requires name != [] && '/' !in name
    ensures Join(a, name) == DirPrefix(a) + name
    ensures Join(a, name) != [] && Join(a, name)[|Join(a, name)| - 1] != '/'
    ensures DirShaped(Join(a, name)) && DirPrefix(Join(a, name)) == Join(a, name) + "/"
  {
    assert name[0] != '/';
    JoinRelative(a, name);
    var p := DirPrefix(a) + name;
    assert p[|p| - 1] == name[|name| - 1];
  }

  /** `dirname` of a directory prefix followed by a name is the directory. */
  lemma DirnameUnder(a: Path, name: Path)
    requires DirShaped(a) && '/' !in name
    ensures Dirname(DirPrefix(a) + name) == a
  {
    var q := DirPrefix(a);
    LastSlashUnder(q, name);
    LastIndexUnique(name, '/', -1);
    assert (q + name)[..|q|] == q;
    if a != [] && a[|a| - 1] != '/' {
      assert !AllSlashes(q) by { assert q[|a| - 1] == a[|a| - 1]; }
      assert q[..|q| - 1] == a;
      assert RStrip(q, '/') == RStrip(a, '/') == a;
    }
  }

  /**
   * Joining a non-empty name to a directory-shaped path is undone by
   * `dirname` and `basename`: they give back the directory and the name.
   */
  lemma DirnameJoin(a: Path, name: Path)
    requires DirShaped(a) && name != [] && '/' !in name
    ensures Dirname(Join(a, name)) == a
    ensures Basename(Join(a, name)) == name
  {
    JoinName(a, name);
    DirnameUnder(a, name);
    BasenameUnder(DirPrefix(a), name);
    BasenameOfName(name);
  }

  predicate AllDots(s: string) {
    forall i :: 0 <= i < |s| ==> s[i] == '.'
  }

  /**
   * Where `splitext` splits a final name (one without `/`): at its last `.`,
   * unless only dots precede that `.`; otherwise at the end.
   */
  function NameExtIndex(name: string): (d: nat)
    ensures d <= |name|
    ensures d < |name| ==> name[d] == '.'
  {
    var dot := LastIndex(name, '.');
    if dot >= 0 && !AllDots(name[..dot]) then dot else |name|
  }

  /**
   * Where `os.path.splitext(p)` splits: the split point of the final name,
   * the part after the last `/`.
   */
  function ExtIndex(p: Path): (i: nat)
    ensures i <= |p|
    ensures i < |p| ==> p[i] == '.'
    ensures forall j :: i <= j < |p| ==> p[j] != '/'
  {
    var start := LastIndex(p, '/') + 1;
    start + NameExtIndex(p[start..])
  }

  /** `os.path.splitext(p)`: `(root, ext)` with `root + ext == p`. */
  function SplitExt(p: Path): (r: (Path, string))
    ensures r.0 + r.1 == p
    ensures r.1 == [] || (r.1[0] == '.' && '/' !in r.1)
  {
    var i := ExtIndex(p);
    assert forall j :: 0 <= j < |p| - i ==> p[i..][j] == p[i + j];
    (p[..i], p[i..])
  }

  /** Below a directory prefix `q`, `splitext` looks only at the part after `q`. */
  lemma ExtIndexUnder(q: Path, t: Path)
    requires IsDirPrefix(q)
    ensures ExtIndex(q + t) == |q| + ExtIndex(t)
  {
    LastSlashUnder(q, t);
    var start := LastIndex(t, '/') + 1;
    assert (q + t)[|q| + start..] == t[start..];
  }

  lemma SplitExtUnder(q: Path, t: Path)
    requires IsDirPrefix(q)
    ensures SplitExt(q + t) == (q + SplitExt(t).0, SplitExt(t).1)
  {
    ExtIndexUnder(q, t);
    var i := ExtIndex(t);
    assert (q + t)[..|q| + i] == q + t[..i];
    assert (q + t)[|q| + i..] == t[i..];
  }

  /** A name without `/` splits into a stem and an extension without `/`. */
  lemma SplitExtOfName(t: Path)
    requires '/' !in t
    ensures '/' !in SplitExt(t).0 && '/' !in SplitExt(t).1
  {
    var r := SplitExt(t);
    assert forall i :: 0 <= i < |r.0| ==> r.0[i] == t[i];
  }

  /** `s.split(c)`. */
  function SplitOn(s: string, c: char): (r: seq<string>)
    ensures |r| >= 1
    decreases |s|
  {
    match IndexOf(s, c)
    case None => [s]
    case Some(i) => [s[..i]] + SplitOn(s[i + 1..], c)
  }

  /** `c.join(parts)`. */
  function JoinWith(parts: seq<string>, c: char): string {
    if |parts| == 0 then []
    else if |parts| == 1 then parts[0]
    else parts[0] + [c] + JoinWith(parts[1..], c)
  }

  /** The component loop of `normpath`: drop `''` and `.`, let `..` cancel the previous component where it can. */
  function NormComponents(comps: seq<string>, rooted: bool, acc: seq<string>): seq<string>
    decreases |comps|
  {
    if comps == [] then acc
    else
      var comp := comps[0];
      var next :=
        if comp == "" || comp == "." then acc
        else if comp != ".." || (!rooted && acc == []) || (acc != [] && acc[|acc| - 1] == "..") then acc + [comp]
        else if acc != [] then acc[..|acc| - 1]
        else acc;
      NormComponents(comps[1..], rooted, next)
  }

  /** `os.path.normpath(p)` for POSIX paths. */
  function Normpath(p: Path): Path {
    if p == [] then "."
    else
      var slashes := if StartsWith(p, "//") && !StartsWith(p, "///") then 2 else if StartsWith(p, "/") then 1 else 0;
      var r := Repeat('/', slashes) + JoinWith(NormComponents(SplitOn(p, '/'), slashes > 0, []), '/');
      if r == [] then "." else r
  }
}
