/**
 * The packaging run: the folders derived from the project path and the loop
 * over the project's `<maplayer>` elements, which resolves each layer's
 * source, copies it into the links folder and rewrites the layer's
 * datasource in place (lines 140-272).
 */
module Packager {
  import opened Wrappers
  import opened Strings
  import opened PosixPath
  import opened Vsizip
  import opened Locator
  import opened Allocator
  import opened Sidecars

  /**
   * The project folder, the package folder `<name>_packaged` beside the
   * project, and its `Links` folder; `None` when no project is open.
   */
  function ProjectFolders(projectPath: Path): (r: Option<(Path, Path, Path)>)
    ensures r.None? <==> projectPath == ""
  {
    if projectPath == "" then None
    else
      var projectFolder := Dirname(projectPath);
      var projectName := SplitExt(Basename(projectPath)).0;
      var outputFolder := Join(projectFolder, projectName + "_packaged");
      Some((projectFolder, outputFolder, Join(outputFolder, "Links")))
  }

  /**
   * The package folder sits beside the project and is named after it:
   * its directory is the project's directory and its name is the project's
   * name without extension followed by `_packaged`; the links folder is
   * the folder `Links` directly inside it.
   */
  lemma ProjectFoldersLayout(projectPath: Path)
    requires projectPath != ""
    ensures var (projectFolder, outputFolder, linksFolder) := ProjectFolders(projectPath).value;
      && projectFolder == Dirname(projectPath)
      && Dirname(outputFolder) == projectFolder
      && Basename(outputFolder) == SplitExt(Basename(projectPath)).0 + "_packaged"
      && Dirname(linksFolder) == outputFolder
      && Basename(linksFolder) == "Links"
      && DirPrefix(linksFolder) == DirPrefix(outputFolder) + "Links/"
  {
    var stem := SplitExt(Basename(projectPath)).0;
    SplitExtOfName(Basename(projectPath));
    DirnameShaped(projectPath);
    PackageBeside(Dirname(projectPath), stem);
  }

  /** `ProjectFoldersLayout` for a project directory and a project name without `/`. */
  lemma PackageBeside(projectFolder: Path, stem: string)
    requires DirShaped(projectFolder) && '/' !in stem
    ensures var outputFolder := Join(projectFolder, stem + "_packaged");
      var linksFolder := Join(outputFolder, "Links");
      && Dirname(outputFolder) == projectFolder
      && Basename(outputFolder) == stem + "_packaged"
      && Dirname(linksFolder) == outputFolder
      && Basename(linksFolder) == "Links"
      && DirPrefix(linksFolder) == DirPrefix(outputFolder) + "Links/"
  {
    var name := stem + "_packaged";
    assert '/' !in "_packaged";
    DirnameJoin(projectFolder, name);
    JoinName(projectFolder, name);
    LinksInside(Join(projectFolder, name));
  }

  /** The links folder inside a folder that does not end in `/`. */
  lemma LinksInside(outputFolder: Path)
    requires DirShaped(outputFolder) && DirPrefix(outputFolder) == outputFolder + "/"
    ensures Dirname(Join(outputFolder, "Links")) == outputFolder
    ensures Basename(Join(outputFolder, "Links")) == "Links"
    ensures DirPrefix(Join(outputFolder, "Links")) == DirPrefix(outputFolder) + "Links/"
  {
    assert '/' !in "Links";
    DirnameJoin(outputFolder, "Links");
    JoinName(outputFolder, "Links");
    ConcatAssoc(outputFolder, "/", "Links");
  }

  /** A `<maplayer>`: its `provider` and `datasource` texts, `""` when missing or empty. */
  datatype Layer = Layer(provider: string, datasource: string)

  datatype Kind = ZipLayer | ShapefileLayer | FileLayer

  datatype SkipReason = NoDatasource | InvalidVsizip | ZipNotFound | ShapefileComponentsMissing | FileNotFound

  /** What happened to one layer: copied to `outputPath` and rewritten to `relativePath`, or skipped. */
  datatype Outcome =
    | Processed(kind: Kind, outputPath: Path, relativePath: Path)
    | Skipped(reason: SkipReason)

  /** What stays fixed during the run: the file system before it, the project folder and the links folder. */
  datatype Env = Env(fs: FileSystem, projectFolder: Path, linksFolder: Path)

  /**
   * What the run changes besides the layers: the regular files (copies add
   * their destinations), `copied_paths`, the two counters, and the log of
   * `(source, destination)` copies made.
   */
  datatype State = State(files: set<Path>, copiedPaths: set<Path>, processed: nat, skipped: nat, copies: seq<(Path, Path)>)

  function Initial(fs: FileSystem): State {
    State(fs.files, {}, 0, 0, [])
  }

  /** The file system as the run sees it when the regular files are `files`. */
  function FsWith(env: Env, files: set<Path>): FileSystem {
    env.fs.(files := files)
  }

  function Destinations(copies: seq<(Path, Path)>): set<Path> {
    set c | c in copies :: c.1
  }

  datatype StepResult = StepResult(state: State, layer: Layer, outcome: Outcome)

  /**
   * What one iteration of the layer loop guarantees. Every layer adds one to
   * exactly one counter; a skipped layer is left as it was and changes
   * nothing else; a processed layer adds its destination, which was not yet
   * in `copied_paths`, to `copied_paths`, keeps its provider and is given a
   * relative path under `Links/`.
   */
  predicate StepPost(st: State, layer: Layer, r: StepResult) {
    && r.state.processed + r.state.skipped == st.processed + st.skipped + 1
    && (r.outcome.Skipped? ==>
      && r.layer == layer
      && r.state == st.(skipped := st.skipped + 1))
    && (r.outcome.Processed? ==>
      && r.state.processed == st.processed + 1
      && r.state.skipped == st.skipped
      && r.outcome.outputPath !in st.copiedPaths
      && r.state.copiedPaths == st.copiedPaths + {r.outcome.outputPath}
      && r.layer.provider == layer.provider
      && StartsWith(r.outcome.relativePath, "Links/"))
  }

  function Skip(st: State, layer: Layer, reason: SkipReason): (r: StepResult)
    ensures StepPost(st, layer, r) && r.outcome == Skipped(reason)
  {
    StepResult(st.(skipped := st.skipped + 1), layer, Skipped(reason))
  }

  /** A processed layer: copied to `outputPath` (new files and copy log given), datasource replaced by `newDatasource`. */
  function Process(st: State, layer: Layer, kind: Kind, outputPath: Path, relativePath: Path, newDatasource: string,
                   files: set<Path>, copies: seq<(Path, Path)>): (r: StepResult)
    requires outputPath !in st.copiedPaths && StartsWith(relativePath, "Links/")
    ensures StepPost(st, layer, r) && r.outcome == Processed(kind, outputPath, relativePath)
    ensures r.layer.datasource == newDatasource && r.state.files == files && r.state.copies == copies
  {
    StepResult(
      State(files, st.copiedPaths + {outputPath}, st.processed + 1, st.skipped, copies),
      layer.(datasource := newDatasource),
      Processed(kind, outputPath, relativePath))
  }

  /**
   * How a processed layer's datasource is rewritten: an archive layer to
   * `/vsizip/./` + its relative path + its inner path, a plain or shapefile
   * layer to its relative path, both followed by the original qualifier;
   * archive layers are exactly those whose datasource starts with `/vsizip/`.
   */
  predicate RewrittenAs(layer: Layer, r: StepResult) {
    r.outcome.Processed? ==>
      if r.outcome.kind == ZipLayer then
        && StartsWith(layer.datasource, Prefix)
        && ParseVsizipPath(layer.datasource).Some?
        && r.layer.datasource == RewriteVsizip(r.outcome.relativePath, ParseVsizipPath(layer.datasource).value.1, layer.datasource)
      else
        && !StartsWith(layer.datasource, Prefix)
        && r.layer.datasource == RewritePlain(r.outcome.relativePath, layer.datasource)
  }

  /** A found file is handled as a shapefile when its extension, lower-cased, is `.shp` (lines 235 and 238). */
  predicate IsShapefile(src: Path) {
    Lower(SplitExt(src).1) == ".shp"
  }

  /**
   * A found file `src` is copied: the layer is processed at the destination
   * and relative path `get_unique_output_path` gives for `src`, and a
   * single-file copy is logged as `(src, destination)`.
   */
  predicate Copied(env: Env, st: State, src: Path, r: StepResult) {
    && r.outcome.Processed?
    && (r.outcome.outputPath, r.outcome.relativePath) == UniqueOutputPath(src, env.linksFolder, st.copiedPaths)
    && (r.outcome.kind != ShapefileLayer ==>
      && r.state.copies == st.copies + [(src, r.outcome.outputPath)]
      && r.state.files == st.files + {r.outcome.outputPath})
  }

  /**
   * How a found plain file is handled: a shapefile is processed as one or
   * skipped for missing components, anything else is processed as a file.
   */
  predicate Dispatched(src: Path, r: StepResult) {
    if IsShapefile(src) then
      (r.outcome.Processed? && r.outcome.kind == ShapefileLayer) || r.outcome == Skipped(ShapefileComponentsMissing)
    else
      r.outcome.Processed? && r.outcome.kind == FileLayer
  }

  /** The layer has both a provider and a datasource (line 191). */
  predicate HasDatasource(layer: Layer) {
    layer.provider != "" && layer.datasource != ""
  }

  /**
   * The path the loop looks for: the archive part of a `/vsizip/` reference,
   * `None` when that reference does not parse, and otherwise the datasource.
   */
  function Target(layer: Layer): (r: Option<Path>)
    ensures r.None? <==> StartsWith(layer.datasource, Prefix) && ParseVsizipPath(layer.datasource).None?
  {
    if StartsWith(layer.datasource, Prefix) then
      match ParseVsizipPath(layer.datasource)
      case None => None
      case Some((zip, _)) => Some(zip)
    else Some(layer.datasource)
  }

  /** Where `resolve_path_aggressively` finds the target of `layer` among `files`. */
  function Located(env: Env, files: set<Path>, layer: Layer): Option<Path>
    requires Target(layer).Some?
  {
    ResolveSpec(FsWith(env, files), Target(layer).value, env.projectFolder)
  }

  /** One iteration of the layer loop (lines 186-272). */
  function Step(env: Env, st: State, layer: Layer): (r: StepResult)
    ensures StepPost(st, layer, r)
    ensures RewrittenAs(layer, r)
  {
    var ds := layer.datasource;
    if layer.provider == "" || ds == "" then
      Skip(st, layer, NoDatasource)
    else if StartsWith(ds, Prefix) then
      ZipStep(env, st, layer, ParseVsizipPath(ds))
    else
      FileStep(env, st, layer, ResolveSpec(FsWith(env, st.files), ds, env.projectFolder))
  }

  /**
   * When each outcome of a step happens: a layer without provider or
   * datasource is skipped first; an unparsable `/vsizip/` reference is
   * skipped as invalid; a target that cannot be located among the current
   * files is skipped as not found; a processed layer was located and copied
   * to the destination `get_unique_output_path` gives for it.
   */
  lemma StepOutcome(env: Env, st: State, layer: Layer)
    ensures var r := Step(env, st, layer);
      && (r.outcome == Skipped(NoDatasource) <==> !HasDatasource(layer))
      && (r.outcome == Skipped(InvalidVsizip) <==> HasDatasource(layer) && Target(layer).None?)
      && (r.outcome in {Skipped(ZipNotFound), Skipped(FileNotFound)} <==>
        HasDatasource(layer) && Target(layer).Some? && !Truthy(Located(env, st.files, layer)))
      && (r.outcome.Processed? ==>
        && HasDatasource(layer) && Target(layer).Some? && Truthy(Located(env, st.files, layer))
        && Copied(env, st, Located(env, st.files, layer).value, r))
      && (HasDatasource(layer) && !StartsWith(layer.datasource, Prefix) && Truthy(Located(env, st.files, layer)) ==>
        Dispatched(Located(env, st.files, layer).value, r))
  {
    var ds := layer.datasource;
    if HasDatasource(layer) {
      if StartsWith(ds, Prefix) {
        ZipStepOutcome(env, st, layer, ParseVsizipPath(ds));
      } else {
        FileStepOutcome(env, st, layer, ResolveSpec(FsWith(env, st.files), ds, env.projectFolder));
      }
    }
  }

  /**
   * A plain file that is itself the free destination the allocator picks
   * for it (a component copied earlier in the run that a later layer
   * locates) is recorded as copied onto itself, and the layer is processed.
   */
  lemma SelfCopyRecorded(env: Env, st: State, layer: Layer, src: Path)
    requires !IsShapefile(src) && src !in st.copiedPaths
    requires BaseCandidates(src, env.linksFolder).0 == src
    ensures var alloc := UniqueOutputPath(src, env.linksFolder, st.copiedPaths);
      && alloc.0 == src && StartsWith(alloc.1, "Links/")
      && var r := FileFound(env, st, layer, src, alloc);
        r.outcome.Processed? && (src, src) in r.state.copies
  {
    var base := BaseCandidates(src, env.linksFolder);
    assert Suffixed(base.0, 0) == src;
    assert FreeIndex(base.0, st.copiedPaths, 0) == 0;
    var alloc := UniqueOutputPath(src, env.linksFolder, st.copiedPaths);
    assert alloc.0 == src;
    RelativePathInLinks(src, env.linksFolder, st.copiedPaths);
    var r := FileFound(env, st, layer, src, alloc);
    assert r.state.copies == st.copies + [(src, src)];
  }

  /** An archive layer, given what `parse_vsizip_path` made of its datasource (lines 197-230). */
  function ZipStep(env: Env, st: State, layer: Layer, parsed: Option<(Path, Path)>): (r: StepResult)
    ensures StepPost(st, layer, r)
    ensures r.outcome.Processed? ==>
      && r.outcome.kind == ZipLayer && parsed.Some?
      && r.layer.datasource == RewriteVsizip(r.outcome.relativePath, parsed.value.1, layer.datasource)
  {
    match parsed
    case None => Skip(st, layer, InvalidVsizip)
    case Some((zip, inner)) => ZipFound(env, st, layer, inner, ResolveSpec(FsWith(env, st.files), zip, env.projectFolder))
  }

  /** An archive layer, given where its archive was found, if anywhere. */
  function ZipFound(env: Env, st: State, layer: Layer, inner: Path, resolved: Option<Path>): (r: StepResult)
    ensures StepPost(st, layer, r)
    ensures r.outcome.Processed? ==>
      && r.outcome.kind == ZipLayer
      && r.layer.datasource == RewriteVsizip(r.outcome.relativePath, inner, layer.datasource)
  {
    if !Truthy(resolved) then Skip(st, layer, ZipNotFound)
    else
      var src := resolved.value;
      var (out, rel) := UniqueOutputPath(src, env.linksFolder, st.copiedPaths);
      RelativePathInLinks(src, env.linksFolder, st.copiedPaths);
      Process(st, layer, ZipLayer, out, rel, RewriteVsizip(rel, inner, layer.datasource),
              st.files + {out}, st.copies + [(src, out)])
  }

  /** A plain or shapefile layer, given where its file was found, if anywhere (lines 232-272). */
  function FileStep(env: Env, st: State, layer: Layer, resolved: Option<Path>): (r: StepResult)
    ensures StepPost(st, layer, r)
    ensures r.outcome.Processed? ==>
      r.outcome.kind != ZipLayer && r.layer.datasource == RewritePlain(r.outcome.relativePath, layer.datasource)
  {
    if !Truthy(resolved) then Skip(st, layer, FileNotFound)
    else
      var src := resolved.value;
      RelativePathInLinks(src, env.linksFolder, st.copiedPaths);
      FileFound(env, st, layer, src, UniqueOutputPath(src, env.linksFolder, st.copiedPaths))
  }

  /**
   * A found file with its allocated destination and relative path: a
   * shapefile (extension `.shp` in any case) is processed when at least one
   * of its components was copied, any other file is copied and processed.
   */
  function FileFound(env: Env, st: State, layer: Layer, src: Path, alloc: (Path, Path)): (r: StepResult)
    requires alloc.0 !in st.copiedPaths && StartsWith(alloc.1, "Links/")
    ensures StepPost(st, layer, r)
    ensures r.outcome.Processed? ==>
      r.outcome.kind != ZipLayer && r.layer.datasource == RewritePlain(r.outcome.relativePath, layer.datasource)
    ensures r.outcome.Processed? && r.outcome.kind == ShapefileLayer ==>
      PresentExtensions(FsWith(env, st.files), SplitExt(src).0, SidecarExtensions) != []
  {
    var (out, rel) := alloc;
    if IsShapefile(src) then
      ShapefileFound(env, st, layer, src, out, rel)
    else
      Process(st, layer, FileLayer, out, rel, RewritePlain(rel, layer.datasource),
              st.files + {out}, st.copies + [(src, out)])
  }

  /** A found shapefile: processed when at least one of its components exists and was copied. */
  function ShapefileFound(env: Env, st: State, layer: Layer, src: Path, out: Path, rel: Path): (r: StepResult)
    requires out !in st.copiedPaths && StartsWith(rel, "Links/")
    ensures StepPost(st, layer, r)
    ensures r.outcome.Processed? ==>
      && r.outcome == Processed(ShapefileLayer, out, rel)
      && r.layer.datasource == RewritePlain(rel, layer.datasource)
      && SidecarNames(FsWith(env, st.files), src, out) != []
  {
    var fs := FsWith(env, st.files);
    if SidecarNames(fs, src, out) == [] then
      // the copy loop found no component, so it copied nothing
      SidecarNamesPerCopy(fs, src, out);
      Skip(st, layer, ShapefileComponentsMissing)
    else
      var pairs := SidecarCopies(fs, src, out);
      Process(st, layer, ShapefileLayer, out, rel, RewritePlain(rel, layer.datasource),
              st.files + Destinations(pairs), st.copies + pairs)
  }

  /**
   * When the archive branch skips and what it copies: an unparsable
   * reference is skipped as invalid; otherwise the layer is skipped as not
   * found exactly when its archive is not located, and processed at the
   * allocator's destination for the located archive, with that one copy,
   * when it is.
   */
  lemma ZipStepOutcome(env: Env, st: State, layer: Layer, parsed: Option<(Path, Path)>)
    ensures var r := ZipStep(env, st, layer, parsed);
      && (r.outcome == Skipped(InvalidVsizip) <==> parsed.None?)
      && (parsed.Some? ==>
        var resolved := ResolveSpec(FsWith(env, st.files), parsed.value.0, env.projectFolder);
        && (r.outcome == Skipped(ZipNotFound) <==> !Truthy(resolved))
        && (Truthy(resolved) ==> Copied(env, st, resolved.value, r) && r.outcome.kind == ZipLayer))
  {
    if parsed.Some? {
      ZipFoundOutcome(env, st, layer, parsed.value.1, ResolveSpec(FsWith(env, st.files), parsed.value.0, env.projectFolder));
    }
  }

  /**
   * A missing archive is skipped as not found; a found one is processed at
   * the destination `get_unique_output_path` gives for it and copied there
   * once from where it was found.
   */
  lemma ZipFoundOutcome(env: Env, st: State, layer: Layer, inner: Path, resolved: Option<Path>)
    ensures var r := ZipFound(env, st, layer, inner, resolved);
      && (r.outcome.Skipped? <==> !Truthy(resolved))
      && (r.outcome.Skipped? ==> r.outcome.reason == ZipNotFound)
      && (Truthy(resolved) ==> Copied(env, st, resolved.value, r) && r.outcome.kind == ZipLayer)
  {
  }

  /**
   * The plain branch skips as not found exactly when nothing was resolved;
   * a resolved file is dispatched on its extension, and a processed layer
   * sits at the allocator's destination for it.
   */
  lemma FileStepOutcome(env: Env, st: State, layer: Layer, resolved: Option<Path>)
    ensures var r := FileStep(env, st, layer, resolved);
      && (r.outcome == Skipped(FileNotFound) <==> !Truthy(resolved))
      && (r.outcome.Processed? ==> Truthy(resolved) && Copied(env, st, resolved.value, r))
      && (Truthy(resolved) ==> Dispatched(resolved.value, r))
  {
    if Truthy(resolved) {
      var src := resolved.value;
      RelativePathInLinks(src, env.linksFolder, st.copiedPaths);
      FileFoundOutcome(env, st, layer, src, UniqueOutputPath(src, env.linksFolder, st.copiedPaths));
    }
  }

  /**
   * A found file with its allocation: a `.shp` file is processed as a
   * shapefile with the component copies, or skipped for missing components;
   * any other file is processed as a single file, copied once.
   */
  lemma FileFoundOutcome(env: Env, st: State, layer: Layer, src: Path, alloc: (Path, Path))
    requires alloc.0 !in st.copiedPaths && StartsWith(alloc.1, "Links/")
    ensures var r := FileFound(env, st, layer, src, alloc);
      && Dispatched(src, r)
      && (r.outcome.Processed? ==> (r.outcome.outputPath, r.outcome.relativePath) == alloc)
      && (!IsShapefile(src) ==>
        && r.state.copies == st.copies + [(src, alloc.0)]
        && r.state.files == st.files + {alloc.0})
      && (IsShapefile(src) && r.outcome.Processed? ==>
        r.state.copies == st.copies + SidecarCopies(FsWith(env, st.files), src, alloc.0))
  {
    if IsShapefile(src) {
      ShapefileFoundOutcome(env, st, layer, src, alloc.0, alloc.1);
    }
  }

  /**
   * A shapefile is processed exactly when `copy_shapefile_sidecars` returns
   * a non-empty list, with exactly its copies added; otherwise it is skipped
   * for missing components.
   */
  lemma ShapefileFoundOutcome(env: Env, st: State, layer: Layer, src: Path, out: Path, rel: Path)
    requires out !in st.copiedPaths && StartsWith(rel, "Links/")
    ensures var r := ShapefileFound(env, st, layer, src, out, rel);
      && (r.outcome.Processed? <==> SidecarNames(FsWith(env, st.files), src, out) != [])
      && (r.outcome.Skipped? ==> r.outcome.reason == ShapefileComponentsMissing)
      && (r.outcome.Processed? ==>
        && r.state.copies == st.copies + SidecarCopies(FsWith(env, st.files), src, out)
        && r.state.files == st.files + Destinations(SidecarCopies(FsWith(env, st.files), src, out)))
  {
  }

  /** The state, rewritten layers and outcomes after the loop has run over `layers`. */
  datatype Run = Run(state: State, layers: seq<Layer>, outcomes: seq<Outcome>)

  function RunLayers(env: Env, st: State, layers: seq<Layer>): (r: Run)
    ensures |r.layers| == |layers| && |r.outcomes| == |layers|
  {
    if layers == [] then Run(st, [], [])
    else
      var prev := RunLayers(env, st, layers[..|layers| - 1]);
      var s := Step(env, prev.state, layers[|layers| - 1]);
      Run(s.state, prev.layers + [s.layer], prev.outcomes + [s.outcome])
  }

  /** Running one more layer is one more step. */
  lemma RunSnoc(env: Env, st: State, layers: seq<Layer>, i: nat)
    requires i < |layers|
    ensures var prev := RunLayers(env, st, layers[..i]);
      var s := Step(env, prev.state, layers[i]);
      RunLayers(env, st, layers[..i + 1]) == Run(s.state, prev.layers + [s.layer], prev.outcomes + [s.outcome])
  {
    assert layers[..i + 1][..i] == layers[..i];
  }

  /** Running a prefix of the layers gives a prefix of the rewritten layers and outcomes. */
  lemma {:induction false} RunPrefix(env: Env, st: State, layers: seq<Layer>, k: nat)
    requires k <= |layers|
    ensures RunLayers(env, st, layers[..k]).layers == RunLayers(env, st, layers).layers[..k]
    ensures RunLayers(env, st, layers[..k]).outcomes == RunLayers(env, st, layers).outcomes[..k]
    decreases |layers|
  {
    if k < |layers| {
      var n := |layers| - 1;
      RunPrefix(env, st, layers[..n], k);
      assert layers[..n][..k] == layers[..k];
      var prev := RunLayers(env, st, layers[..n]);
      var r := RunLayers(env, st, layers);
      assert r.layers[..n] == prev.layers;
      assert r.outcomes[..n] == prev.outcomes;
      assert r.layers[..k] == prev.layers[..k];
      assert r.outcomes[..k] == prev.outcomes[..k];
    } else {
      assert layers[..k] == layers;
    }
  }

  /** Layer `i` of the result is what the step for layer `i` made of it. */
  lemma RunLayerAt(env: Env, st: State, layers: seq<Layer>, i: nat)
    requires i < |layers|
    ensures var s := Step(env, RunLayers(env, st, layers[..i]).state, layers[i]);
      RunLayers(env, st, layers).layers[i] == s.layer && RunLayers(env, st, layers).outcomes[i] == s.outcome
  {
    RunPrefix(env, st, layers, i + 1);
    RunSnoc(env, st, layers, i);
    var r := RunLayers(env, st, layers);
    var p := RunLayers(env, st, layers[..i + 1]);
    assert r.layers[i] == r.layers[..i + 1][i] == p.layers[i];
    assert r.outcomes[i] == r.outcomes[..i + 1][i] == p.outcomes[i];
  }

  /**
   * Layer `i` of a run, against the files and `copied_paths` present before
   * it: skipped for a missing field exactly when it lacks one; skipped as
   * not found exactly when its target is not located among those files; and
   * when processed, copied to the destination `get_unique_output_path`
   * gives for the located file.
   */
  lemma RunOutcomeAt(env: Env, st: State, layers: seq<Layer>, i: nat)
    requires i < |layers|
    ensures var prev := RunLayers(env, st, layers[..i]).state;
      var o := RunLayers(env, st, layers).outcomes[i];
      var l := layers[i];
      && (o == Skipped(NoDatasource) <==> !HasDatasource(l))
      && (o == Skipped(InvalidVsizip) <==> HasDatasource(l) && Target(l).None?)
      && (o in {Skipped(ZipNotFound), Skipped(FileNotFound)} <==>
        HasDatasource(l) && Target(l).Some? && !Truthy(Located(env, prev.files, l)))
      && (o.Processed? ==>
        && HasDatasource(l) && Target(l).Some? && Truthy(Located(env, prev.files, l))
        && (o.outputPath, o.relativePath) == UniqueOutputPath(Located(env, prev.files, l).value, env.linksFolder, prev.copiedPaths))
  {
    RunLayerAt(env, st, layers, i);
    StepOutcome(env, RunLayers(env, st, layers[..i]).state, layers[i]);
  }

  /**
   * In a run over the folders derived from the project path, every
   * processed layer's copy is its rewritten relative path below the package
   * folder: the rewritten reference names the copy.
   */
  lemma ProcessedUnderPackage(fs: FileSystem, projectPath: Path, layers: seq<Layer>, i: nat)
    requires projectPath != "" && i < |layers|
    ensures var (projectFolder, outputFolder, linksFolder) := ProjectFolders(projectPath).value;
      var o := RunLayers(Env(fs, projectFolder, linksFolder), Initial(fs), layers).outcomes[i];
      o.Processed? ==> o.outputPath == DirPrefix(outputFolder) + o.relativePath
  {
    var (projectFolder, outputFolder, linksFolder) := ProjectFolders(projectPath).value;
    var env := Env(fs, projectFolder, linksFolder);
    var o := RunLayers(env, Initial(fs), layers).outcomes[i];
    if o.Processed? {
      RunOutcomeAt(env, Initial(fs), layers, i);
      var prev := RunLayers(env, Initial(fs), layers[..i]).state;
      var src := Located(env, prev.files, layers[i]).value;
      UniqueOutputShape(src, linksFolder, prev.copiedPaths, o.outputPath, o.relativePath);
      ProjectFoldersLayout(projectPath);
      var tail := KeptDir(src) + Suffixed(Basename(src), FreeIndex(BaseCandidates(src, linksFolder).0, prev.copiedPaths, 0));
      ConcatAssoc(DirPrefix(linksFolder), KeptDir(src), Suffixed(Basename(src), FreeIndex(BaseCandidates(src, linksFolder).0, prev.copiedPaths, 0)));
      ConcatAssoc("Links/", KeptDir(src), Suffixed(Basename(src), FreeIndex(BaseCandidates(src, linksFolder).0, prev.copiedPaths, 0)));
      ConcatAssoc(DirPrefix(outputFolder), "Links/", tail);
    }
  }

  /** Every layer is counted once: `processed + skipped` grows by the number of layers. */
  lemma {:induction false} RunCounts(env: Env, st: State, layers: seq<Layer>)
    ensures var r := RunLayers(env, st, layers).state;
      r.processed + r.skipped == st.processed + st.skipped + |layers|
  {
    if layers != [] {
      RunCounts(env, st, layers[..|layers| - 1]);
    }
  }

  /** One step adds one destination to `copied_paths` exactly when it processes the layer. */
  lemma StepCopiedCount(st: State, layer: Layer, s: StepResult)
    requires StepPost(st, layer, s)
    ensures st.copiedPaths <= s.state.copiedPaths
    ensures |s.state.copiedPaths| - |st.copiedPaths| == s.state.processed - st.processed
  {
    if s.outcome.Processed? {
      assert |st.copiedPaths + {s.outcome.outputPath}| == |st.copiedPaths| + 1;
    }
  }

  /** `copied_paths` grows by exactly one destination per processed layer. */
  lemma {:induction false} RunCopiedCount(env: Env, st: State, layers: seq<Layer>)
    ensures var r := RunLayers(env, st, layers).state;
      && st.copiedPaths <= r.copiedPaths
      && |r.copiedPaths| - |st.copiedPaths| == r.processed - st.processed
  {
    if layers != [] {
      var init := layers[..|layers| - 1];
      RunCopiedCount(env, st, init);
      var prev := RunLayers(env, st, init).state;
      var s := Step(env, prev, layers[|layers| - 1]);
      assert RunLayers(env, st, layers).state == s.state;
      StepCopiedCount(prev, layers[|layers| - 1], s);
    }
  }

  /** The package holds one copied destination per processed layer: `len(copied_paths) == processed_count`. */
  lemma CopiedPathsMatchProcessed(fs: FileSystem, projectFolder: Path, linksFolder: Path, layers: seq<Layer>)
    ensures var r := RunLayers(Env(fs, projectFolder, linksFolder), Initial(fs), layers).state;
      |r.copiedPaths| == r.processed && r.processed + r.skipped == |layers|
  {
    RunCopiedCount(Env(fs, projectFolder, linksFolder), Initial(fs), layers);
    RunCounts(Env(fs, projectFolder, linksFolder), Initial(fs), layers);
  }

  /** The destinations of the processed outcomes. */
  function ProcessedOutputs(outcomes: seq<Outcome>): set<Path> {
    if outcomes == [] then {}
    else
      var last := outcomes[|outcomes| - 1];
      ProcessedOutputs(outcomes[..|outcomes| - 1]) + (if last.Processed? then {last.outputPath} else {})
  }

  lemma {:induction false} ProcessedOutputsHas(outcomes: seq<Outcome>, i: nat)
    requires i < |outcomes| && outcomes[i].Processed?
    ensures outcomes[i].outputPath in ProcessedOutputs(outcomes)
  {
    var n := |outcomes| - 1;
    if i < n {
      ProcessedOutputsHas(outcomes[..n], i);
    }
  }

  /** `copied_paths` holds the destinations of the processed layers and nothing else. */
  lemma {:induction false} RunCopiedPaths(env: Env, st: State, layers: seq<Layer>)
    ensures var r := RunLayers(env, st, layers);
      r.state.copiedPaths == st.copiedPaths + ProcessedOutputs(r.outcomes)
  {
    if layers != [] {
      var n := |layers| - 1;
      RunCopiedPaths(env, st, layers[..n]);
      var prev := RunLayers(env, st, layers[..n]);
      var r := RunLayers(env, st, layers);
      assert r.outcomes[..n] == prev.outcomes;
    }
  }

  /** Two processed layers never share a destination. */
  lemma RunDestinationsDistinct(env: Env, st: State, layers: seq<Layer>, i: nat, j: nat)
    requires i < j < |layers|
    requires RunLayers(env, st, layers).outcomes[i].Processed?
    requires RunLayers(env, st, layers).outcomes[j].Processed?
    ensures RunLayers(env, st, layers).outcomes[i].outputPath != RunLayers(env, st, layers).outcomes[j].outputPath
  {
    var r := RunLayers(env, st, layers);
    var prefix := layers[..j];
    var prev := RunLayers(env, st, prefix);
    RunLayerAt(env, st, layers, j);
    RunLayerAt(env, st, layers, i);
    RunLayerAt(env, st, prefix, i);
    assert prefix[..i] == layers[..i];
    assert prefix[i] == layers[i];
    assert prev.outcomes[i] == r.outcomes[i];
    ProcessedOutputsHas(prev.outcomes, i);
    RunCopiedPaths(env, st, prefix);
  }

  /** A skipped layer comes out exactly as it went in. */
  lemma SkippedUnchanged(env: Env, st: State, layers: seq<Layer>, i: nat)
    requires i < |layers| && RunLayers(env, st, layers).outcomes[i].Skipped?
    ensures RunLayers(env, st, layers).layers[i] == layers[i]
  {
    RunLayerAt(env, st, layers, i);
  }

  /**
   * A processed plain or shapefile layer now points at its relative path under
   * `Links/`, with the original qualifier after the `|`, when that relative
   * path has no `|` of its own.
   */
  lemma ProcessedFileRewritten(env: Env, st: State, layers: seq<Layer>, i: nat)
    requires i < |layers|
    requires RunLayers(env, st, layers).outcomes[i].Processed?
    requires RunLayers(env, st, layers).outcomes[i].kind != ZipLayer
    requires '|' !in RunLayers(env, st, layers).outcomes[i].relativePath
    ensures var o := RunLayers(env, st, layers).outcomes[i];
      var l := RunLayers(env, st, layers).layers[i];
      && PathPart(l.datasource) == o.relativePath
      && StartsWith(l.datasource, "Links/")
      && Qualifier(l.datasource) == Qualifier(layers[i].datasource)
      && l.provider == layers[i].provider
  {
    RunLayerAt(env, st, layers, i);
    var prev := RunLayers(env, st, layers[..i]).state;
    PlainStepRewritten(prev, layers[i], Step(env, prev, layers[i]));
  }

  /** One step's view of `ProcessedFileRewritten`. */
  lemma PlainStepRewritten(st: State, layer: Layer, r: StepResult)
    requires StepPost(st, layer, r) && RewrittenAs(layer, r)
    requires r.outcome.Processed? && r.outcome.kind != ZipLayer && '|' !in r.outcome.relativePath
    ensures PathPart(r.layer.datasource) == r.outcome.relativePath
    ensures StartsWith(r.layer.datasource, "Links/")
    ensures Qualifier(r.layer.datasource) == Qualifier(layer.datasource)
    ensures r.layer.provider == layer.provider
  {
    RewritePlainRoundTrip(r.outcome.relativePath, layer.datasource);
    StartsWithTrans(r.layer.datasource, r.outcome.relativePath, "Links/");
  }

  /**
   * A processed archive layer now names the copied archive as `./` followed
   * by its relative path, keeps the inner path the original reference named,
   * and keeps the original qualifier, when the relative path has no `|` and
   * its first `.zip` is its end.
   */
  lemma ProcessedZipRewritten(env: Env, st: State, layers: seq<Layer>, i: nat)
    requires i < |layers|
    requires RunLayers(env, st, layers).outcomes[i].Processed?
    requires RunLayers(env, st, layers).outcomes[i].kind == ZipLayer
    requires var rel := RunLayers(env, st, layers).outcomes[i].relativePath;
      '|' !in rel && |rel| >= |ZipMarker| && Find(rel, ZipMarker) == Some(|rel| - |ZipMarker|)
    ensures var o := RunLayers(env, st, layers).outcomes[i];
      var l := RunLayers(env, st, layers).layers[i];
      && ParseVsizipPath(layers[i].datasource).Some?
      && ParseVsizipPath(l.datasource) == Some(("./" + o.relativePath, ParseVsizipPath(layers[i].datasource).value.1))
      && Qualifier(l.datasource) == Qualifier(layers[i].datasource)
  {
    RunLayerAt(env, st, layers, i);
    var o := RunLayers(env, st, layers).outcomes[i];
    RewriteVsizipReparses(layers[i].datasource, o.relativePath);
  }

  /**
   * The packaging loop as an object: the fixed environment and the run's
   * mutable state, the datasources being rewritten in the layer array.
   */
  class Packaging {
    const env: Env
    var files: set<Path>
    var copiedPaths: set<Path>
    var processedCount: nat
    var skippedCount: nat
    var copies: seq<(Path, Path)>

    function Current(): State
      reads this
    {
      State(files, copiedPaths, processedCount, skippedCount, copies)
    }

    /** The state before the loop: nothing copied, both counters zero. */
    constructor (fs: FileSystem, projectFolder: Path, linksFolder: Path)
      ensures env == Env(fs, projectFolder, linksFolder)
      ensures Current() == Initial(fs)
    {
      env := Env(fs, projectFolder, linksFolder);
      files := fs.files;
      copiedPaths := {};
      processedCount, skippedCount := 0, 0;
      copies := [];
    }

    /** The body of the layer loop for `layers[i]` (lines 186-272). */
    method ProcessLayer(layers: array<Layer>, i: nat)
      requires i < layers.Length
      modifies this, layers
      ensures var r := Step(env, old(Current()), old(layers[i]));
        Current() == r.state && layers[..] == old(layers[..])[i := r.layer]
    {
      var layer := layers[i];
      if layer.provider == "" || layer.datasource == "" {
        skippedCount := skippedCount + 1;
      } else if StartsWith(layer.datasource, Prefix) {
        var parsed := ParseVsizipPath(layer.datasource);
        ProcessZipLayer(layers, i, parsed);
      } else {
        var resolved := ResolvePathAggressively(FsWith(env, files), layer.datasource, env.projectFolder);
        ProcessFileLayer(layers, i, resolved);
      }
    }

    /** An archive layer (lines 197-230), given the parse of its datasource. */
    method ProcessZipLayer(layers: array<Layer>, i: nat, parsed: Option<(Path, Path)>)
      requires i < layers.Length
      modifies this, layers
      ensures var r := ZipStep(env, old(Current()), old(layers[i]), parsed);
        Current() == r.state && layers[..] == old(layers[..])[i := r.layer]
    {
      if parsed.None? {
        skippedCount := skippedCount + 1;
        return;
      }
      var zipPath, innerPath := parsed.value.0, parsed.value.1;
      var resolvedZip := ResolvePathAggressively(FsWith(env, files), zipPath, env.projectFolder);
      ProcessZipFound(layers, i, innerPath, resolvedZip);
    }

    /** An archive layer, given where its archive was found, if anywhere (lines 200-226). */
    method ProcessZipFound(layers: array<Layer>, i: nat, innerPath: Path, resolvedZip: Option<Path>)
      requires i < layers.Length
      modifies this, layers
      ensures var r := ZipFound(env, old(Current()), old(layers[i]), innerPath, resolvedZip);
        Current() == r.state && layers[..] == old(layers[..])[i := r.layer]
    {
      if !Truthy(resolvedZip) {
        skippedCount := skippedCount + 1;
        return;
      }
      var src := resolvedZip.value;
      var outputPath, relativePath := GetUniqueOutputPath(src, env.linksFolder, copiedPaths);
      RelativePathInLinks(src, env.linksFolder, copiedPaths);
      ProcessZipCopy(layers, i, innerPath, src, outputPath, relativePath);
    }

    /** The copy of a found archive to its destination and the rewrite of the layer (lines 202-223). */
    method ProcessZipCopy(layers: array<Layer>, i: nat, innerPath: Path, src: Path, outputPath: Path, relativePath: Path)
      requires i < layers.Length
      requires outputPath !in copiedPaths && StartsWith(relativePath, "Links/")
      modifies this, layers
      ensures var r := Process(old(Current()), old(layers[i]), ZipLayer, outputPath, relativePath,
                               RewriteVsizip(relativePath, innerPath, old(layers[i]).datasource),
                               old(files) + {outputPath}, old(copies) + [(src, outputPath)]);
        Current() == r.state && layers[..] == old(layers[..])[i := r.layer]
    {
      var layer := layers[i];
      var datasource := layer.datasource;
      if outputPath !in copiedPaths {
        files := files + {outputPath};
        copies := copies + [(src, outputPath)];
        copiedPaths := copiedPaths + {outputPath};
      }
      var newDatasource := "/vsizip/./" + relativePath;
      if innerPath != "" {
        newDatasource := newDatasource + ("/" + innerPath);
      }
      ghost var body := newDatasource;
      assert body == "/vsizip/./" + relativePath + (if innerPath != [] then "/" + innerPath else "");
      if '|' in datasource {
        newDatasource := newDatasource + ("|" + Qualifier(datasource).value);
      }
      assert newDatasource == RewriteVsizip(relativePath, innerPath, datasource);
      layers[i] := layer.(datasource := newDatasource);
      processedCount := processedCount + 1;
    }

    /** A plain or shapefile layer (lines 232-272), given where its file was found, if anywhere. */
    method ProcessFileLayer(layers: array<Layer>, i: nat, resolved: Option<Path>)
      requires i < layers.Length
      modifies this, layers
      ensures var r := FileStep(env, old(Current()), old(layers[i]), resolved);
        Current() == r.state && layers[..] == old(layers[..])[i := r.layer]
    {
      if !Truthy(resolved) {
        skippedCount := skippedCount + 1;
        return;
      }
      var src := resolved.value;
      var outputPath, relativePath := GetUniqueOutputPath(src, env.linksFolder, copiedPaths);
      RelativePathInLinks(src, env.linksFolder, copiedPaths);
      ProcessFileFound(layers, i, src, outputPath, relativePath);
    }

    /** A found file with its destination and relative path (lines 235-269). */
    method ProcessFileFound(layers: array<Layer>, i: nat, src: Path, outputPath: Path, relativePath: Path)
      requires i < layers.Length
      requires outputPath !in copiedPaths && StartsWith(relativePath, "Links/")
      modifies this, layers
      ensures var r := FileFound(env, old(Current()), old(layers[i]), src, (outputPath, relativePath));
        Current() == r.state && layers[..] == old(layers[..])[i := r.layer]
    {
      var ext := Lower(SplitExt(src).1);
      if ext == ".shp" {
        ProcessShapefile(layers, i, src, outputPath, relativePath);
      } else {
        ProcessPlainCopy(layers, i, src, outputPath, relativePath);
      }
    }

    /** A shapefile: its components copied, then the layer rewritten if any were (lines 238-252). */
    method ProcessShapefile(layers: array<Layer>, i: nat, src: Path, outputPath: Path, relativePath: Path)
      requires i < layers.Length
      requires outputPath !in copiedPaths && StartsWith(relativePath, "Links/")
      modifies this, layers
      ensures var r := ShapefileFound(env, old(Current()), old(layers[i]), src, outputPath, relativePath);
        Current() == r.state && layers[..] == old(layers[..])[i := r.layer]
    {
      var layer := layers[i];
      var datasource := layer.datasource;
      var fs := FsWith(env, files);
      ghost var st := Current();
      SidecarNamesPerCopy(fs, src, outputPath);
      var copiedNames, sidecarCopies := CopyShapefileSidecars(fs, src, outputPath);
      files := files + Destinations(sidecarCopies);
      copies := copies + sidecarCopies;
      if |copiedNames| > 0 {
        ghost var spec := Process(st, layer, ShapefileLayer, outputPath, relativePath, RewritePlain(relativePath, datasource),
                                  st.files + Destinations(sidecarCopies), st.copies + sidecarCopies);
        assert ShapefileFound(env, st, layer, src, outputPath, relativePath) == spec;
        var newPath := relativePath;
        if '|' in datasource {
          newPath := newPath + ("|" + Qualifier(datasource).value);
        }
        assert newPath == RewritePlain(relativePath, datasource);
        layers[i] := layer.(datasource := newPath);
        processedCount := processedCount + 1;
        copiedPaths := copiedPaths + {outputPath};
        assert Current() == spec.state;
      } else {
        assert ShapefileFound(env, st, layer, src, outputPath, relativePath) == Skip(st, layer, ShapefileComponentsMissing);
        assert sidecarCopies == [];
        assert files == st.files && copies == st.copies;
        skippedCount := skippedCount + 1;
      }
    }

    /** Any other file: copied to its destination, then the layer rewritten (lines 253-269). */
    method ProcessPlainCopy(layers: array<Layer>, i: nat, src: Path, outputPath: Path, relativePath: Path)
      requires i < layers.Length
      requires outputPath !in copiedPaths && StartsWith(relativePath, "Links/")
      modifies this, layers
      ensures var r := Process(old(Current()), old(layers[i]), FileLayer, outputPath, relativePath,
                               RewritePlain(relativePath, old(layers[i]).datasource),
                               old(files) + {outputPath}, old(copies) + [(src, outputPath)]);
        Current() == r.state && layers[..] == old(layers[..])[i := r.layer]
    {
      var layer := layers[i];
      var datasource := layer.datasource;
      if outputPath !in copiedPaths {
        files := files + {outputPath};
        copies := copies + [(src, outputPath)];
        copiedPaths := copiedPaths + {outputPath};
      }
      var newPath := relativePath;
      if '|' in datasource {
        newPath := newPath + ("|" + Qualifier(datasource).value);
      }
      assert newPath == RewritePlain(relativePath, datasource);
      layers[i] := layer.(datasource := newPath);
      processedCount := processedCount + 1;
    }

    /** The layer loop (lines 186-272): every layer in document order, each rewritten in place. */
    method PackageLayers(layers: array<Layer>)
      modifies this, layers
      ensures var r := RunLayers(env, old(Current()), old(layers[..]));
        Current() == r.state && layers[..] == r.layers
    {
      ghost var start := Current();
      ghost var input := layers[..];
      var i := 0;
      while i < layers.Length
        invariant 0 <= i <= layers.Length
        invariant layers[i..] == input[i..]
        invariant var r := RunLayers(env, start, input[..i]);
          Current() == r.state && layers[..i] == r.layers
      {
        RunSnoc(env, start, input, i);
        ProcessLayer(layers, i);
        i := i + 1;
      }
      assert input[..i] == input;
    }
  }
}
