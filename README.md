# QGIS project packager, modelled in Dafny

`qgis_project_packager.py` collects a QGIS project and the data its layers
use into one self-contained folder. For each `<maplayer>` of the project
file it does four things:

- It finds the file the layer's datasource names, trying several places: an
  absolute path, then the path relative to the project, then a recursive
  search of the project folder and its three nearest ancestors, then the
  path with leading `./` and `../` stripped under each of those folders.
- It copies that file, or the whole `.zip` archive for a GDAL `/vsizip/`
  reference, into `<project>_packaged/Links/`. The destination name is
  unique; a shapefile brings its sidecar files with it.
- It rewrites the datasource to point at the copy, relative to the package.
  Any `|layername=...` qualifier is kept.
- It counts the layer as processed or skipped.

The model contains:

- `Strings` and `PosixPath`: the pieces of Python's `str` and `posixpath`
  the script relies on. These are `startswith`, the substring test `in`
  and `split` on a substring (both through `Find`), `split('|')`,
  `lstrip`, `lower`, `str(int)`, `join`, `basename`, `dirname`, `splitext`
  and `normpath`.
- `Vsizip`: `parse_vsizip_path`, and the two datasource rewrites together
  with their round trips.
- `Locator`: the file system as a set of regular files, a set of
  directories and an abstract recursive glob. On top of it sit
  `find_file_aggressively` and `resolve_path_aggressively`, written as
  methods with their loops and early returns. They are proved equal to
  specification functions, and the locator is proved to return the first
  candidate that is a file.
- `Allocator`: `get_unique_output_path`, with its counter loop. It is
  proved to terminate, to return a destination not yet used, and to pick
  the least free counter.
- `Sidecars`: `copy_shapefile_sidecars`, with its loop over the fixed
  extension list.
- `Packager`: the folders derived from the project path, and one step of
  the layer loop as a function (`Step`). The whole loop is a fold of that
  step over the layers (`RunLayers`), and the lemmas about the run are
  stated about that fold. The class `Packaging` is the loop as the script
  runs it. Its fields are the mutable state: `copied_paths`, the two
  counters, the files written so far and a log of the copies made. It
  rewrites datasources in place in an array of layers. Each of its methods
  is proved to leave exactly the state the specification function gives.
  `StepOutcome` and one outcome lemma per branch say when a layer is
  processed and why it is skipped, and which destination and copies a
  processed layer gets; `RunOutcomeAt` carries this to every layer of a run.
  `ProjectFoldersLayout` places the package folder beside the project, and
  `ProcessedUnderPackage` shows that each rewritten reference names its copy
  below that folder.

## Model

| member | source | states |
|---|---|---|
| Strings.StartsWith | qgis_project_packager.py:30 | definition of `str.startswith`: the text begins with the prefix; used for `startswith('/vsizip/')` (also line 197) |
| Strings.FindSpec | qgis_project_packager.py:41-42 | `Find`, which models the test `'.zip' in path` and the split point of `path.split('.zip', 1)`, returns the least index of an occurrence, and nothing exactly when the text does not occur |
| Strings.PathPart | qgis_project_packager.py:37-38 | the path part is a prefix of the text, has no bar, and is followed by the first bar when shorter |
| Strings.Qualifier | qgis_project_packager.py:217-218 | the text after the first bar exists exactly when there is a bar, and the text is path part, bar, qualifier |
| Strings.LStrip | qgis_project_packager.py:44 | definition of `str.lstrip` (also line 78); characterised by `Strings.LStripRemoves` |
| Strings.LStripRemoves | qgis_project_packager.py:44 | `lstrip` removes only a leading run of the given characters |
| Strings.Lower | qgis_project_packager.py:235 | definition of `str.lower()` on ASCII letters; characterised by the same length and each character lower-cased |
| Strings.NatToString | qgis_project_packager.py:110 | definition of `str(counter)` in decimal (also line 113); characterised by `Strings.NatToStringInjective` |
| Strings.NatToStringInjective | qgis_project_packager.py:110 | distinct counters have distinct decimal forms |
| PosixPath.Join | qgis_project_packager.py:60 | `os.path.join(a, b)` ends with `b` and, for a relative `b`, starts with `a` |
| PosixPath.Basename | qgis_project_packager.py:88 | `os.path.basename` is a suffix of the path and has no `/` |
| PosixPath.IsAbs | qgis_project_packager.py:56 | definition of `os.path.isabs`: the path starts with `/` |
| PosixPath.Dirname | qgis_project_packager.py:89 | definition of `os.path.dirname`; characterised by `PosixPath.DirnameShaped` and `PosixPath.DirnameJoin` |
| PosixPath.DirnameShaped | qgis_project_packager.py:145 | `os.path.dirname` returns an empty path, all slashes, or a path not ending in `/` |
| PosixPath.DirnameJoin | qgis_project_packager.py:145-148 | `dirname` and `basename` undo the join of a name to a directory: they give back the directory and the name |
| PosixPath.SplitExt | qgis_project_packager.py:109 | `os.path.splitext`: the root and the extension concatenate to the path, and the extension is empty or a `.` with no `/` after it |
| PosixPath.Normpath | qgis_project_packager.py:60 | definition of POSIX `os.path.normpath`: drops empty and `.` components and lets `..` cancel the component before it |
| PosixPath.BasenameAppend | qgis_project_packager.py:132-134 | appending a text without `/` appends it to the base name |
| Vsizip.ParseVsizipPath | qgis_project_packager.py:28-47 | definition of `parse_vsizip_path`; characterised by `Vsizip.ParseVsizipPathDefined`, `Vsizip.ParseVsizipPathParts` and `Vsizip.ParseVsizipPathLayout` |
| Vsizip.SplitAtZip | qgis_project_packager.py:41-45 | definition of the split after the first `.zip`; characterised by `Vsizip.SplitAtZipParts` |
| Vsizip.RewriteVsizip | qgis_project_packager.py:214-218 | definition of the `/vsizip/./` rewrite; characterised by `Vsizip.RewriteVsizipRoundTrip` |
| Vsizip.RewritePlain | qgis_project_packager.py:243-246 | definition of the plain rewrite (also lines 265-268); characterised by `Vsizip.RewritePlainRoundTrip` |
| Vsizip.ParseVsizipPathDefined | qgis_project_packager.py:28-47 | a parse exists exactly when the reference starts with `/vsizip/` and its text before the first bar contains `.zip` |
| Vsizip.ParseVsizipPathParts | qgis_project_packager.py:34-45 | the archive part ends in its only `.zip`, the inner part has no leading `/`, and neither has a bar |
| Vsizip.ParseVsizipPathLayout | qgis_project_packager.py:34-45 | the text before the first bar is `/vsizip/`, the archive part, a run of slashes, then the inner part |
| Vsizip.SplitAtZipParts | qgis_project_packager.py:41-45 | splitting after the first `.zip` gives an archive part ending in its only `.zip` and an inner part with no leading `/` |
| Vsizip.QualifierSuffixSplits | qgis_project_packager.py:217-218 | appending the qualifier suffix keeps the text as path part and copies the original qualifier |
| Vsizip.RewritePlainRoundTrip | qgis_project_packager.py:243-246 | a rewritten plain reference has the relative path as path part and the original qualifier |
| Vsizip.RewriteVsizipRoundTrip | qgis_project_packager.py:214-218 | re-parsing a rewritten archive reference gives `./` + relative path, the same inner path and the original qualifier |
| Vsizip.RewriteVsizipReparses | qgis_project_packager.py:198-218 | the inner path the original parse produced survives the rewrite and a re-parse |
| Locator.IsFile | qgis_project_packager.py:15 | definition of `os.path.isfile` (also lines 56, 61, 81, 131): the path is one of the regular files |
| Locator.Exists | qgis_project_packager.py:13 | definition of `os.path.exists`: the path is a regular file or another existing path |
| Locator.Truthy | qgis_project_packager.py:199-201 | definition of the truth test on a found path (also lines 74 and 234): `None` and the empty path are false; characterised by `Locator.ResolveIsFirstCandidate` |
| Locator.FirstFile | qgis_project_packager.py:15-16 | the first match kept is one of the matches and is a regular file |
| Locator.FirstFileIs | qgis_project_packager.py:14-16 | the match picked is the one at the least index that is a file |
| Locator.FirstFileNone | qgis_project_packager.py:14-17 | nothing is found exactly when no match is a file |
| Locator.GlobPattern | qgis_project_packager.py:14 | definition of the pattern `os.path.join(root, '**', filename)` |
| Locator.RootMatches | qgis_project_packager.py:13-14 | definition: the glob matches under one root, none when the root does not exist |
| Locator.AllMatches | qgis_project_packager.py:12-14 | definition: the matches of all roots, root by root; characterised by `Locator.FindFileAggressively` |
| Locator.FindFileAggressively | qgis_project_packager.py:10-17 | the loop returns the first regular file among the glob matches of the existing roots, root by root |
| Locator.FirstMatch | qgis_project_packager.py:14-16 | the inner loop returns the first glob match that is a regular file, or nothing |
| Locator.SearchRoots | qgis_project_packager.py:65-70 | definition: the project folder and its three nearest ancestors, in that order |
| Locator.CleanPath | qgis_project_packager.py:78 | the stripped path is a suffix of the reference and starts with neither `.` nor `/` |
| Locator.CleanPathStripsOnce | qgis_project_packager.py:78 | the second `lstrip('../')` removes nothing after `lstrip('./')` |
| Locator.CleanPathRemoves | qgis_project_packager.py:78 | only dots and slashes are removed |
| Locator.CleanCandidatesAt | qgis_project_packager.py:79-80 | candidate i is the stripped path joined to search root i |
| Locator.SearchStage | qgis_project_packager.py:72-84 | the basename search, then the stripped path under each root; a result is always a regular file |
| Locator.ResolveFrom | qgis_project_packager.py:55-84 | the four strategies in order; a result is always a regular file |
| Locator.ResolveSpec | qgis_project_packager.py:49-84 | a resolved path is always a regular file |
| Locator.ResolveIsFirstCandidate | qgis_project_packager.py:55-84 | the strategies, taken in order, return the first candidate that is a file, and nothing when none is |
| Locator.ResolveUsesPathPart | qgis_project_packager.py:52-53 | only the text before the first bar of the reference matters |
| Locator.ResolvePathAggressively | qgis_project_packager.py:49-84 | the method with its early returns computes the specification, and a returned path is a file |
| Locator.TryUnderRoots | qgis_project_packager.py:79-84 | the loop over the roots returns the first joined candidate that is a file |
| Allocator.ParentName | qgis_project_packager.py:89 | definition of `os.path.basename(os.path.dirname(resolved_path))` |
| Allocator.MeaningfulParent | qgis_project_packager.py:91-94 | definition of the parent-folder test: non-empty, not `.` or `..`, and not in the fixed list `SystemFolders` of line 92; characterised by `Allocator.UniqueOutputShape` |
| Allocator.BaseCandidates | qgis_project_packager.py:88-101 | definition of the destination before collision handling; characterised by `Allocator.BaseCandidatesShape` |
| Allocator.Suffixed | qgis_project_packager.py:109-113 | definition of `f"{name}_{k}{ext}"` for counter k, the path itself for 0; characterised by `Allocator.SuffixedInjective` |
| Allocator.SuffixedInjective | qgis_project_packager.py:109-113 | different counters give different destinations |
| Allocator.FreeIndex | qgis_project_packager.py:108-114 | the counter is the least one, from where the search starts, whose destination is free |
| Allocator.UniqueOutputPath | qgis_project_packager.py:86-116 | the destination returned is not in `copied_paths` |
| Allocator.AvoidCollisions | qgis_project_packager.py:103-116 | the loop terminates with the least free counter, applied to destination and relative path alike |
| Allocator.GetUniqueOutputPath | qgis_project_packager.py:86-116 | the method computes the specification, and its destination is not in `copied_paths` |
| Allocator.UniqueOutputPathLeast | qgis_project_packager.py:103-114 | a free candidate comes back unchanged, and every smaller counter is taken |
| Allocator.BaseCandidatesShape | qgis_project_packager.py:88-101 | before collision handling, both paths are `Links`, the kept parent directory and the file name |
| Allocator.UniqueOutputShape | qgis_project_packager.py:88-116 | both paths end in the same suffixed file name, placed before the extension, and the parent appears exactly when it is meaningful |
| Allocator.RelativePathInLinks | qgis_project_packager.py:97-101 | the relative path always starts with `Links/` |
| Sidecars.PresentExtensions | qgis_project_packager.py:129-131 | definition of the extensions whose source file exists; characterised by `Sidecars.PresentExtensionsMembers` and `Sidecars.PresentExtensionsInOrder` |
| Sidecars.SidecarCopies | qgis_project_packager.py:129-133 | definition of the copies made; characterised by `Sidecars.SidecarCopiesAt` |
| Sidecars.SidecarNames | qgis_project_packager.py:129-136 | definition of the names returned; characterised by `Sidecars.SidecarCopiesAt` and `Sidecars.CopiedNamesShareStem` |
| Sidecars.PresentExtensionsMembers | qgis_project_packager.py:129-131 | the extensions kept are those of the list whose source file exists, and no others |
| Sidecars.PresentExtensionsInOrder | qgis_project_packager.py:129-134 | the extensions kept appear in list order |
| Sidecars.CopyPairsAt | qgis_project_packager.py:130-133 | each copy goes from the source stem plus the extension to the destination stem plus the extension |
| Sidecars.DestNamesAt | qgis_project_packager.py:132-134 | each name returned is the base name of the destination stem plus the extension |
| Sidecars.CopyPresent | qgis_project_packager.py:129-136 | the loop copies exactly the existing components, in list order, and returns their destination base names |
| Sidecars.CopyShapefileSidecars | qgis_project_packager.py:118-136 | the method computes the copies and the returned names of the specification |
| Sidecars.SidecarNamesPerCopy | qgis_project_packager.py:133-134 | one name is returned per file copied |
| Sidecars.SidecarCopiesAt | qgis_project_packager.py:125-134 | the i-th copy and the i-th name belong to the i-th extension found |
| Sidecars.ExtensionTailsDistinct | qgis_project_packager.py:129 | each entry of the list has at least three characters, and its last three identify its position |
| Sidecars.ComponentsDoNotCollide | qgis_project_packager.py:129-133 | two different extensions never name the same file, so no copy overwrites a later source |
| Sidecars.ExtensionsAreNames | qgis_project_packager.py:129 | no extension of the list holds a `/` |
| Sidecars.CopiedNamesShareStem | qgis_project_packager.py:126-134 | every returned name is the destination's base stem followed by the extension |
| Packager.ProjectFolders | qgis_project_packager.py:140-149 | no folders exactly when no project is open (where the script raises) |
| Packager.ProjectFoldersLayout | qgis_project_packager.py:145-149 | the package folder sits in the project's directory and is named after the project with `_packaged`; the links folder is `Links` directly inside it |
| Packager.PackageBeside | qgis_project_packager.py:147-149 | `dirname` and `basename` of the package and links folders give back the folder they were joined to and the names `<name>_packaged` and `Links` |
| Packager.Initial | qgis_project_packager.py:182-184 | definition of the state before the loop: the current files, an empty `copied_paths`, both counters zero, no copies; characterised by `Packager.CopiedPathsMatchProcessed` |
| Packager.Skip | qgis_project_packager.py:191-194 | a skipped layer adds one to the skipped count and changes nothing else |
| Packager.Process | qgis_project_packager.py:208-223 | a processed layer adds its fresh destination to `copied_paths` and one to the processed count |
| Packager.IsShapefile | qgis_project_packager.py:235-238 | definition: the lower-cased extension of the found file is `.shp` |
| Packager.HasDatasource | qgis_project_packager.py:191 | definition: the layer has a non-empty provider and datasource |
| Packager.Target | qgis_project_packager.py:197-199 | the path looked for is missing exactly for a `/vsizip/` reference that does not parse |
| Packager.Located | qgis_project_packager.py:200-233 | definition: `resolve_path_aggressively` of the target against the current files |
| Packager.Step | qgis_project_packager.py:186-272 | one iteration counts the layer once, leaves a skipped layer as it was, adds a fresh destination for a processed one, and rewrites it in the archive or plain form |
| Packager.StepOutcome | qgis_project_packager.py:186-272 | a layer is skipped for missing fields exactly when it lacks provider or datasource, as invalid exactly when its `/vsizip/` reference does not parse, as not found exactly when its target is not located; a processed layer was located and copied to the destination `get_unique_output_path` gives for it; a found plain file is a shapefile layer or skipped for missing components exactly when its extension is `.shp` |
| Packager.ZipStep | qgis_project_packager.py:197-230 | the archive branch keeps the step guarantees, and a processed layer is an archive layer rewritten around the inner path the parse gave |
| Packager.ZipStepOutcome | qgis_project_packager.py:197-230 | skipped as invalid exactly when the reference does not parse; otherwise skipped as not found exactly when the archive is not located, and processed as an archive layer at the allocator's destination for the located archive, with one copy logged, when it is |
| Packager.ZipFound | qgis_project_packager.py:200-226 | a found archive keeps the step guarantees and is rewritten around its relative path and the inner path |
| Packager.ZipFoundOutcome | qgis_project_packager.py:200-226 | skipped, as not found, exactly when no archive was found; a found archive is processed at `get_unique_output_path`'s destination and copied there once from where it was found |
| Packager.FileStep | qgis_project_packager.py:232-272 | the plain branch keeps the step guarantees, and a processed layer is a plain or shapefile layer rewritten to its relative path |
| Packager.FileStepOutcome | qgis_project_packager.py:232-272 | skipped as not found exactly when nothing was resolved; a processed layer sits at `get_unique_output_path`'s destination for the resolved file; a resolved file is handled as a shapefile exactly when its extension is `.shp` |
| Packager.FileFound | qgis_project_packager.py:235-269 | a processed found file is rewritten to its relative path, and a shapefile layer is processed only when some component exists |
| Packager.FileFoundOutcome | qgis_project_packager.py:235-269 | a file whose lower-cased extension is `.shp` is processed as a shapefile with its component copies, or skipped; any other file is processed as a single file, copied once to the allocated destination |
| Packager.ShapefileFound | qgis_project_packager.py:238-252 | a processed shapefile sits at its allocation, is rewritten to its relative path, and `copy_shapefile_sidecars` returned a non-empty list |
| Packager.ShapefileFoundOutcome | qgis_project_packager.py:238-252 | processed exactly when `copy_shapefile_sidecars` returns a non-empty list, with exactly its copies added; otherwise skipped for missing components |
| Packager.SelfCopyRecorded | qgis_project_packager.py:253-260 | a plain file that is itself the free destination allocated for it is recorded as copied onto itself and processed |
| Packager.RunLayers | qgis_project_packager.py:186-272 | the run yields one layer and one outcome per input layer |
| Packager.RunSnoc | qgis_project_packager.py:186 | running one more layer is one more step |
| Packager.RunPrefix | qgis_project_packager.py:186-272 | running a prefix of the layers gives a prefix of the rewritten layers and outcomes |
| Packager.RunLayerAt | qgis_project_packager.py:186-272 | layer i of the result is what the step for layer i made of it |
| Packager.RunOutcomeAt | qgis_project_packager.py:186-272 | layer i is skipped as not found exactly when its target is not located among the files present before it, and when processed it sits at the allocator's destination for the located file against the `copied_paths` before it |
| Packager.ProcessedUnderPackage | qgis_project_packager.py:145-149 | in a run over the folders derived from the project, each processed copy is the package folder followed by the layer's new relative path |
| Packager.RunCounts | qgis_project_packager.py:182-272 | every layer increments exactly one of the two counters |
| Packager.StepCopiedCount | qgis_project_packager.py:208-210 | one step adds a destination to `copied_paths` exactly when it processes the layer |
| Packager.RunCopiedCount | qgis_project_packager.py:184-272 | `copied_paths` only grows, by one destination per processed layer |
| Packager.CopiedPathsMatchProcessed | qgis_project_packager.py:182-272 | after the loop, the size of `copied_paths` is the processed count, and the two counts add up to the number of layers |
| Packager.ProcessedOutputsHas | qgis_project_packager.py:210 | the destination of each processed layer is among the processed destinations |
| Packager.RunCopiedPaths | qgis_project_packager.py:184-272 | `copied_paths` holds the destinations of the processed layers and nothing else |
| Packager.RunDestinationsDistinct | qgis_project_packager.py:202-260 | two processed layers never share a destination |
| Packager.SkippedUnchanged | qgis_project_packager.py:191-272 | a skipped layer's datasource and provider come out as they went in |
| Packager.ProcessedFileRewritten | qgis_project_packager.py:241-268 | a processed plain or shapefile layer points at its relative path under `Links/`, keeps its qualifier and its provider |
| Packager.ProcessedZipRewritten | qgis_project_packager.py:214-222 | a processed archive layer re-parses to `./` + relative path and the original inner path, and keeps its qualifier |
| Packager.Packaging.constructor | qgis_project_packager.py:182-184 | the loop starts with nothing copied and both counters at zero |
| Packager.Packaging.ProcessLayer | qgis_project_packager.py:186-272 | one pass of the loop body leaves the state and the rewritten layer that `Step` gives, and no other layer changes |
| Packager.Packaging.ProcessZipLayer | qgis_project_packager.py:197-230 | the archive branch leaves what `ZipStep` gives |
| Packager.Packaging.ProcessZipFound | qgis_project_packager.py:200-226 | the found-archive branch allocates, copies and rewrites as `ZipFound` gives |
| Packager.Packaging.ProcessZipCopy | qgis_project_packager.py:208-223 | the archive copy records the destination and builds the new `/vsizip/./` reference |
| Packager.Packaging.ProcessFileLayer | qgis_project_packager.py:232-272 | the plain branch leaves what `FileStep` gives |
| Packager.Packaging.ProcessFileFound | qgis_project_packager.py:235-269 | a resolved file is handled as `FileFound` gives |
| Packager.Packaging.ProcessShapefile | qgis_project_packager.py:238-252 | the shapefile branch copies the sidecars and rewrites, or skips, as `ShapefileFound` gives |
| Packager.Packaging.ProcessPlainCopy | qgis_project_packager.py:253-269 | the single-file branch copies, records and rewrites the layer |
| Packager.Packaging.PackageLayers | qgis_project_packager.py:186-272 | the loop over the layer array leaves exactly the state and the layers of `RunLayers` |

## Left out

- The QGIS host: `QgsProject.instance()` and `fileName()` at lines 139-142 are a foreign API. The project path is a parameter. Where the script raises, `ProjectFolders` returns `None`.
- Reading and writing the project: `.qgz` extraction, the ElementTree parse and write, the `.qgz` rebuild and the final zip of the package (lines 166-181, 276-297) are library I/O. The project is a sequence of `(provider, datasource)` records.
- Folder creation: the wipe and creation of the package folders and every `os.makedirs` (lines 151-154, 121-123, 204-206, 255-257) are file-system side effects, treated as no-ops.
- Byte copying: `shutil.copy2` adds its destination to the set of regular files the run sees and appends `(source, destination)` to a copy log. File contents are not modelled.
- Copy failures: `shutil.copy2` raising is not modelled, and every copy succeeds. One such failure lies inside the modelled behaviour. A sidecar copied earlier is a file under `Links/` that is not in `copied_paths`. A later plain layer can locate that file, and the allocator can then give back the file itself. `shutil.copy2(p, p)` raises `SameFileError` there and ends the script. The model processes the layer and logs the copy `(p, p)` instead (`Packager.SelfCopyRecorded`).
- Overwrites: the sidecar copies at lines 130-133 never consult `copied_paths`, so they can overwrite a file an earlier layer copied. The regular files are a set, so the model cannot show that an overwrite happened.
- Path identity: files and `copied_paths` compare paths as strings. `/a//b` and `/a/b` count as two files, whereas `isfile` and `shutil.copy2` treat them as one.
- Sidecar copies: `copy_shapefile_sidecars` checks each component against the file system as it was before its loop. `Sidecars.ComponentsDoNotCollide` shows that no copy in the loop can create a later component, so this loses nothing.
- Glob order: the order of `glob.glob(..., recursive=True)` is an arbitrary function of the existing files and the pattern.
- Dead code: `find_zip_aggressively` (lines 19-26) is never called.
- Unused globals: the `search_roots` list at lines 159-164 is never read, and the `Locator.SearchRoots` inside `resolve_path_aggressively` equals it.
- Logging: `print` output and the layer `name` it uses (line 189) are not modelled.
- Path semantics: Windows paths and case-insensitive file systems are not modelled; paths are POSIX.
- Lowercasing: `lower()` is limited to ASCII letters.
- Locator.ResolveIsFirstCandidate: holds only when the empty path is not a file. A found path is tested by truthiness at line 74, and only the empty path is both found and false.
- Packager.ProcessedZipRewritten: stated only when the relative path has no `|` and its first `.zip` is its end. Otherwise the rewritten reference does not re-parse to the copied archive.
- Packager.ProcessedFileRewritten: stated only when the relative path has no `|`. Otherwise the path part of the rewritten reference is cut at that `|`.
- Archive deduplication: as the code is written, two layers referring to one archive copy it twice, to `x.zip` and `x_1.zip`. The model does the same.
- The freshness guards at lines 208 and 254: they always hold, because the allocator only returns free destinations. The function `Step` has no branch for them being false. The methods `Packaging.ProcessZipCopy` and `Packaging.ProcessPlainCopy` keep the guard, and their contracts, which equal what `Step` gives, force it to hold.
- Shapefile sidecars and `copied_paths`: sidecar destinations are not added to `copied_paths`, only the `.shp` destination is (line 248). So a later layer may be given a sidecar's path; the model keeps that behaviour.
- Upper-case `.SHP`: for a source named `x.SHP` the component list looks for `x.shp`, `x.dbf` and so on, never `x.SHP` itself. The model keeps this.
