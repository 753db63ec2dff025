# CraftingTable change detection, in Dafny

CraftingTable turns a Minecraft server jar into a decompiled source tree (`unpack.py`).
It then finds the sources a user has edited so that only those are recompiled (`pack.py`).
Both directions detect change by byte-level SHA-1 digests, never by timestamps.

This project models the two change-detection routines and proves their contracts.

- **unpack** (`blobs.dfy`, `paths.dfy`, `class_scan.dfy`, `decompile_plan.dfy`, `unpack.dfy`).
  The run checks for a snapshot and derives the remapped jar's and the mapping's names.
  It remaps only when the remapped jar is missing.
  It loads the saved class hashes, or an empty map when the hashes file is missing.
  It scans the jar's entries in enumeration order.
  It keeps the names under `net/minecraft` that end in `.class`.
  A name that is new or whose digest differs is stored in the map, appended to the
  changed list and written to `classes/`.
  When nothing changed, the run exits with status 0 and does not rewrite the hashes.
  Otherwise it walks the changed list and skips inner classes (a `$` in the base name).
  For each other class it derives the class file, the source directory, the glob
  `…*.class` and the decompiler command line, and records the exit code.
  Finally it writes the map back, whatever those exit codes were.
- **pack** (`pack.dfy`).
  The run exits with status 1 if the remapped jar or the data file is missing.
  Otherwise it walks `data['sources']` in iteration order.
  A recorded file that exists is hashed, and it becomes a compile candidate when its
  digest differs from the recorded one.
  A recorded file that does not exist is reported and skipped.
  With no candidate, the run exits with status 0 and never calls the compiler.
  Otherwise it calls `javac -source 1.8 -target 1.8 -cp <jar> -d <data dir>/recompile`
  once, with the candidates appended.

Representation:

- SHA-1 is a parameter `sha1: Bytes -> Digest` that the model never looks inside.
- The jar is a sequence of `(name, bytes)` entries.
  Reading by name yields the data of the LAST entry of that name, as `zipfile` does.
  So a name that occurs twice is hashed from the same bytes both times, and
  `changedClasses` never holds a name twice (`ClassScan.ChangedNoDuplicates`).
- The file system is a set of existing paths (unpack) or a map from path to content (pack).
- The snapshot downloader, the remapper, the decompiler and `javac` are inputs.
  Each gives an exit code; the downloader also gives its standard output.
  `os.path.abspath` is a parameter too.
- Each loop is a method whose `ensures` ties its result to a recursive reference
  function (`Changed`, `Rescan`, `DecompileJobs`, `Modified`, `Missing`, `Hashed`).
  The lemmas prove what those functions mean.

## Behaviour of the scripts the model keeps

- `unpack.py` hashes class files only. The decompiled `.java` files are never hashed,
  and no source digests are written anywhere.
- The map is saved whatever the decompiler returned. So a class whose decompilation
  failed holds its new digest and is NOT retried next run (`Unpack.SecondRunChangesNothing`).
- Keys of classes that left the jar are kept in the map. Removals are neither detected
  nor pruned (`ClassScan.RescanContents`).
- `pack.py` considers only keys recorded in the data file. A new file on disk is never
  a compile candidate (`Pack.UntrackedNeverCompiled`).
- `pack.py` ignores `javac`'s exit code. The script ends with status 0 after the call.
- Neither script rebuilds an archive. `pack.py` ends at the compiler call.

The glob `stem*.class` covers a class and its inner classes.
It also matches a sibling class whose name merely begins with the same text, such as
`FooBar.class` for `Foo.class` (`Paths.ClassPatternCovers`).

## Model

| member | source | states |
|---|---|---|
| `Paths.DropLast` | unpack.py:39-43 | Python's `s[:-n]` for `n > 0`: the first `len(s)-n` characters, or the empty string when `s` is shorter than `n` |
| `Paths.TrimStart` | unpack.py:38 | the result is the suffix of `s` left after all leading white space; it does not start with white space |
| `Paths.TrimEnd` | unpack.py:38 | the result is the prefix of `s` left after all trailing white space; it does not end with white space |
| `Paths.TrimStartOf` | unpack.py:38 | leading white space in front of a word that starts with a non-space is removed, and nothing else |
| `Paths.TrimEndOf` | unpack.py:38 | trailing white space after a word that ends with a non-space is removed, and nothing else |
| `Paths.StripSurrounded` | unpack.py:38 | `strip()` of the downloader output returns exactly the jar name that white space surrounds |
| `Paths.SplitPoint` | unpack.py:92 | `p.rfind('/') + 1`, the index where `basename` starts, lies within the path (its position is stated by `Paths.SplitPointIsAfterLastSlash`) |
| `Paths.SplitPointIsAfterLastSlash` | unpack.py:92 | the split index sits right after the last `/` (or is 0), and no `/` follows it |
| `Paths.BasenameIsLastComponent` | unpack.py:92 | `basename` holds no `/`, and the path is its head followed by the base name |
| `Paths.TrimTrailingSlashes` | unpack.py:98 | `rstrip('/')`: the longest prefix that does not end in `/`; only slashes were removed |
| `Paths.DirnameOfJoin` | unpack.py:98 | `dirname(d + '/' + b)` is `d` and `basename` is `b`, when `d` is non-empty, does not end in `/`, and `b` has no `/` |
| `Paths.JarDerivedNames` | unpack.py:39-43 | for `stem.jar`, the mapping is `stem.mapping.txt` and the remapped jar is `stem.remap.jar`; the remapped jar is neither the input jar nor the mapping file |
| `Paths.ClassPatternCovers` | unpack.py:101-102 | the pattern of `stem.class` is `stem*.class`; it matches the class and every `stem$X.class`, and also sibling classes `stemX.class` |
| `ClassScan.LookupIsLast` | unpack.py:70 | reading an entry by name returns the data of the last entry of that name |
| `ClassScan.InPrefixStep` | unpack.py:65 | one more entry adds exactly its own name to the names seen so far |
| `ClassScan.FirstAtNotSeen` | unpack.py:65-73 | an entry is the first of its name iff that name was not seen before it |
| `ClassScan.RescanAt` | unpack.py:65-74 | after any prefix of the scan, each extracted name seen holds its current digest, other saved keys keep their digests, and no other key appears |
| `ClassScan.RescanContents` | unpack.py:52-74 | the final map holds every filtered class's current digest; keys of classes absent from the jar keep their saved value; filtered-out names never enter unless already saved |
| `ClassScan.ChangedMember` | unpack.py:65-75 | a name is in `changedClasses` iff it starts with `net/minecraft`, ends with `.class`, occurs in the jar, and is absent from the saved map or has a different digest there |
| `ClassScan.ChangedNoDuplicates` | unpack.py:70-75 | no name is appended to `changedClasses` twice, even when the jar repeats a name |
| `ClassScan.ChangedPrefix` | unpack.py:65-75 | the changed list only grows at its end, so it follows enumeration order |
| `ClassScan.FirstRunChangesAll` | unpack.py:52-75 | with no hashes file, the changed list is every filtered name, once each, in enumeration order |
| `ClassScan.ScanStepChanges` | unpack.py:73-75 | testing the running map agrees with the reference: on a new or differing digest the map gets it and the name is appended |
| `ClassScan.ScanStepKeeps` | unpack.py:66-75 | a filtered-out entry, or one whose digest the running map already holds, changes neither the map nor the list |
| `ClassScan.NoChangeKeepsMap` | unpack.py:80-82 | when nothing changed, the scanned map equals the saved one, so the early exit loses no update |
| `ClassScan.RescanIdempotent` | unpack.py:73-75 | scanning the same jar again with the produced map finds nothing changed and leaves the map as it is |
| `ClassScan.ScanJar` | unpack.py:58-78 | the loop's map, changed list and written class files are those of the reference definitions; the class files written are exactly the changed names, with their bytes |
| `DecompilePlan.DecompileJobs` | unpack.py:89-109 | jobs come in increasing `num`; each job is numbered with its class's 1-based position in the changed list, and no job is for an inner class |
| `DecompilePlan.OuterClassHasJob` | unpack.py:89-95 | every changed class whose base name has no `$` gets a job with its position number |
| `DecompilePlan.DecompiledIffOuter` | unpack.py:89-95 | a key is decompiled iff it is changed and its base name contains no `$` |
| `DecompilePlan.JobsAreDerived` | unpack.py:97-109 | each job's exit code is what the decompiler returned for the command line derived from the job's own class |
| `DecompilePlan.JobPaths` | unpack.py:97-102 | for `dir/name.class`, the class file is `<out>/classes/dir/name.class`, the source directory is `<out>/src/dir`, and the pattern is `<out>/classes/dir/name*.class` |
| `DecompilePlan.Decompile` | unpack.py:86-109 | the loop yields the reference job list, and `num` ends at `len(changedClasses)` because it advances for skipped inner classes too |
| `Unpack.ProcessJar` | unpack.py:51-114 | class files written are the changed classes; no change means no jobs and no hashes write; otherwise the jobs are planned and the scanned map is saved, whatever the decompiler returned |
| `Unpack.Unpack` | unpack.py:30-114 | a failed snapshot check exits 1 with nothing done; the remapper runs iff the remapped jar is missing, and its failure exits 1; otherwise the run exits 0 with the results of `ProcessJar` on the saved or empty map |
| `Unpack.SecondRunChangesNothing` | unpack.py:73-82 | a second run over the same jar with the saved map changes nothing, decompiles nothing and keeps the map |
| `Pack.ModifiedMember` | pack.py:31-39 | a file is in `modified` iff it is `srcPath + '/' + src` for a recorded `src` whose file exists and whose digest differs from the recorded one |
| `Pack.SourceFileInjective` | pack.py:33 | different source keys give different file names |
| `Pack.UntrackedNeverCompiled` | pack.py:32-39 | a file that no record names is never a compile candidate |
| `Pack.MissingNeverCompiled` | pack.py:34-41 | every candidate exists; every reported file is missing and never a candidate |
| `Pack.HashedOrMissing` | pack.py:32-41 | the hashed files and the reported-missing files together number exactly the records |
| `Pack.ModifiedAppend` | pack.py:31-39 | candidates follow the iteration order: those of earlier records come first |
| `Pack.ModifiedNoDuplicates` | pack.py:32-39 | with one record per key, no file appears twice in `modified` |
| `Pack.UnmodifiedTreeCompilesNothing` | pack.py:38-45 | when no existing recorded file differs, `modified` is empty |
| `Pack.SingleEditCompilesOne` | pack.py:32-39 | when exactly one record's file differs, `modified` is exactly that file |
| `Pack.DetectModified` | pack.py:29-41 | the loop's `modified`, reported-missing and hashed lists are those of the reference definitions |
| `Pack.Pack` | pack.py:15-52 | a missing jar or data file exits 1 before any digest is computed; otherwise nothing modified exits 0 without the compiler, and anything modified calls the compiler once with the fixed prefix followed by exactly `modified`; the status stays 0 whatever the compiler returns |

## Left out

- Argument parsing and printing are left out. The "[FAILED]" progress marker is the predicate `DecompileJob.Failed`; the texts printed are not modelled.
- JSON, zip and file I/O are inputs and outputs: the parsed hashes map, the parsed `sources` object, the jar's entry sequence, and the file contents map. Malformed JSON, a missing `sources` key and a remapped jar that cannot be opened raise exceptions in Python, and so does `subprocess.run` when a tool cannot be started (unpack.py:32, 46, 104; pack.py:52); the script then ends with status 1. Those crashes are not modelled, so `Pack.Pack` promises status 0 after the compiler call.
- The jar comment written to `jar_comment` and the creation of directories are side effects with no data logic, and are left out.
- The external tools (snapshot downloader, remapper, decompiler, `javac`) are represented only by their exit codes. The downloader also supplies its standard output; the bytes are taken as already decoded text.
- `os.path.abspath` depends on the working directory and is a parameter.
- Shell expansion of the decompiler's glob is not executed; `Paths.GlobMatches` states what a `prefix*suffix` glob accepts.
- `Paths.IsSpace` lists the characters Python's `str.isspace()` accepts. It is written out by hand, not derived from the Unicode database.
- setup.py only defines tool paths and bootstraps submodules and builds, so it is not part of this model.
- Concurrency between runs is out of scope: both scripts are single sequential runs.
- `Pack.ModifiedNoDuplicates` requires distinct keys. This is an invariant of the Python dict that holds `sources`, not something callers must ensure.
