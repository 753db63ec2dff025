/** One run of unpack.py from the snapshot check to the final write of the class
    hashes. Every external effect is an input: the downloader's result, the set of
    files that exist, the remapper's exit code, the saved hashes, the remapped jar's
    entries, SHA-1, `os.path.abspath` and the decompiler. */
module Unpack {
  import opened Blobs
  import opened Paths
  import opened ClassScan
  import opened DecompilePlan

  /** The remapper invocation: input jar, mapping reference, output jar. */
  datatype RemapCall = RemapCall(input: string, mapping: string, output: string)

  /** What a run did: its exit status, the remapper call if one was made, the class
      files written under `classes/` (keyed by jar entry name), the decompiler jobs,
      and the hashes map written back (None when the file is not rewritten). */
  datatype UnpackRun = UnpackRun(
    exitCode: int,
    remap: Option<RemapCall>,
    classFiles: map<string, Bytes>,
    jobs: seq<DecompileJob>,
    savedHashes: Option<map<string, Digest>>)

  function HashesFile(output: string): string { output + "/class_hashes" }

  /** `args.output + '/' + stdout.strip()`: the downloaded server jar. */
  function ServerJar(output: string, stdout: string): string {
    output + "/" + Strip(stdout)
  }

  /** The saved hashes, or the empty map when the hashes file is missing. */
  function PriorHashes(output: string, files: set<string>, stored: map<string, Digest>): map<string, Digest> {
    if HashesFile(output) in files then stored else map[]
  }

  /** The remapper call the run makes, if the remapped jar is not there yet. */
  function RemapFor(serverJar: string, files: set<string>, abspath: string -> string): Option<RemapCall> {
    if RemapJar(serverJar) in files then None
    else Some(RemapCall(serverJar, "file://" + abspath(MappingFile(serverJar)), RemapJar(serverJar)))
  }

  method Unpack(
    output: string, downloader: ToolResult, files: set<string>, remapperExit: int,
    storedHashes: map<string, Digest>, jar: seq<JarEntry>,
    sha1: Bytes -> Digest, abspath: string -> string,
    fernflowerJar: string, decompile: string -> int)
    returns (run: UnpackRun)
    // a failing snapshot check stops the run before anything else
    ensures downloader.returnCode != 0 ==> run == UnpackRun(1, None, map[], [], None)
    // the remapper runs exactly when the remapped jar is missing
    ensures downloader.returnCode == 0 ==>
              run.remap == RemapFor(ServerJar(output, downloader.stdout), files, abspath)
    ensures run.exitCode == 1 <==> downloader.returnCode != 0 || (run.remap.Some? && remapperExit != 0)
    ensures run.exitCode == 1 ==> run.classFiles == map[] && run.jobs == [] && run.savedHashes == None
    // otherwise: scan, early exit when nothing changed, decompile, save
    ensures run.exitCode != 1 ==>
              var prior := PriorHashes(output, files, storedHashes);
              var changed := Changed(prior, jar, |jar|, sha1);
              && run.exitCode == 0
              && run.classFiles == (map k | k in changed :: Lookup(jar, k))
              && (changed == [] ==> run.jobs == [] && run.savedHashes == None)
              && (changed != [] ==>
                    && run.jobs == DecompileJobs(changed, |changed|, output, fernflowerJar, decompile)
                    && run.savedHashes == Some(Rescan(prior, jar, |jar|, sha1)))
  {
    if downloader.returnCode != 0 {
      return UnpackRun(1, None, map[], [], None);
    }
    var serverJar := ServerJar(output, downloader.stdout);
    var serverMapping := MappingFile(serverJar);
    var serverRemapJar := RemapJar(serverJar);
    var remap: Option<RemapCall> := None;
    if serverRemapJar !in files {
      remap := Some(RemapCall(serverJar, "file://" + abspath(serverMapping), serverRemapJar));
      if remapperExit != 0 {
        return UnpackRun(1, remap, map[], [], None);
      }
    }
    var prior := if HashesFile(output) in files then storedHashes else map[];
    var written, jobs, saved := ProcessJar(prior, jar, sha1, output, fernflowerJar, decompile);
    run := UnpackRun(0, remap, written, jobs, saved);
  }

  /** From loading the hashes to writing them back: scan the jar, take the "nothing has
      changed" exit (the hashes file is then not rewritten), or decompile and save. */
  method ProcessJar(prior: map<string, Digest>, jar: seq<JarEntry>, sha1: Bytes -> Digest,
                    output: string, fernflowerJar: string, decompile: string -> int)
    returns (classFiles: map<string, Bytes>, jobs: seq<DecompileJob>, savedHashes: Option<map<string, Digest>>)
    ensures classFiles == map k | k in Changed(prior, jar, |jar|, sha1) :: Lookup(jar, k)
    ensures Changed(prior, jar, |jar|, sha1) == [] ==> jobs == [] && savedHashes == None
    ensures Changed(prior, jar, |jar|, sha1) != [] ==>
              && jobs == DecompileJobs(Changed(prior, jar, |jar|, sha1), |Changed(prior, jar, |jar|, sha1)|,
                                       output, fernflowerJar, decompile)
              && savedHashes == Some(Rescan(prior, jar, |jar|, sha1))
  {
    var classes, changedClasses;
    classes, changedClasses, classFiles := ScanJar(prior, jar, sha1);
    if |changedClasses| == 0 {
      return classFiles, [], None;
    }
    var num;
    jobs, num := Decompile(changedClasses, output, fernflowerJar, decompile);
    savedHashes := Some(classes);
  }

  /** A second run on the same jar, with the hashes the first run saved, finds nothing
      changed: it takes the "nothing has changed" exit, decompiles nothing and leaves the
      saved file as it is. */
  lemma SecondRunChangesNothing(prior: map<string, Digest>, jar: seq<JarEntry>, sha1: Bytes -> Digest,
                                output: string, fernflowerJar: string, decompile: string -> int)
    ensures var saved := Rescan(prior, jar, |jar|, sha1);
            var changed := Changed(saved, jar, |jar|, sha1);
            && changed == []
            && DecompileJobs(changed, |changed|, output, fernflowerJar, decompile) == []
            && Rescan(saved, jar, |jar|, sha1) == saved
  {
    RescanIdempotent(prior, jar, sha1);
  }
}
