/** One run of pack.py: check that the remapped jar and the data file exist, find the
    recorded sources whose file changed, and build the single compiler invocation.
    The file system is a map from path to content (regular files only); the parsed
    `data['sources']` object is a sequence of records in its iteration order. */
module Pack {
  import opened Blobs
  import opened Paths

  /** One item of `data['sources']`: a source path relative to `src/` and its digest. */
  datatype SourceRecord = SourceRecord(path: string, digest: Digest)

  /** What a run did: its exit status, the files it hashed and the missing ones it
      reported (both in enumeration order), the compiler argument list if the compiler
      was invoked, and the compiler's exit code. */
  datatype PackRun = PackRun(
    exitCode: int,
    hashed: seq<string>,
    missing: seq<string>,
    compile: Option<seq<string>>,
    compilerExit: Option<int>)

  /** A dict has one record per key. */
  predicate DistinctPaths(sources: seq<SourceRecord>) {
    forall i, j :: 0 <= i < j < |sources| ==> sources[i].path != sources[j].path
  }

  /** `srcPath + '/' + src`. */
  function SourceFile(srcPath: string, src: string): string {
    srcPath + "/" + src
  }

  /** The recorded file exists and its digest is not the recorded one. */
  predicate IsModified(srcPath: string, rec: SourceRecord, fs: map<string, Bytes>, sha1: Bytes -> Digest) {
    var f := SourceFile(srcPath, rec.path);
    f in fs && sha1(fs[f]) != rec.digest
  }

  /** Reference definition of `modified`: the files of modified records, in order. */
  function Modified(srcPath: string, sources: seq<SourceRecord>, fs: map<string, Bytes>, sha1: Bytes -> Digest): seq<string>
    decreases |sources|
  {
    if sources == [] then []
    else
      var last := sources[|sources| - 1];
      Modified(srcPath, sources[..|sources| - 1], fs, sha1)
      + (if IsModified(srcPath, last, fs, sha1) then [SourceFile(srcPath, last.path)] else [])
  }

  /** The recorded files that do not exist, in order (each one is reported). */
  function Missing(srcPath: string, sources: seq<SourceRecord>, fs: map<string, Bytes>): seq<string>
    decreases |sources|
  {
    if sources == [] then []
    else
      var f := SourceFile(srcPath, sources[|sources| - 1].path);
      Missing(srcPath, sources[..|sources| - 1], fs) + (if f in fs then [] else [f])
  }

  /** The recorded files that exist and are therefore read and hashed, in order. */
  function Hashed(srcPath: string, sources: seq<SourceRecord>, fs: map<string, Bytes>): seq<string>
    decreases |sources|
  {
    if sources == [] then []
    else
      var f := SourceFile(srcPath, sources[|sources| - 1].path);
      Hashed(srcPath, sources[..|sources| - 1], fs) + (if f in fs then [f] else [])
  }

  /** The fixed part of the compiler call. */
  function JavacPrefix(remappedServer: string, recompilePath: string): seq<string> {
    ["javac", "-source", "1.8", "-target", "1.8", "-cp", remappedServer, "-d", recompilePath]
  }

  /** `os.path.abspath(os.path.dirname(args.data))`. */
  function DataPath(dataFile: string, abspath: string -> string): string {
    abspath(Dirname(dataFile))
  }

  /** A file is a compile candidate iff some record names it, the file exists, and its
      digest differs from the recorded one. */
  lemma {:induction false} ModifiedMember(srcPath: string, sources: seq<SourceRecord>, fs: map<string, Bytes>, sha1: Bytes -> Digest, f: string)
    ensures f in Modified(srcPath, sources, fs, sha1)
            <==> exists i :: 0 <= i < |sources| && f == SourceFile(srcPath, sources[i].path)
                             && IsModified(srcPath, sources[i], fs, sha1)
    decreases |sources|
  {
    if sources != [] {
      var p := sources[..|sources| - 1];
      ModifiedMember(srcPath, p, fs, sha1, f);
      if exists i :: 0 <= i < |p| && f == SourceFile(srcPath, p[i].path) && IsModified(srcPath, p[i], fs, sha1) {
        var i :| 0 <= i < |p| && f == SourceFile(srcPath, p[i].path) && IsModified(srcPath, p[i], fs, sha1);
        assert sources[i] == p[i];
      }
      if exists i :: 0 <= i < |sources| && f == SourceFile(srcPath, sources[i].path) && IsModified(srcPath, sources[i], fs, sha1) {
        var i :| 0 <= i < |sources| && f == SourceFile(srcPath, sources[i].path) && IsModified(srcPath, sources[i], fs, sha1);
        if i < |p| {
          assert sources[i] == p[i];
        }
      }
    }
  }

  /** Different keys give different files. */
  lemma SourceFileInjective(srcPath: string, a: string, b: string)
    requires SourceFile(srcPath, a) == SourceFile(srcPath, b)
    ensures a == b
  {
    var n := |srcPath| + 1;
    assert a == SourceFile(srcPath, a)[n..];
    assert b == SourceFile(srcPath, b)[n..];
  }

  /** A file on disk that no record names is never a compile candidate. */
  lemma UntrackedNeverCompiled(srcPath: string, sources: seq<SourceRecord>, fs: map<string, Bytes>, sha1: Bytes -> Digest, src: string)
    requires forall i :: 0 <= i < |sources| ==> sources[i].path != src
    ensures SourceFile(srcPath, src) !in Modified(srcPath, sources, fs, sha1)
  {
    ModifiedMember(srcPath, sources, fs, sha1, SourceFile(srcPath, src));
    if SourceFile(srcPath, src) in Modified(srcPath, sources, fs, sha1) {
      var i :| 0 <= i < |sources| && SourceFile(srcPath, src) == SourceFile(srcPath, sources[i].path)
                && IsModified(srcPath, sources[i], fs, sha1);
      SourceFileInjective(srcPath, src, sources[i].path);
    }
  }

  /** Every candidate exists and every reported file is missing, so a recorded file
      that does not exist is only reported, never compiled. */
  lemma {:induction false} MissingNeverCompiled(srcPath: string, sources: seq<SourceRecord>, fs: map<string, Bytes>, sha1: Bytes -> Digest)
    ensures forall f :: f in Modified(srcPath, sources, fs, sha1) ==> f in fs
    ensures forall f :: f in Missing(srcPath, sources, fs) ==> f !in fs && f !in Modified(srcPath, sources, fs, sha1)
    decreases |sources|
  {
    if sources != [] {
      MissingNeverCompiled(srcPath, sources[..|sources| - 1], fs, sha1);
    }
  }

  /** The hashed files and the reported-missing files together number exactly the
      records. */
  lemma {:induction false} HashedOrMissing(srcPath: string, sources: seq<SourceRecord>, fs: map<string, Bytes>)
    ensures |Hashed(srcPath, sources, fs)| + |Missing(srcPath, sources, fs)| == |sources|
    decreases |sources|
  {
    if sources != [] {
      HashedOrMissing(srcPath, sources[..|sources| - 1], fs);
    }
  }

  /** Candidates follow the iteration order: those of earlier records come first. */
  lemma {:induction false} ModifiedAppend(srcPath: string, a: seq<SourceRecord>, b: seq<SourceRecord>, fs: map<string, Bytes>, sha1: Bytes -> Digest)
    ensures Modified(srcPath, a + b, fs, sha1) == Modified(srcPath, a, fs, sha1) + Modified(srcPath, b, fs, sha1)
    decreases |b|
  {
    if b == [] {
      assert a + b == a;
    } else {
      var b' := b[..|b| - 1];
      assert (a + b)[..|a + b| - 1] == a + b';
      ModifiedAppend(srcPath, a, b', fs, sha1);
    }
  }

  /** With one record per key, no file is a candidate twice. */
  lemma {:induction false} ModifiedNoDuplicates(srcPath: string, sources: seq<SourceRecord>, fs: map<string, Bytes>, sha1: Bytes -> Digest)
    requires DistinctPaths(sources)
    ensures NoDuplicates(Modified(srcPath, sources, fs, sha1))
    decreases |sources|
  {
    if sources != [] {
      var p := sources[..|sources| - 1];
      var last := sources[|sources| - 1];
      assert DistinctPaths(p);
      ModifiedNoDuplicates(srcPath, p, fs, sha1);
      var f := SourceFile(srcPath, last.path);
      if f in Modified(srcPath, p, fs, sha1) {
        ModifiedMember(srcPath, p, fs, sha1, f);
        var i :| 0 <= i < |p| && f == SourceFile(srcPath, p[i].path) && IsModified(srcPath, p[i], fs, sha1);
        assert sources[i] == p[i];
        SourceFileInjective(srcPath, last.path, p[i].path);
        assert false;
      }
    }
  }

  /** When every existing recorded file still has its recorded digest, there is
      nothing to compile. */
  lemma {:induction false} UnmodifiedTreeCompilesNothing(srcPath: string, sources: seq<SourceRecord>, fs: map<string, Bytes>, sha1: Bytes -> Digest)
    requires forall i :: 0 <= i < |sources| ==> !IsModified(srcPath, sources[i], fs, sha1)
    ensures Modified(srcPath, sources, fs, sha1) == []
    decreases |sources|
  {
    if sources != [] {
      var p := sources[..|sources| - 1];
      assert forall i :: 0 <= i < |p| ==> p[i] == sources[i];
      UnmodifiedTreeCompilesNothing(srcPath, p, fs, sha1);
    }
  }

  /** When exactly one record's file was edited, the compiler gets exactly that file. */
  lemma SingleEditCompilesOne(srcPath: string, sources: seq<SourceRecord>, fs: map<string, Bytes>, sha1: Bytes -> Digest, k: nat)
    requires k < |sources| && IsModified(srcPath, sources[k], fs, sha1)
    requires forall i :: 0 <= i < |sources| && i != k ==> !IsModified(srcPath, sources[i], fs, sha1)
    ensures Modified(srcPath, sources, fs, sha1) == [SourceFile(srcPath, sources[k].path)]
  {
    var front, back := sources[..k], sources[k + 1..];
    assert sources == front + [sources[k]] + back;
    assert forall i :: 0 <= i < |front| ==> front[i] == sources[i];
    assert forall i :: 0 <= i < |back| ==> back[i] == sources[k + 1 + i];
    UnmodifiedTreeCompilesNothing(srcPath, front, fs, sha1);
    UnmodifiedTreeCompilesNothing(srcPath, back, fs, sha1);
    ModifiedAppend(srcPath, front + [sources[k]], back, fs, sha1);
    ModifiedAppend(srcPath, front, [sources[k]], fs, sha1);
    assert Modified(srcPath, [sources[k]], fs, sha1) == [SourceFile(srcPath, sources[k].path)] by {
      assert [sources[k]][..0] == [];
    }
  }

  /** The loop over `data['sources'].items()`. */
  method DetectModified(srcPath: string, sources: seq<SourceRecord>, fs: map<string, Bytes>, sha1: Bytes -> Digest)
    returns (modified: seq<string>, missing: seq<string>, hashed: seq<string>)
    ensures modified == Modified(srcPath, sources, fs, sha1)
    ensures missing == Missing(srcPath, sources, fs)
    ensures hashed == Hashed(srcPath, sources, fs)
  {
    modified, missing, hashed := [], [], [];
    for i := 0 to |sources|
      invariant modified == Modified(srcPath, sources[..i], fs, sha1)
      invariant missing == Missing(srcPath, sources[..i], fs)
      invariant hashed == Hashed(srcPath, sources[..i], fs)
    {
      assert sources[..i + 1][..i] == sources[..i];
      var src, srcHash := sources[i].path, sources[i].digest;
      var filename := srcPath + "/" + src;
      if filename in fs {
        var sha := sha1(fs[filename]);
        hashed := hashed + [filename];
        if sha != srcHash {
          modified := modified + [filename];
        }
      } else {
        missing := missing + [filename];
      }
    }
    assert sources[..|sources|] == sources;
  }

  /** The whole script. The compiler is a parameter mapping its argument list to its
      exit code; the script does not look at that code. */
  method Pack(remappedServer: string, dataFile: string, fs: map<string, Bytes>,
              sources: seq<SourceRecord>, sha1: Bytes -> Digest, abspath: string -> string,
              javac: seq<string> -> int)
    returns (run: PackRun)
    ensures remappedServer !in fs || dataFile !in fs ==> run == PackRun(1, [], [], None, None)
    ensures remappedServer in fs && dataFile in fs ==>
              var srcPath := DataPath(dataFile, abspath) + "/src";
              var modified := Modified(srcPath, sources, fs, sha1);
              && run.exitCode == 0
              && run.hashed == Hashed(srcPath, sources, fs)
              && run.missing == Missing(srcPath, sources, fs)
              && (modified == [] ==> run.compile == None && run.compilerExit == None)
              && (modified != [] ==>
                    var args := JavacPrefix(remappedServer, DataPath(dataFile, abspath) + "/recompile") + modified;
                    run.compile == Some(args) && run.compilerExit == Some(javac(args)))
  {
    if remappedServer !in fs {
      return PackRun(1, [], [], None, None);
    }
    if dataFile !in fs {
      return PackRun(1, [], [], None, None);
    }
    var dataPath := abspath(Dirname(dataFile));
    var srcPath := dataPath + "/src";
    var modified, missing, hashed := DetectModified(srcPath, sources, fs, sha1);
    if |modified| == 0 {
      return PackRun(0, hashed, missing, None, None);
    }
    var recompilePath := dataPath + "/recompile";
    var args := ["javac", "-source", "1.8", "-target", "1.8", "-cp", remappedServer, "-d", recompilePath] + modified;
    var code := javac(args);
    run := PackRun(0, hashed, missing, Some(args), Some(code));
  }
}
