/** The decompile loop of unpack.py: the changed classes are walked in order, inner
    classes are skipped, and for every other class the per-class paths, the glob
    pattern and the decompiler command line are derived. The decompiler itself is a
    parameter that maps a command line to the exit code it returns. */
module DecompilePlan {
  import opened Paths

  /** One decompiler invocation: its position `num` in the progress count, the class
      key (its paths and command line are derived from it, see `Invocation`) and the
      exit code the decompiler returned. */
  datatype DecompileJob = DecompileJob(num: nat, key: string, exitCode: int)
  {
    /** The progress line carries "[FAILED]". */
    predicate Failed() { exitCode != 0 }
  }

  function ClassesDir(output: string): string { output + "/classes" }
  function JavaDir(output: string): string { output + "/src" }

  /** `basename.find('$') >= 0`: the class is an inner class. */
  predicate IsInnerClass(key: string) {
    '$' in Basename(key)
  }

  /** The invocation for the changed class `key`, counted as number `num`. */
  function NewJob(num: nat, key: string, output: string, fernflowerJar: string, decompile: string -> int): DecompileJob {
    DecompileJob(num, key, decompile(Invocation(output, fernflowerJar, key)))
  }

  /** The command line run for the class `key`. */
  function Invocation(output: string, fernflowerJar: string, key: string): string {
    CommandLine(fernflowerJar, ClassPattern(ClassFile(output, key)), SourceDir(output, key))
  }

  /** `classesOutput + '/' + filename`. */
  function ClassFile(output: string, key: string): string {
    ClassesDir(output) + "/" + key
  }

  /** `os.path.dirname(javaOutput + '/' + filename)`. */
  function SourceDir(output: string, key: string): string {
    Dirname(JavaDir(output) + "/" + key)
  }

  /** The shell command line that runs the decompiler on one pattern. */
  function CommandLine(fernflowerJar: string, pattern: string, srcDir: string): string {
    "java -jar " + fernflowerJar + " -rsy=1 " + pattern + " " + srcDir
  }

  /** The invocations made for the first `n` changed classes: one per outer class, in
      the order of `changed`, each numbered with the class's 1-based position there. */
  function DecompileJobs(changed: seq<string>, n: nat, output: string, fernflowerJar: string, decompile: string -> int): (r: seq<DecompileJob>)
    requires n <= |changed|
    ensures |r| <= n
    ensures forall j :: 0 <= j < |r| ==>
              1 <= r[j].num <= n && r[j].key == changed[r[j].num - 1] && !IsInnerClass(r[j].key)
    ensures forall a, b :: 0 <= a < b < |r| ==> r[a].num < r[b].num
    decreases n
  {
    if n == 0 then []
    else
      DecompileJobs(changed, n - 1, output, fernflowerJar, decompile)
      + (if IsInnerClass(changed[n - 1]) then []
         else [NewJob(n, changed[n - 1], output, fernflowerJar, decompile)])
  }

  /** Every outer class among the first `n` changed ones gets a job with its number. */
  lemma {:induction false} OuterClassHasJob(changed: seq<string>, n: nat, output: string, fernflowerJar: string, decompile: string -> int, i: nat)
    requires i < n <= |changed|
    requires !IsInnerClass(changed[i])
    ensures exists j :: 0 <= j < |DecompileJobs(changed, n, output, fernflowerJar, decompile)|
                        && DecompileJobs(changed, n, output, fernflowerJar, decompile)[j].num == i + 1
    decreases n
  {
    var r := DecompileJobs(changed, n, output, fernflowerJar, decompile);
    var p := DecompileJobs(changed, n - 1, output, fernflowerJar, decompile);
    var tail := if IsInnerClass(changed[n - 1]) then []
                else [NewJob(n, changed[n - 1], output, fernflowerJar, decompile)];
    assert r == p + tail;
    if i < n - 1 {
      OuterClassHasJob(changed, n - 1, output, fernflowerJar, decompile, i);
      var j :| 0 <= j < |p| && p[j].num == i + 1;
      assert r[j] == p[j];
    } else {
      assert r[|p|] == tail[0];
    }
  }

  /** Every job carries the exit code the decompiler returned for the command line
      derived from the job's key. */
  lemma {:induction false} JobsAreDerived(changed: seq<string>, n: nat, output: string, fernflowerJar: string, decompile: string -> int, j: nat)
    requires n <= |changed|
    requires j < |DecompileJobs(changed, n, output, fernflowerJar, decompile)|
    ensures var job := DecompileJobs(changed, n, output, fernflowerJar, decompile)[j];
            job.exitCode == decompile(Invocation(output, fernflowerJar, job.key))
    decreases n
  {
    var r := DecompileJobs(changed, n, output, fernflowerJar, decompile);
    var p := DecompileJobs(changed, n - 1, output, fernflowerJar, decompile);
    var tail := if IsInnerClass(changed[n - 1]) then []
                else [NewJob(n, changed[n - 1], output, fernflowerJar, decompile)];
    assert r == p + tail;
    if j < |p| {
      JobsAreDerived(changed, n - 1, output, fernflowerJar, decompile, j);
      assert r[j] == p[j];
    } else {
      assert r[j] == tail[0];
    }
  }

  /** A key is decompiled iff it is changed and is not an inner class. */
  lemma DecompiledIffOuter(changed: seq<string>, output: string, fernflowerJar: string, decompile: string -> int, k: string)
    ensures (exists j :: 0 <= j < |DecompileJobs(changed, |changed|, output, fernflowerJar, decompile)|
                         && DecompileJobs(changed, |changed|, output, fernflowerJar, decompile)[j].key == k)
            <==> k in changed && !IsInnerClass(k)
  {
    var r := DecompileJobs(changed, |changed|, output, fernflowerJar, decompile);
    if k in changed && !IsInnerClass(k) {
      var i :| 0 <= i < |changed| && changed[i] == k;
      OuterClassHasJob(changed, |changed|, output, fernflowerJar, decompile, i);
      var j :| 0 <= j < |r| && r[j].num == i + 1;
      assert r[j].key == k;
    }
  }

  /** The paths of the job for an extracted class `dir/name.class`: the class file under
      `classes/`, the source directory `src/dir`, and the pattern `classes/dir/name*.class`. */
  lemma JobPaths(dir: string, name: string, output: string)
    requires dir != [] && dir[|dir| - 1] != '/' && '/' !in name
    ensures ClassFile(output, dir + "/" + name + ".class") == output + "/classes/" + dir + "/" + name + ".class"
    ensures SourceDir(output, dir + "/" + name + ".class") == output + "/src/" + dir
    ensures ClassPattern(ClassFile(output, dir + "/" + name + ".class")) == output + "/classes/" + dir + "/" + name + "*.class"
  {
    var key := dir + "/" + name + ".class";
    var d := output + "/src/" + dir;
    calc {
      JavaDir(output) + "/" + key;
      output + "/src" + "/" + (dir + "/" + name + ".class");
      { assert "/src" + "/" == "/src/"; }
      d + "/" + (name + ".class");
    }
    DirnameOfJoin(d, name + ".class");
    var stem := output + "/classes/" + dir + "/" + name;
    calc {
      ClassFile(output, key);
      output + "/classes" + "/" + (dir + "/" + name + ".class");
      { assert "/classes" + "/" == "/classes/"; }
      stem + ".class";
    }
    ClassPatternCovers(stem, "");
  }

  /** The decompile loop: `num` is advanced for every changed class, inner ones
      included, so it ends at the number of changed classes. */
  method Decompile(changed: seq<string>, output: string, fernflowerJar: string, decompile: string -> int)
    returns (jobs: seq<DecompileJob>, num: nat)
    ensures num == |changed|
    ensures jobs == DecompileJobs(changed, |changed|, output, fernflowerJar, decompile)
  {
    jobs, num := [], 0;
    for i := 0 to |changed|
      invariant num == i
      invariant jobs == DecompileJobs(changed, i, output, fernflowerJar, decompile)
    {
      var filename := changed[i];
      num := num + 1;
      if IsInnerClass(filename) {
        continue;
      }
      var classfilename := ClassFile(output, filename);
      var srcdir := SourceDir(output, filename);
      var classpattern := ClassPattern(classfilename);
      var cmdline := CommandLine(fernflowerJar, classpattern, srcdir);
      var code := decompile(cmdline);
      jobs := jobs + [DecompileJob(num, filename, code)];
    }
  }
}
