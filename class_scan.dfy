/** The scan of the remapped jar in unpack.py: every class under `net/minecraft` is
    hashed and compared with the digest saved by the previous run; new or differing
    classes are recorded in the map, listed as changed and written to `classes/`. */
module ClassScan {
  import opened Blobs
  import opened Paths

  const ExtractPrefix: string := "net/minecraft"
  const ExtractSuffix: string := ".class"

  /** One entry of the jar, in the order `ZipFile.infolist()` enumerates them. */
  datatype JarEntry = JarEntry(name: string, data: Bytes)

  /** The filter of the scan: only class files under `net/minecraft` are looked at. */
  predicate Extracted(name: string) {
    StartsWith(name, ExtractPrefix) && EndsWith(name, ExtractSuffix)
  }

  /** `jar.read(name)`: a zip archive may hold several entries of one name, and reading
      by name yields the data of the LAST of them (the empty blob for a name that is
      absent, which the scan never asks for). */
  function Lookup(jar: seq<JarEntry>, name: string): Bytes
    decreases |jar|
  {
    if jar == [] then []
    else if jar[|jar| - 1].name == name then jar[|jar| - 1].data
    else Lookup(jar[..|jar| - 1], name)
  }

  /** Reading by name returns the data of the last entry carrying that name. */
  lemma {:induction false} LookupIsLast(jar: seq<JarEntry>, i: nat)
    requires i < |jar|
    requires forall j :: i < j < |jar| ==> jar[j].name != jar[i].name
    ensures Lookup(jar, jar[i].name) == jar[i].data
    decreases |jar|
  {
    if i < |jar| - 1 {
      var p := jar[..|jar| - 1];
      assert p[i] == jar[i];
      LookupIsLast(p, i);
    }
  }

  /** The digest the scan computes for `name`. */
  function CurrentDigest(jar: seq<JarEntry>, name: string, sha1: Bytes -> Digest): Digest {
    sha1(Lookup(jar, name))
  }

  /** The map does not hold `d` for `name` (it lacks the key or holds another digest):
      the test `not name in classes or sha1 != classes[name]`. */
  predicate Differs(hashes: map<string, Digest>, name: string, d: Digest) {
    name !in hashes || hashes[name] != d
  }

  /** Entry `i` is the first entry of its name. */
  predicate FirstAt(jar: seq<JarEntry>, i: nat)
    requires i < |jar|
  {
    forall j :: 0 <= j < i ==> jar[j].name != jar[i].name
  }

  /** The name occurs among the first `n` entries. */
  predicate InPrefix(jar: seq<JarEntry>, n: nat, name: string)
    requires n <= |jar|
  {
    exists j :: 0 <= j < n && jar[j].name == name
  }

  /** The name passes the filter and occurs among the first `n` entries. */
  predicate Seen(jar: seq<JarEntry>, n: nat, name: string)
    requires n <= |jar|
  {
    Extracted(name) && InPrefix(jar, n, name)
  }

  /** Reference definition of `changedClasses` after the first `n` entries: each
      extracted name, at its first occurrence, when the saved map lacks its digest. */
  function Changed(prior: map<string, Digest>, jar: seq<JarEntry>, n: nat, sha1: Bytes -> Digest): seq<string>
    requires n <= |jar|
    decreases n
  {
    if n == 0 then []
    else
      var name := jar[n - 1].name;
      Changed(prior, jar, n - 1, sha1)
      + (if Extracted(name) && FirstAt(jar, n - 1) && Differs(prior, name, CurrentDigest(jar, name, sha1))
         then [name] else [])
  }

  /** Reference definition of the `classes` map after the first `n` entries: the saved
      map with the current digest stored under every extracted name seen so far. */
  function Rescan(prior: map<string, Digest>, jar: seq<JarEntry>, n: nat, sha1: Bytes -> Digest): map<string, Digest>
    requires n <= |jar|
    decreases n
  {
    if n == 0 then prior
    else
      var m := Rescan(prior, jar, n - 1, sha1);
      var name := jar[n - 1].name;
      if Extracted(name) then m[name := CurrentDigest(jar, name, sha1)] else m
  }

  /** Every extracted name in the jar, at its first occurrence, in enumeration order. */
  function ExtractedInOrder(jar: seq<JarEntry>, n: nat): seq<string>
    requires n <= |jar|
    decreases n
  {
    if n == 0 then []
    else ExtractedInOrder(jar, n - 1)
         + (if Extracted(jar[n - 1].name) && FirstAt(jar, n - 1) then [jar[n - 1].name] else [])
  }

  /** One more entry adds its own name to those seen. */
  lemma InPrefixStep(jar: seq<JarEntry>, n: nat, k: string)
    requires 0 < n <= |jar|
    ensures InPrefix(jar, n, k) <==> InPrefix(jar, n - 1, k) || jar[n - 1].name == k
  {
    if InPrefix(jar, n - 1, k) {
      var j :| 0 <= j < n - 1 && jar[j].name == k;
      assert 0 <= j < n && jar[j].name == k;
    }
    if jar[n - 1].name == k {
      assert 0 <= n - 1 < n && jar[n - 1].name == k;
    }
  }

  /** After the first `n` entries, every extracted name seen holds its current digest;
      every other key is kept exactly as the saved map had it, and no other key appears. */
  lemma {:induction false} RescanAt(prior: map<string, Digest>, jar: seq<JarEntry>, n: nat, sha1: Bytes -> Digest, k: string)
    requires n <= |jar|
    ensures var m := Rescan(prior, jar, n, sha1);
            && (k in m <==> k in prior || Seen(jar, n, k))
            && (Seen(jar, n, k) ==> m[k] == CurrentDigest(jar, k, sha1))
            && (k in prior && !Seen(jar, n, k) ==> m[k] == prior[k])
    decreases n
  {
    if n > 0 {
      RescanAt(prior, jar, n - 1, sha1, k);
      InPrefixStep(jar, n, k);
    }
  }

  /** The map the scan leaves: the classes of the jar hold their current digests, and
      keys of classes that left the jar keep their saved digests (they are never pruned). */
  lemma RescanContents(prior: map<string, Digest>, jar: seq<JarEntry>, sha1: Bytes -> Digest, k: string)
    ensures var m := Rescan(prior, jar, |jar|, sha1);
            && (k in m <==> k in prior || (Extracted(k) && InPrefix(jar, |jar|, k)))
            && (Extracted(k) && InPrefix(jar, |jar|, k) ==> m[k] == CurrentDigest(jar, k, sha1))
            && (k in prior && !(Extracted(k) && InPrefix(jar, |jar|, k)) ==> m[k] == prior[k])
  {
    RescanAt(prior, jar, |jar|, sha1, k);
  }

  /** A key is listed as changed iff it passes the filter, occurs in the jar, and the
      saved map lacks it or holds a different digest. */
  lemma {:induction false} ChangedMember(prior: map<string, Digest>, jar: seq<JarEntry>, n: nat, sha1: Bytes -> Digest, k: string)
    requires n <= |jar|
    ensures k in Changed(prior, jar, n, sha1)
            <==> Extracted(k) && InPrefix(jar, n, k) && Differs(prior, k, CurrentDigest(jar, k, sha1))
    decreases n
  {
    if n > 0 {
      ChangedMember(prior, jar, n - 1, sha1, k);
      InPrefixStep(jar, n, k);
      if InPrefix(jar, n, k) && !InPrefix(jar, n - 1, k) {
        assert FirstAt(jar, n - 1);
      }
    }
  }

  /** No key is listed twice. */
  lemma {:induction false} ChangedNoDuplicates(prior: map<string, Digest>, jar: seq<JarEntry>, n: nat, sha1: Bytes -> Digest)
    requires n <= |jar|
    ensures NoDuplicates(Changed(prior, jar, n, sha1))
    decreases n
  {
    if n > 0 {
      ChangedNoDuplicates(prior, jar, n - 1, sha1);
      var name := jar[n - 1].name;
      if Extracted(name) && FirstAt(jar, n - 1) {
        ChangedMember(prior, jar, n - 1, sha1, name);
      }
    }
  }

  /** The list grows only at its end: what was found among earlier entries stays in
      front, so the list follows enumeration order. */
  lemma {:induction false} ChangedPrefix(prior: map<string, Digest>, jar: seq<JarEntry>, m: nat, n: nat, sha1: Bytes -> Digest)
    requires m <= n <= |jar|
    ensures |Changed(prior, jar, m, sha1)| <= |Changed(prior, jar, n, sha1)|
    ensures Changed(prior, jar, m, sha1) == Changed(prior, jar, n, sha1)[..|Changed(prior, jar, m, sha1)|]
    decreases n
  {
    if m < n {
      ChangedPrefix(prior, jar, m, n - 1, sha1);
    }
  }

  /** Missing hashes file (empty saved map): every extracted name is changed, once,
      in enumeration order. */
  lemma {:induction false} FirstRunChangesAll(jar: seq<JarEntry>, n: nat, sha1: Bytes -> Digest)
    requires n <= |jar|
    ensures Changed(map[], jar, n, sha1) == ExtractedInOrder(jar, n)
    decreases n
  {
    if n > 0 {
      FirstRunChangesAll(jar, n - 1, sha1);
    }
  }

  /** Entry `i` has not been seen before iff it is the first of its name. */
  lemma FirstAtNotSeen(jar: seq<JarEntry>, i: nat)
    requires i < |jar|
    ensures FirstAt(jar, i) <==> !InPrefix(jar, i, jar[i].name)
  {
    if !FirstAt(jar, i) {
      var j :| 0 <= j < i && jar[j].name == jar[i].name;
    }
  }

  /** One step of the scan loop, which tests the running map rather than the saved one:
      the two agree, because a name seen before already holds its current digest. When
      the test succeeds, the digest is stored and the name is appended. */
  lemma ScanStepChanges(prior: map<string, Digest>, jar: seq<JarEntry>, i: nat, sha1: Bytes -> Digest)
    requires i < |jar| && Extracted(jar[i].name)
    requires Differs(Rescan(prior, jar, i, sha1), jar[i].name, CurrentDigest(jar, jar[i].name, sha1))
    ensures Rescan(prior, jar, i + 1, sha1)
            == Rescan(prior, jar, i, sha1)[jar[i].name := CurrentDigest(jar, jar[i].name, sha1)]
    ensures Changed(prior, jar, i + 1, sha1) == Changed(prior, jar, i, sha1) + [jar[i].name]
  {
    RescanAt(prior, jar, i, sha1, jar[i].name);
    FirstAtNotSeen(jar, i);
  }

  /** When the test fails (or the entry is filtered out), neither the map nor the
      list changes. */
  lemma ScanStepKeeps(prior: map<string, Digest>, jar: seq<JarEntry>, i: nat, sha1: Bytes -> Digest)
    requires i < |jar|
    requires !Extracted(jar[i].name)
             || !Differs(Rescan(prior, jar, i, sha1), jar[i].name, CurrentDigest(jar, jar[i].name, sha1))
    ensures Rescan(prior, jar, i + 1, sha1) == Rescan(prior, jar, i, sha1)
    ensures Changed(prior, jar, i + 1, sha1) == Changed(prior, jar, i, sha1)
  {
    var name := jar[i].name;
    if Extracted(name) {
      var m := Rescan(prior, jar, i, sha1);
      assert m[name := CurrentDigest(jar, name, sha1)] == m;
      RescanAt(prior, jar, i, sha1, name);
      FirstAtNotSeen(jar, i);
    }
  }

  /** If nothing changed, the rescanned map IS the saved map, so skipping the write on
      the "nothing has changed" exit loses nothing. */
  lemma NoChangeKeepsMap(prior: map<string, Digest>, jar: seq<JarEntry>, sha1: Bytes -> Digest)
    requires Changed(prior, jar, |jar|, sha1) == []
    ensures Rescan(prior, jar, |jar|, sha1) == prior
  {
    var m := Rescan(prior, jar, |jar|, sha1);
    forall k ensures (k in m <==> k in prior) && (k in m ==> m[k] == prior[k]) {
      RescanAt(prior, jar, |jar|, sha1, k);
      ChangedMember(prior, jar, |jar|, sha1, k);
    }
  }

  /** Running the scan again on the same jar with the map it produced finds nothing
      changed and leaves the map as it is. */
  lemma RescanIdempotent(prior: map<string, Digest>, jar: seq<JarEntry>, sha1: Bytes -> Digest)
    ensures Changed(Rescan(prior, jar, |jar|, sha1), jar, |jar|, sha1) == []
    ensures Rescan(Rescan(prior, jar, |jar|, sha1), jar, |jar|, sha1) == Rescan(prior, jar, |jar|, sha1)
  {
    var m := Rescan(prior, jar, |jar|, sha1);
    var c := Changed(m, jar, |jar|, sha1);
    if c != [] {
      ChangedMember(m, jar, |jar|, sha1, c[0]);
      RescanAt(prior, jar, |jar|, sha1, c[0]);
      assert false;
    }
    NoChangeKeepsMap(m, jar, sha1);
  }

  /** Adding a key to the changed list adds its bytes to what is written. */
  lemma WrittenGrows(jar: seq<JarEntry>, changed: seq<string>, k: string)
    ensures (map c | c in changed + [k] :: Lookup(jar, c))
            == (map c | c in changed :: Lookup(jar, c))[k := Lookup(jar, k)]
  {
  }

  /** The scan loop of unpack.py. `written` is what goes to `classes/<name>`. */
  method ScanJar(prior: map<string, Digest>, jar: seq<JarEntry>, sha1: Bytes -> Digest)
    returns (classes: map<string, Digest>, changed: seq<string>, written: map<string, Bytes>)
    ensures classes == Rescan(prior, jar, |jar|, sha1)
    ensures changed == Changed(prior, jar, |jar|, sha1)
    ensures written == map k | k in changed :: Lookup(jar, k)
  {
    classes, changed, written := prior, [], map[];
    var i := 0;
    while i < |jar|
      invariant 0 <= i <= |jar|
      invariant classes == Rescan(prior, jar, i, sha1)
      invariant changed == Changed(prior, jar, i, sha1)
      invariant written == map k | k in changed :: Lookup(jar, k)
    {
      var item := jar[i];
      if Extracted(item.name) {
        var classdata := Lookup(jar, item.name);
        var sha := sha1(classdata);
        assert sha == CurrentDigest(jar, item.name, sha1);
        if item.name !in classes || sha != classes[item.name] {
          ScanStepChanges(prior, jar, i, sha1);
          WrittenGrows(jar, changed, item.name);
          classes := classes[item.name := sha];
          changed := changed + [item.name];
          written := written[item.name := classdata];
        } else {
          ScanStepKeeps(prior, jar, i, sha1);
        }
      } else {
        ScanStepKeeps(prior, jar, i, sha1);
      }
      i := i + 1;
    }
  }
}
