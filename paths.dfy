/** The string rules of the scripts: Python's `startswith`/`endswith`, negative slices,
    `str.strip()`, `os.path.basename`/`os.path.dirname` (POSIX), and the file names
    unpack.py derives from the downloaded server jar. */
module Paths {

  predicate StartsWith(s: string, prefix: string) {
    |prefix| <= |s| && s[..|prefix|] == prefix
  }

  predicate EndsWith(s: string, suffix: string) {
    |suffix| <= |s| && s[|s| - |suffix|..] == suffix
  }

  /** Python's `s[:-n]` for n > 0: everything but the last n characters,
      and the empty string when `s` is shorter than n. */
  function DropLast(s: string, n: nat): (r: string)
    requires 0 < n
    ensures |r| == if n <= |s| then |s| - n else 0
    ensures r == s[..|r|]
  {
    if n <= |s| then s[..|s| - n] else []
  }

  // ---------------------------------------------------------------------
  // str.strip()

  /** The characters for which Python's `str.isspace()` holds. */
  predicate IsSpace(c: char) {
    c == ' ' || ('\t' <= c <= '\r') || ('\U{1C}' <= c <= '\U{1F}')
    || c == '\U{85}' || c == '\U{A0}' || c == '\U{1680}'
    || ('\U{2000}' <= c <= '\U{200A}') || c == '\U{2028}' || c == '\U{2029}'
    || c == '\U{202F}' || c == '\U{205F}' || c == '\U{3000}'
  }

  predicate AllSpace(s: string) {
    forall j :: 0 <= j < |s| ==> IsSpace(s[j])
  }

  /** `s.lstrip()`: the longest suffix of `s` that does not start with white space. */
  function TrimStart(s: string): (r: string)
    ensures |r| <= |s| && r == s[|s| - |r|..]
    ensures r == [] || !IsSpace(r[0])
    ensures AllSpace(s[..|s| - |r|])
    decreases |s|
  {
    if s != [] && IsSpace(s[0]) then TrimStart(s[1..]) else s
  }

  /** `s.rstrip()`: the longest prefix of `s` that does not end with white space. */
  function TrimEnd(s: string): (r: string)
    ensures |r| <= |s| && r == s[..|r|]
    ensures r == [] || !IsSpace(r[|r| - 1])
    ensures AllSpace(s[|r|..])
    decreases |s|
  {
    if s != [] && IsSpace(s[|s| - 1]) then TrimEnd(s[..|s| - 1]) else s
  }

  /** `s.strip()`. */
  function Strip(s: string): string {
    TrimEnd(TrimStart(s))
  }

  /** Leading white space is dropped and nothing after it. */
  lemma {:induction false} TrimStartOf(pre: string, rest: string)
    requires AllSpace(pre)
    requires rest == [] || !IsSpace(rest[0])
    ensures TrimStart(pre + rest) == rest
    decreases |pre|
  {
    if pre == [] {
      assert pre + rest == rest;
    } else {
      assert (pre + rest)[1..] == pre[1..] + rest;
      TrimStartOf(pre[1..], rest);
    }
  }

  /** Trailing white space is dropped and nothing before it. */
  lemma {:induction false} TrimEndOf(rest: string, post: string)
    requires AllSpace(post)
    requires rest == [] || !IsSpace(rest[|rest| - 1])
    ensures TrimEnd(rest + post) == rest
    decreases |post|
  {
    if post == [] {
      assert rest + post == rest;
    } else {
      var s := rest + post;
      assert s[..|s| - 1] == rest + post[..|post| - 1];
      TrimEndOf(rest, post[..|post| - 1]);
    }
  }

  /** Stripping removes exactly the white space around a word: whatever the downloader
      prints around the jar's file name (a trailing newline, say) is dropped and the
      name itself is kept whole. */
  lemma StripSurrounded(pre: string, word: string, post: string)
    requires AllSpace(pre) && AllSpace(post)
    requires word == [] || (!IsSpace(word[0]) && !IsSpace(word[|word| - 1]))
    ensures Strip(pre + word + post) == word
  {
    if word == [] {
      assert pre + word + post == (pre + post) + [];
      TrimStartOf(pre + post, []);
    } else {
      assert pre + word + post == pre + (word + post);
      TrimStartOf(pre, word + post);
      TrimEndOf(word, post);
    }
  }

  // ---------------------------------------------------------------------
  // os.path.basename / os.path.dirname

  /** `p.rfind('/') + 1`: the index just after the last slash, 0 when there is none. */
  function SplitPoint(p: string): (i: nat)
    ensures i <= |p|
    decreases |p|
  {
    if p == [] then 0
    else if p[|p| - 1] == '/' then |p|
    else SplitPoint(p[..|p| - 1])
  }

  /** The split point sits just after a slash (or at 0) and no slash follows it. */
  lemma {:induction false} SplitPointIsAfterLastSlash(p: string)
    ensures SplitPoint(p) == 0 || p[SplitPoint(p) - 1] == '/'
    ensures forall j :: SplitPoint(p) <= j < |p| ==> p[j] != '/'
    decreases |p|
  {
    if p != [] && p[|p| - 1] != '/' {
      var q := p[..|p| - 1];
      SplitPointIsAfterLastSlash(q);
      assert forall j :: 0 <= j < |q| ==> q[j] == p[j];
    }
  }

  /** `os.path.basename(p)`: the text after the last slash. */
  function Basename(p: string): string {
    p[SplitPoint(p)..]
  }

  /** A base name holds no slash, and the path is its head followed by it. */
  lemma BasenameIsLastComponent(p: string)
    ensures '/' !in Basename(p)
    ensures p == p[..SplitPoint(p)] + Basename(p)
  {
    SplitPointIsAfterLastSlash(p);
  }

  predicate AllSlashes(s: string) {
    forall j :: 0 <= j < |s| ==> s[j] == '/'
  }

  /** `s.rstrip('/')`. */
  function TrimTrailingSlashes(s: string): (r: string)
    ensures |r| <= |s| && r == s[..|r|]
    ensures r == [] || r[|r| - 1] != '/'
    ensures AllSlashes(s[|r|..])
    decreases |s|
  {
    if s != [] && s[|s| - 1] == '/' then TrimTrailingSlashes(s[..|s| - 1]) else s
  }

  /** `os.path.dirname(p)`: the head up to the last slash, with its trailing slashes
      removed unless the head consists of slashes only. */
  function Dirname(p: string): string {
    var head := p[..SplitPoint(p)];
    if head != [] && !AllSlashes(head) then TrimTrailingSlashes(head) else head
  }

  /** Joining a directory (not ending in a slash) and a plain file name with "/" and
      splitting it again gives back both parts. */
  lemma DirnameOfJoin(d: string, b: string)
    requires d != [] && d[|d| - 1] != '/'
    requires '/' !in b
    ensures Dirname(d + "/" + b) == d
    ensures Basename(d + "/" + b) == b
  {
    var p := d + "/" + b;
    var i := SplitPoint(p);
    SplitPointIsAfterLastSlash(p);
    assert p[|d|] == '/';
    assert i == |d| + 1;
    var head := p[..i];
    assert head == d + "/";
    assert head[|d| - 1] == d[|d| - 1];
    assert !AllSlashes(head);
    var r := TrimTrailingSlashes(head);
    assert r == head[..|d|] == d;
    assert p[i..] == b;
  }

  // ---------------------------------------------------------------------
  // File names derived from the server jar (unpack.py)

  /** `serverJar[:-3] + 'mapping.txt'`. */
  function MappingFile(serverJar: string): string {
    DropLast(serverJar, 3) + "mapping.txt"
  }

  /** `serverJar[:-3] + 'remap.jar'`. */
  function RemapJar(serverJar: string): string {
    DropLast(serverJar, 3) + "remap.jar"
  }

  /** For a name ending in ".jar", the mapping file and the remapped jar sit beside it
      under the same stem, and neither can be the server jar itself or each other. */
  lemma JarDerivedNames(stem: string)
    ensures MappingFile(stem + ".jar") == stem + ".mapping.txt"
    ensures RemapJar(stem + ".jar") == stem + ".remap.jar"
    ensures RemapJar(stem + ".jar") != stem + ".jar"
    ensures RemapJar(stem + ".jar") != MappingFile(stem + ".jar")
  {
    var j := stem + ".jar";
    assert DropLast(j, 3) == stem + ".";
    assert |RemapJar(j)| == |j| + 6;
    var r, m := RemapJar(j), MappingFile(j);
    assert r[|r| - 1] == 'r' && m[|m| - 1] == 't';
  }

  /** `classFile[:-6] + '*.class'`: the glob that is meant to cover a class and
      its inner classes. */
  function ClassPattern(classFile: string): string {
    DropLast(classFile, 6) + "*.class"
  }

  /** What a shell glob `prefix*suffix` accepts: the star stands for any text
      without a slash. */
  predicate GlobMatches(prefix: string, suffix: string, name: string) {
    |prefix| + |suffix| <= |name|
    && StartsWith(name, prefix) && EndsWith(name, suffix)
    && '/' !in name[|prefix|..|name| - |suffix|]
  }

  /** The pattern of `stem.class` is `stem*.class`, which matches the class itself
      and every inner class `stem$X.class`, but also any sibling class whose name merely
      begins with the same text (`stemX.class`). */
  lemma ClassPatternCovers(stem: string, inner: string)
    requires '/' !in inner
    ensures ClassPattern(stem + ".class") == stem + "*" + ".class"
    ensures GlobMatches(stem, ".class", stem + ".class")
    ensures GlobMatches(stem, ".class", stem + "$" + inner + ".class")
    ensures GlobMatches(stem, ".class", stem + inner + ".class")
  {
    var c := stem + ".class";
    assert DropLast(c, 6) == stem;
    var n := stem + "$" + inner + ".class";
    assert n[..|stem|] == stem;
    assert n[|n| - 6..] == ".class";
    assert n[|stem|..|n| - 6] == "$" + inner;
    var m := stem + inner + ".class";
    assert m[..|stem|] == stem;
    assert m[|m| - 6..] == ".class";
    assert m[|stem|..|m| - 6] == inner;
    assert c[..|stem|] == stem;
    assert c[|c| - 6..] == ".class";
    assert c[|stem|..|c| - 6] == [];
  }
}
