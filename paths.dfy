/**
 * The parts of Python's posixpath that the scripts use: join, splitext and dirname,
 * for paths written as strings with '/' as the separator.
 */
module Paths {
  import opened Strings

  type Path = string

  /** os.path.join of two parts: an absolute b replaces a; otherwise a single '/' goes
      between them unless a is empty or already ends with '/'. */
  function Join(a: Path, b: Path): (r: Path)
    ensures EndsWith(r, b)
  {
    if b != [] && b[0] == '/' then b
    else if a == [] || a[|a| - 1] == '/' then a + b
    else a + "/" + b
  }

  /** Joining cannot create a suffix that has no separator in it: the joined path
      ends with such a suffix exactly when the second part does. */
  lemma JoinEndsWith(a: Path, b: Path, suffix: string)
    requires '/' !in suffix
    ensures EndsWith(Join(a, b), suffix) <==> EndsWith(b, suffix)
  {
    var r := Join(a, b);
    if b == [] || b[0] != '/' {
      var q := JoinPrefix(a);
      assert r == q + b by {
        JoinRelative(a, b);
      }
      if |b| >= |suffix| {
        assert r[|r| - |suffix|..] == b[|b| - |suffix|..];
      } else if |suffix| <= |r| {
        // the '/' that ends q falls inside any suffix longer than b
        assert q != [] && q[|q| - 1] == '/';
        var k := |q| - 1;
        assert r[k] == '/';
        assert r[|r| - |suffix|..][k - (|r| - |suffix|)] == '/';
      }
    }
  }

  /** The test every script uses to pick audio files: the name ends with ".mp3". */
  predicate IsMp3(name: string) {
    EndsWith(name, ".mp3")
  }

  /** s.rfind(c): the last index holding c, or -1. */
  function LastIndexOf(s: string, c: char): (i: int)
    ensures -1 <= i < |s|
    ensures 0 <= i ==> s[i] == c
    ensures forall j :: i < j < |s| ==> s[j] != c
    ensures i < 0 <==> c !in s
  {
    if s == [] then -1
    else if s[|s| - 1] == c then |s| - 1
    else LastIndexOf(s[..|s| - 1], c)
  }

  predicate HasNonDot(s: string) {
    exists k :: 0 <= k < |s| && s[k] != '.'
  }

  /** os.path.splitext(p): the extension runs from the last '.' of the final
      component, unless every character of that component before the dot is
      itself a '.' (leading dots never start an extension); then it is empty. */
  function SplitExt(p: Path): (r: (Path, string))
    ensures r.0 + r.1 == p
  {
    var sep := LastIndexOf(p, '/');
    var dot := LastIndexOf(p, '.');
    if sep < dot && HasNonDot(p[sep + 1..dot]) then (p[..dot], p[dot..]) else (p, "")
  }

  /** The part of p before its extension, as os.path.splitext splits it. */
  function Stem(p: Path): Path {
    SplitExt(p).0
  }

  /** A new extension after the stem of a name with no separator adds none. */
  lemma StemHasNoSlash(file: string, ext: string)
    requires '/' !in file && '/' !in ext
    ensures '/' !in Stem(file) + ext
  {
    var s := Stem(file);
    assert s == file[..|s|];
    forall k | 0 <= k < |s| + |ext| ensures (s + ext)[k] != '/' {
      if k < |s| {
        assert (s + ext)[k] == file[k];
      } else {
        assert (s + ext)[k] == ext[k - |s|];
      }
    }
  }

  /** A dot that follows some other character of the name. */
  predicate HasInnerDot(name: string) {
    exists i, j :: 0 <= i < j < |name| && name[i] != '.' && name[j] == '.'
  }

  /** For a name without '/', splitext finds an extension exactly when some '.'
      follows a character other than '.'; the extension is then one '.' followed by
      no further '.'. */
  lemma ExtensionOfName(name: string)
    requires '/' !in name
    ensures SplitExt(name).1 != [] <==> HasInnerDot(name)
    ensures SplitExt(name).1 != [] ==> SplitExt(name).1[0] == '.' && '.' !in SplitExt(name).1[1..]
  {
    var sep := LastIndexOf(name, '/');
    var dot := LastIndexOf(name, '.');
    if HasInnerDot(name) {
      var i, j :| 0 <= i < j < |name| && name[i] != '.' && name[j] == '.';
      assert j <= dot;
      assert name[..dot][i] != '.';
    }
    if SplitExt(name).1 != [] {
      var ext := SplitExt(name).1;
      assert ext == name[dot..];
      var k :| 0 <= k < |name[..dot]| && name[..dot][k] != '.';
      assert name[k] != '.' && name[dot] == '.';
      forall m | 1 <= m < |ext| ensures ext[m] != '.' {
        assert ext[m] == name[dot + m];
      }
    }
  }

  /** For a file name ending in ".mp3" the stem drops exactly that ".mp3", unless
      everything before it is dots, in which case nothing is dropped. */
  lemma StemOfMp3Name(name: string)
    requires EndsWith(name, ".mp3") && '/' !in name
    ensures Stem(name) == if HasNonDot(name[..|name| - 4]) then name[..|name| - 4] else name
  {
    var n := |name|;
    assert name[n - 4..] == ".mp3";
    assert name[n - 4] == '.' && name[n - 3] == 'm' && name[n - 2] == 'p' && name[n - 1] == '3';
    assert LastIndexOf(name, '.') == n - 4;
    assert LastIndexOf(name, '/') == -1;
    assert name[0..n - 4] == name[..n - 4];
  }

  /** Removing the ".mp3" of a name loses no information when something other than
      dots precedes it: two such names with the same stem are the same name. */
  lemma Mp3StemInjective(a: string, b: string)
    requires EndsWith(a, ".mp3") && '/' !in a && HasNonDot(a[..|a| - 4])
    requires EndsWith(b, ".mp3") && '/' !in b && HasNonDot(b[..|b| - 4])
    ensures Stem(a) == Stem(b) <==> a == b
  {
    StemOfMp3Name(a);
    StemOfMp3Name(b);
    if Stem(a) == Stem(b) {
      assert a == a[..|a| - 4] + a[|a| - 4..];
      assert b == b[..|b| - 4] + b[|b| - 4..];
    }
  }

  /** Two different ".mp3" names can share a stem: when only dots precede the last
      '.', as in ".mp3" or "..mp3", splitext finds no extension and the stem is the
      whole name, which is also the stem of that name followed by ".mp3". */
  lemma Mp3StemCollision(dots: string)
    requires forall k :: 0 <= k < |dots| ==> dots[k] == '.'
    ensures Stem(dots + ".mp3") == Stem(dots + ".mp3" + ".mp3") == dots + ".mp3"
  {
    var short := dots + ".mp3";
    var long := short + ".mp3";
    assert EndsWith(short, ".mp3") && '/' !in short && !HasNonDot(short[..|short| - 4]) by {
      assert short[..|short| - 4] == dots;
      assert forall k :: 0 <= k < |short| ==> short[k] != '/' by {
        forall k | 0 <= k < |short| ensures short[k] != '/' {
          if k >= |dots| { assert short[k] == ".mp3"[k - |dots|]; }
        }
      }
    }
    assert EndsWith(long, ".mp3") && '/' !in long && HasNonDot(long[..|long| - 4]) by {
      assert long[..|long| - 4] == short;
      assert short[|dots| + 1] == 'm';
      assert forall k :: 0 <= k < |long| ==> long[k] != '/' by {
        forall k | 0 <= k < |long| ensures long[k] != '/' {
          if k >= |short| { assert long[k] == ".mp3"[k - |short|]; }
        }
      }
    }
    StemOfMp3Name(short);
    StemOfMp3Name(long);
  }

  predicate AllSlashes(s: string) {
    forall k :: 0 <= k < |s| ==> s[k] == '/'
  }

  /** s.rstrip('/'). */
  function StripTrailingSlashes(s: string): (r: string)
    ensures |r| <= |s| && r == s[..|r|]
    ensures AllSlashes(s[|r|..])
    ensures r == [] || r[|r| - 1] != '/'
  {
    if s != [] && s[|s| - 1] == '/' then
      var r := StripTrailingSlashes(s[..|s| - 1]);
      assert s[|r|..] == s[..|s| - 1][|r|..] + [s[|s| - 1]];
      r
    else s
  }

  /** os.path.dirname: everything before the last '/', with trailing slashes
      removed unless it consists of slashes only. */
  function Dirname(p: Path): (r: Path)
    ensures |r| <= |p| && r == p[..|r|]
    ensures '/' !in p ==> r == []
    ensures r != [] && r[|r| - 1] == '/' ==> AllSlashes(r)
  {
    var head := p[..LastIndexOf(p, '/') + 1];
    if head != [] && !AllSlashes(head) then StripTrailingSlashes(head) else head
  }

  /** What os.path.join puts in front of a relative second part: the first part,
      followed by a '/' unless it is empty or already ends with one. */
  function JoinPrefix(a: Path): Path {
    if a == [] || a[|a| - 1] == '/' then a else a + "/"
  }

  lemma JoinRelative(a: Path, b: Path)
    requires b == [] || b[0] != '/'
    ensures Join(a, b) == JoinPrefix(a) + b
  {
  }

  /** Joining a relative name onto a path that ends with something other than '/'
      puts exactly one '/' between them. */
  lemma JoinAfter(q: Path, j: Path, name: string)
    requires j != [] && j[|j| - 1] != '/' && name != [] && name[0] != '/'
    ensures Join(q + j, name) == q + (j + "/" + name)
  {
    assert (q + j)[|q + j| - 1] == j[|j| - 1];
  }

  /** rfind returns the position of c that has no c after it. */
  lemma LastIndexAt(s: string, c: char, k: int)
    requires 0 <= k < |s| && s[k] == c
    requires forall j :: k < j < |s| ==> s[j] != c
    ensures LastIndexOf(s, c) == k
  {
  }

  /** The last separator of p == dir + "/" + name, for a name with no '/', is the
      one between them. */
  lemma LastSlashOfChild(dir: Path, name: string, p: Path)
    requires '/' !in name && p == dir + "/" + name
    ensures LastIndexOf(p, '/') == |dir|
  {
    assert p[|dir|] == '/';
    forall j | |dir| < j < |p| ensures p[j] != '/' {
      assert p[j] == name[j - |dir| - 1];
    }
    LastIndexAt(p, '/', |dir|);
  }

  /** A path with a separator-free last component splits back into its parts. */
  lemma ChildInjective(d1: Path, n1: string, d2: Path, n2: string)
    requires '/' !in n1 && '/' !in n2 && d1 + "/" + n1 == d2 + "/" + n2
    ensures d1 == d2 && n1 == n2
  {
    var p := d1 + "/" + n1;
    LastSlashOfChild(d1, n1, p);
    LastSlashOfChild(d2, n2, p);
    assert d1 == p[..|d1|] == d2;
    assert n1 == p[|d1| + 1..] == n2;
  }

  /** Joining onto the same first part keeps relative second parts apart. */
  lemma JoinRelativeInjective(a: Path, b1: Path, b2: Path)
    requires (b1 == [] || b1[0] != '/') && (b2 == [] || b2[0] != '/')
    ensures Join(a, b1) == Join(a, b2) <==> b1 == b2
  {
    JoinRelative(a, b1);
    JoinRelative(a, b2);
    var q := JoinPrefix(a);
    if Join(a, b1) == Join(a, b2) {
      assert b1 == (q + b1)[|q|..] == (q + b2)[|q|..] == b2;
    }
  }

  /** The directory of dir + "/" + name, for a name with no '/' and a directory
      that does not end with one, is that directory. */
  lemma DirnameOfChild(dir: Path, name: string)
    requires dir != [] && dir[|dir| - 1] != '/' && '/' !in name
    ensures Dirname(dir + "/" + name) == dir
  {
    var p := dir + "/" + name;
    LastSlashOfChild(dir, name, p);
    var head := p[..LastIndexOf(p, '/') + 1];
    assert head == dir + "/";
    assert head[|dir| - 1] != '/';
    assert head[..|dir|] == dir;
  }
}
