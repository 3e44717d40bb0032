/** The string operations of Python's `str` and `os.path` (POSIX flavour)
    that the résumé pipeline relies on: `startswith`, `endswith`, `lower`,
    `strip`, `os.path.basename` and `os.path.join`. */
module Text {

  predicate StartsWith(s: string, prefix: string) {
    |prefix| <= |s| && s[..|prefix|] == prefix
  }

  predicate EndsWith(s: string, suffix: string) {
    |suffix| <= |s| && s[|s| - |suffix|..] == suffix
  }

  /** A slice of a slice is a slice of the whole. */
  lemma SliceOfSlice(s: string, i: nat, j: nat, k: nat, l: nat)
    requires i <= j <= |s| && k <= l <= j - i
    ensures s[i..j][k..l] == s[i + k..i + l]
  {
    assert forall m :: 0 <= m < l - k ==> s[i..j][k..l][m] == s[i + k + m];
  }

  /** Being a slice is transitive. */
  lemma SliceTransitive(s: string, a: string, b: string)
    requires exists i, j :: 0 <= i <= j <= |s| && a == s[i..j]
    requires exists k, l :: 0 <= k <= l <= |a| && b == a[k..l]
    ensures exists i, j :: 0 <= i <= j <= |s| && b == s[i..j]
  {
    var i, j :| 0 <= i <= j <= |s| && a == s[i..j];
    var k, l :| 0 <= k <= l <= |a| && b == a[k..l];
    SliceOfSlice(s, i, j, k, l);
    assert 0 <= i + k <= i + l <= |s| && b == s[i + k..i + l];
  }

  // ---------------------------------------------------------------------
  // str.lower
  // ---------------------------------------------------------------------

  function LowerChar(c: char): char {
    if 'A' <= c <= 'Z' then (c as int + 32) as char else c
  }

  /** `s.lower()`, character by character for the letters A to Z: the
      result has the same length, holds no upper-case letter A to Z, and
      differs from `s` only where `s` has one. */
  function Lower(s: string): (r: string)
    ensures |r| == |s|
    ensures forall i :: 0 <= i < |s| ==> r[i] == LowerChar(s[i])
    ensures forall i :: 0 <= i < |r| ==> !('A' <= r[i] <= 'Z')
  {
    seq(|s|, i requires 0 <= i < |s| => LowerChar(s[i]))
  }

  /** Lower-casing works piece by piece: the lower-cased concatenation is
      the concatenation of the lower-cased pieces. */
  lemma LowerAppend(a: string, b: string)
    ensures Lower(a + b) == Lower(a) + Lower(b)
  {
  }

  // ---------------------------------------------------------------------
  // str.strip
  // ---------------------------------------------------------------------

  /** The characters for which Python's `str.isspace` holds. */
  predicate IsSpace(c: char) {
    || c == ' '
    || ('\t' <= c <= '\r')
    || ('\U{1C}' <= c <= '\U{1F}')
    || c == '\U{85}' || c == '\U{A0}' || c == '\U{1680}'
    || ('\U{2000}' <= c <= '\U{200A}')
    || c == '\U{2028}' || c == '\U{2029}' || c == '\U{202F}' || c == '\U{205F}' || c == '\U{3000}'
  }

  /** First index at or after `i` that does not hold white space. */
  function SkipSpace(s: string, i: nat): (k: nat)
    requires i <= |s|
    ensures i <= k <= |s|
    ensures forall m :: i <= m < k ==> IsSpace(s[m])
    ensures k == |s| || !IsSpace(s[k])
    decreases |s| - i
  {
    if i == |s| || !IsSpace(s[i]) then i else SkipSpace(s, i + 1)
  }

  /** Last index `k` at or before `j`, and not before `lo`, such that
      `s[k..j]` is all white space and `s[k-1]` is not. */
  function SkipSpaceBack(s: string, lo: nat, j: nat): (k: nat)
    requires lo <= j <= |s|
    ensures lo <= k <= j
    ensures forall m :: k <= m < j ==> IsSpace(s[m])
    ensures k == lo || !IsSpace(s[k - 1])
    decreases j
  {
    if j == lo || !IsSpace(s[j - 1]) then j else SkipSpaceBack(s, lo, j - 1)
  }

  /** `s.strip()`: the part of `s` between its leading and its trailing white
      space. The result is a slice of `s`, everything cut off is white space,
      and the result neither starts nor ends with white space. */
  function Strip(s: string): (r: string)
    ensures exists i, j ::
              && 0 <= i <= j <= |s| && r == s[i..j]
              && (forall m :: 0 <= m < i ==> IsSpace(s[m]))
              && (forall m :: j <= m < |s| ==> IsSpace(s[m]))
    ensures r == [] || (!IsSpace(r[0]) && !IsSpace(r[|r| - 1]))
  {
    var i := SkipSpace(s, 0);
    var j := SkipSpaceBack(s, i, |s|);
    assert i < j ==> !IsSpace(s[i..j][0]);
    s[i..j]
  }

  /** Stripping a text that is already free of white space at both ends
      returns it unchanged, whatever white space surrounds it. */
  lemma {:induction false} StripPadded(pre: string, m: string, post: string)
    requires forall k :: 0 <= k < |pre| ==> IsSpace(pre[k])
    requires forall k :: 0 <= k < |post| ==> IsSpace(post[k])
    requires m != [] && !IsSpace(m[0]) && !IsSpace(m[|m| - 1])
    ensures Strip(pre + m + post) == m
  {
    var s := pre + m + post;
    assert forall k :: 0 <= k < |pre| ==> IsSpace(s[k]);
    assert !IsSpace(s[|pre|]);
    var i := SkipSpace(s, 0);
    assert i == |pre|;
    assert forall k :: |pre| + |m| <= k < |s| ==> IsSpace(s[k]);
    assert !IsSpace(s[|pre| + |m| - 1]);
    var j := SkipSpaceBack(s, i, |s|);
    assert j == |pre| + |m|;
    assert s[i..j] == m;
  }

  // ---------------------------------------------------------------------
  // os.path.basename and os.path.join (POSIX)
  // ---------------------------------------------------------------------

  /** `os.path.basename(p)`: what follows the last '/'. The result is the
      longest suffix of `p` that holds no '/'. */
  function Basename(p: string): (r: string)
    ensures EndsWith(p, r)
    ensures '/' !in r
    ensures |r| == |p| || p[|p| - |r| - 1] == '/'
    decreases |p|
  {
    if p == [] then []
    else if p[|p| - 1] == '/' then []
    else Basename(p[..|p| - 1]) + [p[|p| - 1]]
  }

  /** `os.path.join(dir, name)` for two components: the joined path ends
      with the name, preceded by nothing or by a '/', and a name that does
      not start with '/' keeps the directory in front. */
  function Join(dir: string, name: string): (r: string)
    ensures EndsWith(r, name)
    ensures |r| == |name| || r[|r| - |name| - 1] == '/'
    ensures StartsWith(name, "/") ==> r == name
    ensures !StartsWith(name, "/") ==> StartsWith(r, dir) && |r| <= |dir| + 1 + |name|
  {
    if StartsWith(name, "/") then name
    else if dir == [] || EndsWith(dir, "/") then
      assert (dir + name)[..|dir|] == dir;
      dir + name
    else
      assert (dir + "/" + name)[..|dir|] == dir;
      dir + "/" + name
  }

  /** A name with no '/' is found again as the base name of the path that
      joins it to any directory. */
  lemma JoinBasename(dir: string, name: string)
    requires '/' !in name
    ensures Basename(Join(dir, name)) == name
  {
    assert |name| > 0 ==> name[0] != '/';
    if dir == [] {
      assert dir + name == name;
      BasenameAfterSlash([], name);
    } else if EndsWith(dir, "/") {
      assert dir[|dir| - 1] == '/';
      BasenameAfterSlash(dir, name);
    } else {
      assert dir + "/" + name == (dir + "/") + name;
      BasenameAfterSlash(dir + "/", name);
    }
  }

  lemma {:induction false} BasenameAfterSlash(x: string, n: string)
    requires x == [] || x[|x| - 1] == '/'
    requires '/' !in n
    ensures Basename(x + n) == n
    decreases |n|
  {
    if n == [] {
      assert x + n == x;
    } else {
      var p, n', c := x + n, n[..|n| - 1], n[|n| - 1];
      assert p[..|p| - 1] == x + n';
      assert p[|p| - 1] == c && c != '/';
      assert Basename(p) == Basename(x + n') + [c];
      BasenameAfterSlash(x, n');
      assert n' + [c] == n;
    }
  }

  lemma EndsWithAfterSlash(pre: string, name: string, ext: string)
    requires pre == [] || pre[|pre| - 1] == '/'
    requires '/' !in ext
    ensures EndsWith(Lower(pre + name), ext) <==> EndsWith(Lower(name), ext)
  {
    LowerAppend(pre, name);
    var l := Lower(pre) + Lower(name);
    if |ext| <= |name| {
      assert l[|l| - |ext|..] == Lower(name)[|name| - |ext|..];
    } else if |ext| <= |l| {
      var k := |ext| - |name| - 1;
      assert l[|l| - |ext|..][k] == '/';
    }
  }

  /** A suffix without '/' ends the lower-cased joined path exactly when it
      ends the lower-cased name. */
  lemma JoinEndsWith(dir: string, name: string, ext: string)
    requires '/' !in ext
    ensures EndsWith(Lower(Join(dir, name)), ext) <==> EndsWith(Lower(name), ext)
  {
    var r := Join(dir, name);
    var pre := r[..|r| - |name|];
    assert r == pre + name;
    EndsWithAfterSlash(pre, name, ext);
  }
}
