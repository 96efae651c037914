/** The Python string and path operations the pipeline's naming chain is built from:
    `str.replace`, `str.strip`, `str.endswith`, and POSIX `os.path.join` and
    `os.path.basename`. */
module PyStr {

  /** `pat` occurs in `s` starting at index `i`. */
  predicate OccursAt(s: string, pat: string, i: nat) {
    i + |pat| <= |s| && s[i..i + |pat|] == pat
  }

  /** `s.endswith(suffix)`. */
  predicate EndsWith(s: string, suffix: string) {
    |suffix| <= |s| && s[|s| - |suffix|..] == suffix
  }

  /** `s.replace(pat, rep)`: every non-overlapping occurrence of `pat`, found scanning
      left to right, is replaced by `rep`. An empty `pat` matches before every character
      and at the end, as in Python (`"ab".replace("", "-") == "-a-b-"`). */
  function Replace(s: string, pat: string, rep: string): string
    decreases |s|
  {
    if pat == [] then
      if s == [] then rep else rep + [s[0]] + Replace(s[1..], pat, rep)
    else if s == [] then []
    else if pat <= s then rep + Replace(s[|pat|..], pat, rep)
    else [s[0]] + Replace(s[1..], pat, rep)
  }

  lemma PrefixIsOccurrenceAtZero(s: string, pat: string)
    ensures pat <= s <==> OccursAt(s, pat, 0)
  {
    if |pat| <= |s| {
      assert s[0..|pat|] == s[..|pat|];
    }
  }

  lemma OccursShift(s: string, pat: string, i: nat)
    requires s != []
    ensures OccursAt(s[1..], pat, i) <==> OccursAt(s, pat, i + 1)
  {
    if i + 1 + |pat| <= |s| {
      assert s[1..][i..i + |pat|] == s[i + 1..i + 1 + |pat|];
    }
  }

  /** Replacing a string that does not occur changes nothing. */
  lemma {:induction false} ReplaceAbsent(s: string, pat: string, rep: string)
    requires pat != []
    requires forall i: nat :: i < |s| ==> !OccursAt(s, pat, i)
    ensures Replace(s, pat, rep) == s
  {
    if s != [] {
      assert !OccursAt(s, pat, 0);
      PrefixIsOccurrenceAtZero(s, pat);
      forall i: nat | i < |s[1..]|
        ensures !OccursAt(s[1..], pat, i)
      {
        OccursShift(s, pat, i);
        assert !OccursAt(s, pat, i + 1);
      }
      ReplaceAbsent(s[1..], pat, rep);
      assert [s[0]] + s[1..] == s;
    }
  }

  /** When the only occurrence of `pat` in `s + pat` is the final one, replacing
      rewrites exactly that suffix. */
  lemma {:induction false} ReplaceAtEnd(s: string, pat: string, rep: string)
    requires pat != []
    requires forall i: nat :: i < |s| ==> !OccursAt(s + pat, pat, i)
    ensures Replace(s + pat, pat, rep) == s + rep
  {
    var t := s + pat;
    if s == [] {
      assert t == pat;
      assert t[|pat|..] == [];
    } else {
      assert !OccursAt(t, pat, 0);
      PrefixIsOccurrenceAtZero(t, pat);
      assert t[1..] == s[1..] + pat;
      forall i: nat | i < |s[1..]|
        ensures !OccursAt(s[1..] + pat, pat, i)
      {
        OccursShift(t, pat, i);
        assert !OccursAt(t, pat, i + 1);
      }
      ReplaceAtEnd(s[1..], pat, rep);
      assert [s[0]] + (s[1..] + rep) == s + rep;
    }
  }

  /** A character that appears once in `pat` and never in `s` rules out every
      occurrence of `pat` in `s + pat` except the final one. */
  lemma OnlyFinalOccurrence(s: string, pat: string, k: nat)
    requires k < |pat|
    requires pat[k] !in s
    requires forall j :: 0 <= j < |pat| && j != k ==> pat[j] != pat[k]
    ensures forall i: nat :: i < |s| ==> !OccursAt(s + pat, pat, i)
  {
    var t := s + pat;
    forall i: nat | i < |s|
      ensures !OccursAt(t, pat, i)
    {
      if i + k < |s| {
        assert t[i + k] == s[i + k];
      } else {
        assert t[i + k] == pat[i + k - |s|];
      }
      assert t[i..i + |pat|][k] != pat[k];
    }
  }

  /** Replacing a suffix marked by a character that occurs once in it and nowhere
      in the stem rewrites just that suffix. */
  lemma ReplaceMarkedSuffix(stem: string, pat: string, rep: string, k: nat)
    requires k < |pat|
    requires pat[k] !in stem
    requires forall j :: 0 <= j < |pat| && j != k ==> pat[j] != pat[k]
    ensures Replace(stem + pat, pat, rep) == stem + rep
  {
    OnlyFinalOccurrence(stem, pat, k);
    ReplaceAtEnd(stem, pat, rep);
  }

  /** Replacing one character by another is a pointwise map: the length is kept and
      no copy of the old character is left behind. */
  lemma {:induction false} ReplaceChar(s: string, a: char, b: char)
    ensures |Replace(s, [a], [b])| == |s|
    ensures forall i :: 0 <= i < |s| ==>
      Replace(s, [a], [b])[i] == (if s[i] == a then b else s[i])
  {
    if s != [] {
      ReplaceChar(s[1..], a, b);
      var head := if s[0] == a then b else s[0];
      if [a] <= s {
        assert s[|[a]|..] == s[1..];
      }
      assert Replace(s, [a], [b]) == [head] + Replace(s[1..], [a], [b]);
    }
  }

  /** Python's `str.isspace` on one character. */
  predicate IsSpace(c: char) {
    c == ' ' || c == '\t' || c == '\n' || c == '\r' || c == '\U{000B}' || c == '\U{000C}'
    || ('\U{001C}' <= c <= '\U{001F}') || c == '\U{0085}' || c == '\U{00A0}'
    || c == '\U{1680}' || ('\U{2000}' <= c <= '\U{200A}') || c == '\U{2028}'
    || c == '\U{2029}' || c == '\U{202F}' || c == '\U{205F}' || c == '\U{3000}'
  }

  /** The first index at or after `lo` that does not hold whitespace, or |s|. */
  function FirstContent(s: string, lo: nat): (i: nat)
    requires lo <= |s|
    ensures lo <= i <= |s|
    ensures forall k :: lo <= k < i ==> IsSpace(s[k])
    ensures i == |s| || !IsSpace(s[i])
    decreases |s| - lo
  {
    if lo < |s| && IsSpace(s[lo]) then FirstContent(s, lo + 1) else lo
  }

  /** The end of the last non-whitespace character in `s[lo..hi]`, or `lo`. */
  function LastContent(s: string, lo: nat, hi: nat): (j: nat)
    requires lo <= hi <= |s|
    ensures lo <= j <= hi
    ensures forall k :: j <= k < hi ==> IsSpace(s[k])
    ensures j == lo || !IsSpace(s[j - 1])
    decreases hi
  {
    if lo < hi && IsSpace(s[hi - 1]) then LastContent(s, lo, hi - 1) else hi
  }

  /** `s.strip()`: the slice between the leading and the trailing whitespace. */
  function Strip(s: string): (r: string)
    ensures |r| <= |s|
    ensures r == [] || (!IsSpace(r[0]) && !IsSpace(r[|r| - 1]))
  {
    var i := FirstContent(s, 0);
    var j := LastContent(s, i, |s|);
    assert i < j ==> s[i..j][0] == s[i] && s[i..j][j - i - 1] == s[j - 1];
    s[i..j]
  }

  /** `s.strip()` is the slice of `s` between its leading and trailing whitespace;
      it is empty exactly when `s` is all whitespace, and otherwise starts and ends
      with a non-space character. */
  lemma StripIsTrimmedSlice(s: string)
    ensures exists i, j ::
      (0 <= i <= j <= |s| && Strip(s) == s[i..j]
       && (forall k :: 0 <= k < i ==> IsSpace(s[k]))
       && (forall k :: j <= k < |s| ==> IsSpace(s[k])))
    ensures Strip(s) == [] <==> forall k :: 0 <= k < |s| ==> IsSpace(s[k])
    ensures Strip(s) != [] ==> !IsSpace(Strip(s)[0]) && !IsSpace(Strip(s)[|Strip(s)| - 1])
  {
    var i := FirstContent(s, 0);
    var j := LastContent(s, i, |s|);
    StripBounds(s, i, j, Strip(s));
  }

  /** A slice of `s` with only whitespace around it, starting with a non-space
      character when it is not empty, is empty exactly when `s` is all whitespace. */
  lemma StripBounds(s: string, i: nat, j: nat, r: string)
    requires i <= j <= |s| && r == s[i..j]
    requires forall k :: 0 <= k < i ==> IsSpace(s[k])
    requires forall k :: j <= k < |s| ==> IsSpace(s[k])
    requires i == j || !IsSpace(s[i])
    ensures r == [] <==> forall k :: 0 <= k < |s| ==> IsSpace(s[k])
    ensures exists i, j ::
      (0 <= i <= j <= |s| && r == s[i..j]
       && (forall k :: 0 <= k < i ==> IsSpace(s[k]))
       && (forall k :: j <= k < |s| ==> IsSpace(s[k])))
  {
    if r == [] {
      assert i == j;
    }
  }

  /** A string without edge whitespace is its own strip. */
  lemma StripTrimmed(s: string)
    requires s == [] || (!IsSpace(s[0]) && !IsSpace(s[|s| - 1]))
    ensures Strip(s) == s
  {
    assert FirstContent(s, 0) == 0;
    assert LastContent(s, 0, |s|) == |s|;
    assert s[0..|s|] == s;
  }

  /** `os.path.join(a, b)` on POSIX: an absolute `b` discards `a`; otherwise a single
      `/` is put between them unless `a` is empty or already ends with `/`. */
  function Join(a: string, b: string): string {
    if b != [] && b[0] == '/' then b
    else if a == [] || a[|a| - 1] == '/' then a + b
    else a + "/" + b
  }

  /** `os.path.basename(p)`: the longest suffix of `p` without `/`. */
  function Basename(p: string): (r: string)
    ensures |r| <= |p| && r == p[|p| - |r|..]
    ensures '/' !in r
    ensures |r| < |p| ==> p[|p| - |r| - 1] == '/'
  {
    if p == [] || p[|p| - 1] == '/' then [] else Basename(p[..|p| - 1]) + [p[|p| - 1]]
  }

  /** The three properties in Basename's contract determine its result. */
  lemma BasenameUnique(p: string, r: string)
    requires |r| <= |p| && r == p[|p| - |r|..]
    requires '/' !in r
    requires |r| < |p| ==> p[|p| - |r| - 1] == '/'
    ensures r == Basename(p)
  {
  }

  /** The basename of a file placed in a directory is the file's own name. */
  lemma BasenameOfJoin(dir: string, name: string)
    requires '/' !in name
    ensures Basename(Join(dir, name)) == name
  {
    var p := Join(dir, name);
    assert p[|p| - |name|..] == name;
    if |name| < |p| {
      assert p[|p| - |name| - 1] == '/';
    }
    BasenameUnique(p, name);
  }

  /** Joining a relative name onto a directory ends the path with that name. */
  lemma JoinKeepsName(dir: string, name: string)
    requires name == [] || name[0] != '/'
    ensures EndsWith(Join(dir, name), name)
  {
    var p := Join(dir, name);
    assert p[|p| - |name|..] == name;
  }

  lemma EndsWithAppend(a: string, b: string)
    ensures EndsWith(a + b, b)
  {
    assert (a + b)[|a + b| - |b|..] == b;
  }

  lemma EndsWithTransitive(p: string, name: string, suffix: string)
    requires EndsWith(p, name) && EndsWith(name, suffix)
    ensures EndsWith(p, suffix)
  {
    assert p[|p| - |suffix|..] == p[|p| - |name|..][|name| - |suffix|..];
  }

  lemma Associative<T>(a: seq<T>, b: seq<T>, c: seq<T>)
    ensures a + (b + c) == (a + b) + c
  {
  }

  /** A character missing from both parts is missing from their concatenation. */
  lemma NotInConcat(c: char, a: string, b: string)
    requires c !in a && c !in b
    ensures c !in a + b
  {
    assert forall i :: 0 <= i < |a + b| ==> (a + b)[i] == (if i < |a| then a[i] else b[i - |a|]);
  }

  /** A file `<stem><suffix>` placed in a directory, with its suffix marked by a
      character the stem lacks, is renamed by replacing the suffix in its basename. */
  lemma RenamedInDir(dir: string, stem: string, suffix: string, rep: string, k: nat)
    requires '/' !in stem && '/' !in suffix
    requires k < |suffix| && suffix[k] !in stem
    requires forall j :: 0 <= j < |suffix| && j != k ==> suffix[j] != suffix[k]
    ensures Replace(Basename(Join(dir, stem + suffix)), suffix, rep) == stem + rep
  {
    NotInConcat('/', stem, suffix);
    BasenameOfJoin(dir, stem + suffix);
    ReplaceMarkedSuffix(stem, suffix, rep, k);
  }

  /** Joining a relative name `<x><suffix>` onto a directory without a trailing `/`
      puts one `/` between them. */
  lemma JoinTemplate(dir: string, x: string, suffix: string)
    requires dir != [] && dir[|dir| - 1] != '/'
    requires '/' !in x && suffix != [] && suffix[0] != '/'
    ensures Join(dir, x + suffix) == dir + "/" + x + suffix
  {
    var name := x + suffix;
    assert name[0] != '/' by {
      if x != [] {
        assert name[0] == x[0];
      } else {
        assert name[0] == suffix[0];
      }
    }
    Associative(dir + "/", x, suffix);
  }
}
