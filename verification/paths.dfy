/** The string and path primitives the management helpers rely on: Python's
    `str.startswith`, `str.endswith`, the substring test `sub in s`,
    `str.rfind`, and POSIX `os.path.join` / `os.path.splitext`. */
module Paths {

  /** The path separator of POSIX paths. */
  const Sep: char := '/'

  /** The extension separator. */
  const ExtSep: char := '.'

  /** `s.startswith(prefix)` */
  predicate StartsWith(s: string, prefix: string)
  {
    |prefix| <= |s| && s[..|prefix|] == prefix
  }

  /** `s.endswith(suffix)` */
  predicate EndsWith(s: string, suffix: string)
  {
    |suffix| <= |s| && s[|s| - |suffix|..] == suffix
  }

  /** `sub` occurs in `s` starting at position `i`. */
  predicate OccursAt(s: string, sub: string, i: int)
  {
    0 <= i && i + |sub| <= |s| && s[i..i + |sub|] == sub
  }

  /** Python's `sub in s`: a scan of the suffixes of `s` for one that starts
      with `sub`. The empty string occurs in every string. */
  predicate Contains(s: string, sub: string)
    decreases |s|
  {
    StartsWith(s, sub) || (|s| > 0 && Contains(s[1..], sub))
  }

  /** The scan agrees with the positional definition of a substring. */
  lemma {:induction false} ContainsIff(s: string, sub: string)
    ensures Contains(s, sub) <==> exists i :: OccursAt(s, sub, i)
    decreases |s|
  {
    assert StartsWith(s, sub) <==> OccursAt(s, sub, 0);
    if |s| > 0 {
      ContainsIff(s[1..], sub);
      forall j | 0 <= j
        ensures OccursAt(s[1..], sub, j) <==> OccursAt(s, sub, j + 1)
      {
        if j + |sub| <= |s| - 1 {
          assert s[1..][j..j + |sub|] == s[j + 1..j + 1 + |sub|];
        }
      }
      if exists i :: OccursAt(s, sub, i) {
        var i :| OccursAt(s, sub, i);
        if i > 0 {
          assert OccursAt(s[1..], sub, i - 1);
        }
      }
    } else {
      if exists i :: OccursAt(s, sub, i) {
        var i :| OccursAt(s, sub, i);
        assert i == 0;
      }
    }
  }

  /** `s.rfind(c)` for a single character: the last position holding `c`,
      or -1 when there is none. */
  function RFind(s: string, c: char): (r: int)
    ensures -1 <= r < |s|
    ensures 0 <= r ==> s[r] == c
    ensures forall j :: r < j < |s| ==> s[j] != c
    decreases |s|
  {
    if |s| == 0 then -1
    else if s[|s| - 1] == c then |s| - 1
    else RFind(s[..|s| - 1], c)
  }

  /** `os.path.join(a, b)` on POSIX: an absolute `b` replaces `a`; otherwise
      `b` is appended, with a separator unless `a` is empty or already ends
      with one. */
  function Join(a: string, b: string): (r: string)
    ensures EndsWith(r, b)
    ensures !StartsWith(b, [Sep]) ==> StartsWith(r, a)
  {
    if StartsWith(b, [Sep]) then b
    else if a == [] || EndsWith(a, [Sep]) then a + b
    else a + [Sep] + b
  }

  /** Joining a relative name onto a directory path that does not end with
      a separator inserts exactly one separator. */
  lemma JoinRelative(a: string, b: string)
    requires |a| > 0 && a[|a| - 1] != Sep
    requires |b| == 0 || b[0] != Sep
    ensures Join(a, b) == a + [Sep] + b
  {
    assert !StartsWith(b, [Sep]) by {
      if |b| > 0 {
        assert b[..1][0] == b[0];
      }
    }
    assert !EndsWith(a, [Sep]) by {
      assert a[|a| - 1..][0] == a[|a| - 1];
    }
  }

  /** Some position in `lo..hi` of `p` holds a character other than `.`. */
  predicate HasNonDot(p: string, lo: int, hi: int)
    requires 0 <= lo && hi <= |p|
  {
    exists k :: lo <= k < hi && p[k] != ExtSep
  }

  /** `os.path.splitext(p)` on POSIX: the extension is the text from the
      last `.` of the last path component, unless that component consists
      only of dots before it (a hidden file such as `.bashrc` has no
      extension). */
  function SplitExt(p: string): (r: (string, string))
    ensures r.0 + r.1 == p
    ensures r.1 != [] ==> r.1[0] == ExtSep
    ensures forall j :: 0 < j < |r.1| ==> r.1[j] != ExtSep && r.1[j] != Sep
  {
    var sepIndex := RFind(p, Sep);
    var dotIndex := RFind(p, ExtSep);
    if dotIndex > sepIndex && HasNonDot(p, sepIndex + 1, dotIndex) then
      assert forall j :: 0 < j < |p[dotIndex..]| ==> p[dotIndex..][j] == p[dotIndex + j];
      (p[..dotIndex], p[dotIndex..])
    else
      (p, [])
  }

  /** For a name with no separator, not starting with `.`, that ends with
      `ext` (a `.` followed by non-dot characters), splitext strips exactly
      `ext`. */
  lemma SplitExtOfSuffix(name: string, ext: string)
    requires Sep !in name
    requires |ext| > 0 && ext[0] == ExtSep
    requires forall j :: 0 < j < |ext| ==> ext[j] != ExtSep
    requires EndsWith(name, ext) && !StartsWith(name, [ExtSep])
    ensures SplitExt(name) == (name[..|name| - |ext|], ext)
  {
    var dot := |name| - |ext|;
    assert name[dot..] == ext;
    assert name[dot] == ExtSep;
    assert dot > 0;
    var sepIndex := RFind(name, Sep);
    assert sepIndex == -1;
    var dotIndex := RFind(name, ExtSep);
    assert dotIndex == dot by {
      forall j | dot < j < |name|
        ensures name[j] != ExtSep
      {
        assert name[j] == ext[j - dot];
      }
    }
    assert HasNonDot(name, 0, dotIndex) by {
      assert name[0] != ExtSep;
    }
  }
}
