/**
  POSIX path helpers used by the download and imgstore code: `os.path.join`,
  `os.path.basename`, and the slash-collapsing `sanitize_path`.
 */
module Paths {
  import opened Strings

  /** `os.path.join(a, b)` on POSIX: an absolute `b` replaces `a`; otherwise a `/`
      is inserted unless `a` is empty or already ends in `/`. */
  function PathJoin(a: string, b: string): string {
    if |b| > 0 && b[0] == '/' then b
    else if a == [] || a[|a| - 1] == '/' then a + b
    else a + "/" + b
  }

  /** `os.path.basename(p)`: everything after the last `/`. */
  function Basename(p: string): (r: string)
    ensures '/' !in r
    ensures |r| <= |p| && r == p[|p| - |r|..]
  {
    if p == [] then []
    else if p[|p| - 1] == '/' then []
    else Basename(p[..|p| - 1]) + [p[|p| - 1]]
  }

  lemma {:induction false} BasenameAfterSlash(x: string, y: string)
    requires '/' !in y
    ensures Basename(x + "/" + y) == y
    decreases |y|
  {
    var p := x + "/" + y;
    if y == [] {
      assert p[|p| - 1] == '/';
    } else {
      assert p[..|p| - 1] == x + "/" + y[..|y| - 1];
      assert p[|p| - 1] == y[|y| - 1];
      BasenameAfterSlash(x, y[..|y| - 1]);
    }
  }

  lemma {:induction false} BasenameNoSlash(p: string)
    requires '/' !in p
    ensures Basename(p) == p
    decreases |p|
  {
    if p != [] {
      BasenameNoSlash(p[..|p| - 1]);
    }
  }

  /** One step of `Collapse`: a `/` directly followed by `/` is dropped. */
  function ConsCollapse(c: char, y: string): string {
    if c == '/' && |y| > 0 && y[0] == '/' then y else [c] + y
  }

  /** Reference definition: every run of consecutive `/` shrunk to a single `/`. */
  function Collapse(s: string): string {
    if s == [] then [] else ConsCollapse(s[0], Collapse(s[1..]))
  }

  /** The characters of `s` other than `/`, in order. */
  function NonSlash(s: string): string {
    if s == [] then []
    else if s[0] == '/' then NonSlash(s[1..])
    else [s[0]] + NonSlash(s[1..])
  }

  lemma {:induction false} CollapseNoDoubleSlash(s: string)
    ensures !Contains(Collapse(s), "//")
    decreases |s|
  {
    if s != [] {
      CollapseNoDoubleSlash(s[1..]);
      var y := Collapse(s[1..]);
      if !(s[0] == '/' && |y| > 0 && y[0] == '/') {
        var r := [s[0]] + y;
        assert r[1..] == y;
        assert !IsPrefix("//", r) by {
          if |r| >= 2 {
            assert r[..2] == [s[0], y[0]];
          }
        }
      }
    }
  }

  lemma {:induction false} CollapseIdentity(s: string)
    requires !Contains(s, "//")
    ensures Collapse(s) == s
    decreases |s|
  {
    if s != [] {
      CollapseIdentity(s[1..]);
      assert [s[0]] + s[1..] == s;
    }
  }

  /** One pass of `replace("//", "/")` does not change the collapsed form. */
  lemma {:induction false} CollapseReplace(s: string)
    ensures Collapse(ReplaceAll(s, "//", "/")) == Collapse(s)
    decreases |s|
  {
    if IsPrefix("//", s) {
      var t := s[2..];
      CollapseReplace(t);
      assert ("/" + ReplaceAll(t, "//", "/"))[1..] == ReplaceAll(t, "//", "/");
      assert s[1..][1..] == t;
    } else if s != [] {
      CollapseReplace(s[1..]);
      assert ([s[0]] + ReplaceAll(s[1..], "//", "/"))[1..] == ReplaceAll(s[1..], "//", "/");
    }
  }

  lemma {:induction false} CollapseNonSlash(s: string)
    ensures NonSlash(Collapse(s)) == NonSlash(s)
    ensures |Collapse(s)| <= |s|
    decreases |s|
  {
    if s != [] {
      CollapseNonSlash(s[1..]);
      var y := Collapse(s[1..]);
      assert ([s[0]] + y)[1..] == y;
      if s[0] == '/' && |y| > 0 && y[0] == '/' {
        assert NonSlash(y) == NonSlash([s[0]] + y);
      }
    }
  }

  /** Collapsing twice is collapsing once. */
  lemma {:induction false} CollapseIdempotent(s: string)
    ensures Collapse(Collapse(s)) == Collapse(s)
  {
    CollapseNoDoubleSlash(s);
    CollapseIdentity(Collapse(s));
  }

  /** `sanitize_path`: replace `//` by `/` for as long as `//` occurs. */
  method SanitizePath(path: string) returns (r: string)
    ensures r == Collapse(path)
    ensures !Contains(r, "//")
    ensures NonSlash(r) == NonSlash(path) && |r| <= |path|
    ensures !Contains(path, "//") ==> r == path
  {
    r := path;
    while Contains(r, "//")
      invariant Collapse(r) == Collapse(path)
      decreases |r|
    {
      ReplaceLength(r, "//", "/");
      CollapseReplace(r);
      r := ReplaceAll(r, "//", "/");
    }
    CollapseIdentity(r);
    CollapseNonSlash(path);
    if !Contains(path, "//") {
      CollapseIdentity(path);
    }
  }
}
