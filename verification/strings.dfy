/**
  The handful of Python `str` operations the model relies on, on `seq<char>`:
  `sub in s`, `s.replace(old, new)`, `s.split(sep)`, `sep.join(parts)` and
  `s.lstrip(c)`. Matching is leftmost and non-overlapping, as in CPython.
 */
module Strings {

  predicate IsPrefix(p: string, s: string) {
    |p| <= |s| && s[..|p|] == p
  }

  /** Python's `sub in s`. */
  predicate Contains(s: string, sub: string)
    decreases |s|
  {
    IsPrefix(sub, s) || (|s| > 0 && Contains(s[1..], sub))
  }

  /** Python's `s.replace(pat, rep)` for a non-empty `pat`. */
  function ReplaceAll(s: string, pat: string, rep: string): string
    requires |pat| > 0
    decreases |s|
  {
    if IsPrefix(pat, s) then rep + ReplaceAll(s[|pat|..], pat, rep)
    else if s == [] then []
    else [s[0]] + ReplaceAll(s[1..], pat, rep)
  }

  /** Prepends a character to the first piece of a split. */
  function ConsFirst(c: char, parts: seq<string>): seq<string>
    requires |parts| > 0
  {
    [[c] + parts[0]] + parts[1..]
  }

  /** Python's `s.split(sep)` for a non-empty `sep`. */
  function Split(s: string, sep: string): (parts: seq<string>)
    requires |sep| > 0
    ensures |parts| > 0
    decreases |s|
  {
    if s == [] then [[]]
    else if IsPrefix(sep, s) then [[]] + Split(s[|sep|..], sep)
    else ConsFirst(s[0], Split(s[1..], sep))
  }

  /** Python's `sep.join(parts)`. */
  function Join(parts: seq<string>, sep: string): string
  {
    if parts == [] then []
    else if |parts| == 1 then parts[0]
    else parts[0] + sep + Join(parts[1..], sep)
  }

  /** Python's `s.lstrip(c)` for a single character. */
  function LStrip(s: string, c: char): (r: string)
    ensures |r| <= |s| && r == s[|s| - |r|..]
    ensures r == [] || r[0] != c
    ensures forall i :: 0 <= i < |s| - |r| ==> s[i] == c
  {
    if s != [] && s[0] == c then LStrip(s[1..], c) else s
  }

  /** Number of occurrences of a character. */
  function CountChar(s: string, c: char): nat {
    if s == [] then 0 else (if s[0] == c then 1 else 0) + CountChar(s[1..], c)
  }

  lemma CountCharAppend(a: string, b: string, c: char)
    ensures CountChar(a + b, c) == CountChar(a, c) + CountChar(b, c)
  {
    if a != [] {
      assert (a + b)[0] == a[0];
      assert (a + b)[1..] == a[1..] + b;
      CountCharAppend(a[1..], b, c);
    } else {
      assert a + b == b;
    }
  }

  lemma {:induction false} CountCharAbsent(s: string, c: char)
    requires c !in s
    ensures CountChar(s, c) == 0
  {
    if s != [] {
      CountCharAbsent(s[1..], c);
    }
  }

  /** A prefix occurrence of `pat` is an occurrence. */
  lemma PrefixContains(s: string, sub: string)
    requires IsPrefix(sub, s)
    ensures Contains(s, sub)
  {
  }

  /** An occurrence inside a suffix is an occurrence. */
  lemma {:induction false} ContainsSuffix(s: string, k: nat, sub: string)
    requires k <= |s| && Contains(s[k..], sub)
    ensures Contains(s, sub)
    decreases k
  {
    if k > 0 {
      assert s[1..][k - 1..] == s[k..];
      ContainsSuffix(s[1..], k - 1, sub);
    }
  }

  /** A single character `c` occurs in `s` exactly when `[c]` is a substring. */
  lemma {:induction false} ContainsChar(s: string, c: char)
    ensures Contains(s, [c]) <==> c in s
    decreases |s|
  {
    if s != [] {
      ContainsChar(s[1..], c);
      assert s == [s[0]] + s[1..];
    }
  }

  /** `s.split(sep)` has a single piece exactly when `sep` does not occur in `s`. */
  lemma {:induction false} SplitSingleIffAbsent(s: string, sep: string)
    requires |sep| > 0
    ensures |Split(s, sep)| == 1 <==> !Contains(s, sep)
    decreases |s|
  {
    if s == [] {
    } else if IsPrefix(sep, s) {
      assert |Split(s, sep)| == 1 + |Split(s[|sep|..], sep)|;
    } else {
      SplitSingleIffAbsent(s[1..], sep);
    }
  }

  /** A string without `sep` is its own single piece. */
  lemma {:induction false} SplitAbsent(s: string, sep: string)
    requires |sep| > 0 && !Contains(s, sep)
    ensures Split(s, sep) == [s]
    decreases |s|
  {
    if s != [] {
      SplitAbsent(s[1..], sep);
      assert [s[0]] + s[1..] == s;
    }
  }

  /** `s.replace(pat, rep) == rep.join(s.split(pat))`. */
  lemma {:induction false} ReplaceIsJoinSplit(s: string, pat: string, rep: string)
    requires |pat| > 0
    ensures ReplaceAll(s, pat, rep) == Join(Split(s, pat), rep)
    decreases |s|
  {
    if s == [] {
    } else if IsPrefix(pat, s) {
      var rest := Split(s[|pat|..], pat);
      ReplaceIsJoinSplit(s[|pat|..], pat, rep);
      assert Split(s, pat) == [[]] + rest;
      assert ([[]] + rest)[1..] == rest;
      assert Join([[]] + rest, rep) == [] + rep + Join(rest, rep);
    } else {
      var parts := Split(s[1..], pat);
      ReplaceIsJoinSplit(s[1..], pat, rep);
      assert Split(s, pat) == ConsFirst(s[0], parts);
      assert ReplaceAll(s, pat, rep) == [s[0]] + ReplaceAll(s[1..], pat, rep);
      JoinConsFirst(s[0], parts, rep);
    }
  }

  lemma JoinConsFirst(c: char, parts: seq<string>, sep: string)
    requires |parts| > 0
    ensures Join(ConsFirst(c, parts), sep) == [c] + Join(parts, sep)
  {
  }

  /** Replacing a pattern that does not occur changes nothing. */
  lemma {:induction false} ReplaceAbsent(s: string, pat: string, rep: string)
    requires |pat| > 0 && !Contains(s, pat)
    ensures ReplaceAll(s, pat, rep) == s
    decreases |s|
  {
    if s != [] {
      ReplaceAbsent(s[1..], pat, rep);
      assert [s[0]] + s[1..] == s;
    }
  }

  /** A replacement that is no longer than the pattern never lengthens the string,
      and strictly shortens it when the pattern occurs and the replacement is shorter. */
  lemma {:induction false} ReplaceLength(s: string, pat: string, rep: string)
    requires |pat| > 0 && |rep| <= |pat|
    ensures |ReplaceAll(s, pat, rep)| <= |s|
    ensures |rep| < |pat| && Contains(s, pat) ==> |ReplaceAll(s, pat, rep)| < |s|
    decreases |s|
  {
    if s == [] {
    } else if IsPrefix(pat, s) {
      ReplaceLength(s[|pat|..], pat, rep);
    } else {
      ReplaceLength(s[1..], pat, rep);
    }
  }

  /** A pattern free of `c` that is no prefix of `a` is no prefix of `a + [c] + b` either. */
  lemma NotPrefixAround(a: string, c: char, b: string, pat: string)
    requires c !in pat && !IsPrefix(pat, a)
    ensures !IsPrefix(pat, a + [c] + b)
  {
    var s := a + [c] + b;
    if |pat| <= |a| {
      assert s[..|pat|] == a[..|pat|];
    } else if |pat| <= |s| {
      assert s[..|pat|][|a|] == c;
    }
  }

  /** When no character of `pat` is `c`, replacing distributes over a `c` in the middle. */
  lemma {:induction false} ReplaceAround(a: string, c: char, b: string, pat: string, rep: string)
    requires |pat| > 0 && c !in pat
    ensures ReplaceAll(a + [c] + b, pat, rep) == ReplaceAll(a, pat, rep) + [c] + ReplaceAll(b, pat, rep)
    decreases |a|
  {
    var s := a + [c] + b;
    if a == [] {
      assert s == [c] + b;
      assert !IsPrefix(pat, s) by {
        assert s[0] == c;
        assert pat[0] != c;
      }
      assert s[1..] == b;
    } else if IsPrefix(pat, a) {
      assert s[..|pat|] == a[..|pat|];
      assert s[|pat|..] == a[|pat|..] + [c] + b;
      ReplaceAround(a[|pat|..], c, b, pat, rep);
    } else {
      NotPrefixAround(a, c, b, pat);
      assert s[0] == a[0];
      assert s[1..] == a[1..] + [c] + b;
      ReplaceAround(a[1..], c, b, pat, rep);
      assert ReplaceAll(a, pat, rep) == [a[0]] + ReplaceAll(a[1..], pat, rep);
    }
  }

  /** If the first character of `pat` never occurs in `d`, the only match in `d + pat` is the final one. */
  lemma {:induction false} ReplaceTrailing(d: string, pat: string, rep: string)
    requires |pat| > 0 && pat[0] !in d
    ensures ReplaceAll(d + pat, pat, rep) == d + rep
    decreases |d|
  {
    var s := d + pat;
    if d == [] {
      assert s == pat;
      assert s[|pat|..] == [];
    } else {
      assert s[0] == d[0];
      assert s[1..] == d[1..] + pat;
      ReplaceTrailing(d[1..], pat, rep);
    }
  }

  /** Splitting on a one-character separator undoes joining with it. */
  lemma {:induction false} SplitJoinChar(parts: seq<string>, c: char)
    requires |parts| > 0
    requires forall i :: 0 <= i < |parts| ==> c !in parts[i]
    ensures Split(Join(parts, [c]), [c]) == parts
    decreases |parts|
  {
    if |parts| == 1 {
      ContainsChar(parts[0], c);
      SplitAbsent(parts[0], [c]);
    } else {
      SplitJoinChar(parts[1..], c);
      SplitPieceChar(parts[0], c, Join(parts[1..], [c]));
    }
  }

  /** A piece free of `c` followed by `c` splits off as one piece. */
  lemma {:induction false} SplitPieceChar(a: string, c: char, rest: string)
    requires c !in a
    ensures Split(a + [c] + rest, [c]) == [a] + Split(rest, [c])
    decreases |a|
  {
    var s := a + [c] + rest;
    if a == [] {
      assert s == [c] + rest;
      assert IsPrefix([c], s);
      assert s[1..] == rest;
    } else {
      assert s[0] == a[0];
      assert s[1..] == a[1..] + [c] + rest;
      SplitPieceChar(a[1..], c, rest);
      assert [a[0]] + a[1..] == a;
    }
  }

  /** Joining `k` pieces free of `c` with `c` puts exactly `k - 1` copies of `c` in the result. */
  lemma {:induction false} CountCharJoin(parts: seq<string>, c: char)
    requires |parts| > 0
    requires forall i :: 0 <= i < |parts| ==> c !in parts[i]
    ensures CountChar(Join(parts, [c]), c) == |parts| - 1
    decreases |parts|
  {
    CountCharAbsent(parts[0], c);
    if |parts| > 1 {
      CountCharJoin(parts[1..], c);
      CountCharAppend(parts[0] + [c], Join(parts[1..], [c]), c);
      CountCharAppend(parts[0], [c], c);
    }
  }

  /** Joining pieces free of a character `d` with a separator other than `d` yields no `d`. */
  lemma {:induction false} JoinAvoids(parts: seq<string>, sep: string, d: char)
    requires d !in sep
    requires forall i :: 0 <= i < |parts| ==> d !in parts[i]
    ensures d !in Join(parts, sep)
    decreases |parts|
  {
    if |parts| > 1 {
      JoinAvoids(parts[1..], sep, d);
    }
  }
}
