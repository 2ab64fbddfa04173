/** The few Python `str` operations the service relies on, over `seq<char>`. */
module Strings {
  import opened Wrappers

  /** `s.startswith(p)` */
  predicate StartsWith(s: string, p: string) {
    |p| <= |s| && s[..|p|] == p
  }

  /** `s.endswith(t)` */
  predicate EndsWith(s: string, t: string) {
    |t| <= |s| && s[|s| - |t|..] == t
  }

  /** `pat` occurs in `s` starting at index `i`. */
  predicate OccursAt(s: string, pat: string, i: nat) {
    i + |pat| <= |s| && s[i..i + |pat|] == pat
  }

  /** `s.find(pat)`, with `None` for Python's -1. */
  function Find(s: string, pat: string): (r: Option<nat>)
    ensures r.Some? ==> OccursAt(s, pat, r.value)
    ensures r.Some? ==> forall j: nat :: j < r.value ==> !OccursAt(s, pat, j)
    ensures r.None? ==> forall j: nat :: !OccursAt(s, pat, j)
    decreases |s|
  {
    if StartsWith(s, pat) then Some(0)
    else if s == [] then None
    else
      var r := Find(s[1..], pat);
      assert forall j: nat :: j == 0 || OccursAt(s, pat, j) == OccursAt(s[1..], pat, j - 1) by {
        forall j: nat | j > 0 ensures OccursAt(s, pat, j) == OccursAt(s[1..], pat, j - 1) {
          OccursAtShift(s, pat, j - 1);
        }
      }
      match r
      case None => None
      case Some(i) => Some(i + 1)
  }

  /** An occurrence one place further into `s` is an occurrence in `s[1..]`. */
  lemma OccursAtShift(s: string, pat: string, j: nat)
    requires s != []
    ensures OccursAt(s, pat, j + 1) == OccursAt(s[1..], pat, j)
  {
    if j + 1 + |pat| <= |s| {
      var a := s[j + 1..j + 1 + |pat|];
      var b := s[1..][j..j + |pat|];
      assert |a| == |b|;
      forall k | 0 <= k < |a| ensures a[k] == b[k] {
        assert a[k] == s[j + 1 + k] && b[k] == s[1..][j + k];
      }
      assert a == b;
    }
  }

  /** `sub in s` */
  function Contains(s: string, sub: string): (b: bool)
    ensures b <==> exists j: nat :: OccursAt(s, sub, j)
  {
    Find(s, sub).Some?
  }

  /** `s.replace(pat, repl, 1)`: only the first occurrence of `pat` is replaced. */
  function ReplaceFirst(s: string, pat: string, repl: string): (r: string)
    ensures !Contains(s, pat) ==> r == s
    ensures Contains(s, pat) ==> |r| == |s| - |pat| + |repl|
    ensures StartsWith(s, pat) ==> r == repl + s[|pat|..]
  {
    match Find(s, pat)
    case None => s
    case Some(i) =>
      assert StartsWith(s, pat) ==> OccursAt(s, pat, 0);
      s[..i] + repl + s[i + |pat|..]
  }

  /** `s.split(sep)` for a one-character separator, built from the right end. */
  function Split(s: string, sep: char): (parts: seq<string>)
    ensures |parts| >= 1
    ensures forall i :: 0 <= i < |parts| ==> sep !in parts[i]
    decreases |s|
  {
    if s == [] then [[]]
    else
      var init := Split(s[..|s| - 1], sep);
      if s[|s| - 1] == sep then init + [[]]
      else init[..|init| - 1] + [init[|init| - 1] + [s[|s| - 1]]]
  }

  /** `sep.join(parts)` */
  function Join(parts: seq<string>, sep: char): string
    requires |parts| >= 1
  {
    if |parts| == 1 then parts[0]
    else Join(parts[..|parts| - 1], sep) + [sep] + parts[|parts| - 1]
  }

  /** Splitting and re-joining on the same separator gives back the string. */
  lemma {:induction false} JoinSplit(s: string, sep: char)
    ensures Join(Split(s, sep), sep) == s
    decreases |s|
  {
    if s != [] {
      var init := s[..|s| - 1];
      var c := s[|s| - 1];
      var parts := Split(init, sep);
      var n := |parts|;
      JoinSplit(init, sep);
      assert s == init + [c];
      if c == sep {
        var grown := parts + [[]];
        assert Split(s, sep) == grown;
        assert grown[..n] == parts;
        assert Join(grown, sep) == Join(parts, sep) + [sep] + [];
      } else {
        var grown := parts[..n - 1] + [parts[n - 1] + [c]];
        assert Split(s, sep) == grown;
        assert grown[..n - 1] == parts[..n - 1];
        if n > 1 {
          assert Join(grown, sep) == Join(parts[..n - 1], sep) + [sep] + (parts[n - 1] + [c]);
          assert Join(parts, sep) == Join(parts[..n - 1], sep) + [sep] + parts[n - 1];
        } else {
          assert Join(grown, sep) == parts[0] + [c];
        }
      }
    }
  }

  /** The last piece of `s.split(sep)` is the text after the last `sep`. */
  lemma {:induction false} SplitLast(s: string, sep: char)
    ensures var r := Split(s, sep)[|Split(s, sep)| - 1];
      EndsWith(s, r) && (sep in s ==> s[|s| - |r| - 1] == sep) && (sep !in s ==> r == s)
    decreases |s|
  {
    if s != [] {
      var init := s[..|s| - 1];
      SplitLast(init, sep);
      assert s == init + [s[|s| - 1]];
      assert sep in s <==> sep in init || s[|s| - 1] == sep;
    }
  }

  /** `s.split(sep)[-1]` */
  function LastPiece(s: string, sep: char): (r: string)
    ensures sep !in r
    ensures EndsWith(s, r)
    ensures sep in s ==> s[|s| - |r| - 1] == sep
    ensures sep !in s ==> r == s
  {
    SplitLast(s, sep);
    var parts := Split(s, sep);
    parts[|parts| - 1]
  }

  predicate IsUpper(c: char) {
    'A' <= c <= 'Z'
  }

  function LowerChar(c: char): char {
    if IsUpper(c) then (c as int + 32) as char else c
  }

  /** `s.lower()` restricted to ASCII letters. */
  function Lower(s: string): (r: string)
    ensures |r| == |s|
    ensures forall i :: 0 <= i < |s| ==> r[i] == LowerChar(s[i])
    ensures forall i :: 0 <= i < |r| ==> !IsUpper(r[i])
  {
    seq(|s|, i requires 0 <= i < |s| => LowerChar(s[i]))
  }

  /** Lower-casing twice is lower-casing once. */
  lemma LowerIdempotent(s: string)
    ensures Lower(Lower(s)) == Lower(s)
  {
  }
}
