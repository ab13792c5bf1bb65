/**
 * The few `String.prototype` operations the session engine relies on:
 * `indexOf` and `split` with a one-character argument, prefix and suffix
 * tests (what the anchored alternatives of its regular expressions test),
 * and the decimal value of a digit string.
 */
module Strings {
  import opened Wrappers

  /** `s.indexOf(c)`: the position of the first `c`, or None where JavaScript answers -1. */
  function IndexOf(s: string, c: char): (r: Option<nat>)
    ensures r.Some? ==> r.value < |s| && s[r.value] == c && c !in s[..r.value]
    ensures r.None? <==> c !in s
  {
    if |s| == 0 then None
    else if s[0] == c then Some(0)
    else
      match IndexOf(s[1..], c)
      case None => None
      case Some(i) => Some(i + 1)
  }

  /** `s.split(sep)`: the pieces between occurrences of `sep`; JavaScript never returns an empty array. */
  function Split(s: string, sep: char): (r: seq<string>)
    ensures |r| >= 1
    ensures forall i :: 0 <= i < |r| ==> sep !in r[i]
    decreases |s|
  {
    match IndexOf(s, sep)
    case None => [s]
    case Some(i) => [s[..i]] + Split(s[i + 1..], sep)
  }

  /** `parts.join(sep)`, the inverse of Split. */
  function Join(parts: seq<string>, sep: char): string
    requires |parts| >= 1
  {
    if |parts| == 1 then parts[0] else parts[0] + [sep] + Join(parts[1..], sep)
  }

  /** The first occurrence of `c` in `a + [c] + b` is just after `a` when `a` has none. */
  lemma IndexOfAfter(a: string, c: char, b: string)
    requires c !in a
    ensures IndexOf(a + [c] + b, c) == Some(|a|)
  {
    var s := a + [c] + b;
    assert s[|a|] == c;
    assert s[..|a|] == a;
  }

  /** Joining the pieces of a split gives back the string. */
  lemma {:induction false} JoinSplit(s: string, sep: char)
    ensures Join(Split(s, sep), sep) == s
    decreases |s|
  {
    match IndexOf(s, sep)
    case None =>
    case Some(i) =>
      var rest := Split(s[i + 1..], sep);
      assert Split(s, sep) == [s[..i]] + rest;
      assert ([s[..i]] + rest)[1..] == rest;
      JoinSplit(s[i + 1..], sep);
      assert Join(Split(s, sep), sep) == s[..i] + [sep] + Join(rest, sep);
      assert s == s[..i] + [sep] + s[i + 1..];
  }

  lemma EndsWithExtended(a: string, b: string, suffix: string)
    requires EndsWith(b, suffix)
    ensures EndsWith(a + b, suffix)
  {
    assert (a + b)[|a + b| - |suffix|..] == b[|b| - |suffix|..];
  }

  /** The last piece of a join is a suffix of it, and is the whole join or follows a separator. */
  lemma {:induction false} JoinEndsWithLast(parts: seq<string>, sep: char)
    requires |parts| >= 1
    ensures var j, last := Join(parts, sep), parts[|parts| - 1];
      EndsWith(j, last) && (|last| == |j| || j[|j| - |last| - 1] == sep)
  {
    if |parts| == 1 {
      assert parts[0][|parts[0]| - |parts[0]|..] == parts[0];
    } else {
      var rest := Join(parts[1..], sep);
      var last := parts[|parts| - 1];
      JoinEndsWithLast(parts[1..], sep);
      EndsWithExtended(parts[0] + [sep], rest, last);
      var j := parts[0] + [sep] + rest;
      assert j == Join(parts, sep);
      if |last| == |rest| {
        assert j[|j| - |last| - 1] == sep;
      } else {
        assert j[|j| - |last| - 1] == rest[|rest| - |last| - 1];
      }
    }
  }

  lemma {:induction false} LastPieceOfJoin(parts: seq<string>, sep: char, s: string)
    requires |parts| >= 1 && Join(parts, sep) == s
    ensures var last := parts[|parts| - 1];
      EndsWith(s, last) && (|last| == |s| || s[|s| - |last| - 1] == sep)
  {
    JoinEndsWithLast(parts, sep);
  }

  /**
   * The last piece of a split is a suffix of the string, and is either the
   * whole string or follows a separator.
   */
  lemma {:induction false} SplitLastIsSuffix(s: string, sep: char)
    ensures var r := Split(s, sep); var last := r[|r| - 1];
      EndsWith(s, last) && (|last| == |s| || s[|s| - |last| - 1] == sep)
  {
    var r := Split(s, sep);
    JoinSplit(s, sep);
    LastPieceOfJoin(r, sep, s);
  }

  /** Splitting a join of separator-free pieces gives back the pieces. */
  lemma {:induction false} SplitJoin(parts: seq<string>, sep: char)
    requires |parts| >= 1
    requires forall i :: 0 <= i < |parts| ==> sep !in parts[i]
    ensures Split(Join(parts, sep), sep) == parts
  {
    if |parts| == 1 {
      assert IndexOf(parts[0], sep).None?;
    } else {
      var rest := Join(parts[1..], sep);
      var s := parts[0] + [sep] + rest;
      assert Join(parts, sep) == s;
      IndexOfAfter(parts[0], sep, rest);
      assert Split(s, sep) == [s[..|parts[0]|]] + Split(s[|parts[0]| + 1..], sep);
      assert s[..|parts[0]|] == parts[0];
      assert s[|parts[0]| + 1..] == rest;
      SplitJoin(parts[1..], sep);
      assert [parts[0]] + parts[1..] == parts;
    }
  }

  /** What the anchored alternative `^p` of a regular expression tests. */
  predicate StartsWith(s: string, prefix: string) {
    |prefix| <= |s| && s[..|prefix|] == prefix
  }

  /** What the anchored alternative `p$` of a regular expression tests. */
  predicate EndsWith(s: string, suffix: string) {
    |suffix| <= |s| && s[|s| - |suffix|..] == suffix
  }

  /** `s.substr(from)` for a non-negative start: empty once the start is past the end. */
  function Substr(s: string, from: nat): (r: string)
    ensures from <= |s| ==> s == s[..from] + r
    ensures from >= |s| ==> r == ""
  {
    if from <= |s| then s[from..] else ""
  }

  predicate IsDigit(c: char) {
    '0' <= c <= '9'
  }

  predicate AllDigits(s: string) {
    forall i :: 0 <= i < |s| ==> IsDigit(s[i])
  }

  /** The value of a string of decimal digits, most significant first. */
  function DecimalValue(s: string): nat
    requires AllDigits(s)
  {
    if |s| == 0 then 0
    else DecimalValue(s[..|s| - 1]) * 10 + (s[|s| - 1] as int - '0' as int)
  }
}
