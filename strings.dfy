/** The string operations the front end and the server rely on: ASCII case
    mapping, prefix and suffix tests, splitting on a separator character and
    joining with a separator string. */
module Strings {

  function LowerChar(c: char): char
  {
    if 'A' <= c <= 'Z' then (c as int + 32) as char else c
  }

  function UpperChar(c: char): char
  {
    if 'a' <= c <= 'z' then (c as int - 32) as char else c
  }

  /** Lower-casing, character by character (ASCII letters only). */
  function Lower(s: string): (r: string)
    ensures |r| == |s|
    ensures forall i :: 0 <= i < |s| ==> r[i] == LowerChar(s[i])
  {
    seq(|s|, i requires 0 <= i < |s| => LowerChar(s[i]))
  }

  /** Upper-casing, character by character (ASCII letters only). */
  function Upper(s: string): (r: string)
    ensures |r| == |s|
    ensures forall i :: 0 <= i < |s| ==> r[i] == UpperChar(s[i])
  {
    seq(|s|, i requires 0 <= i < |s| => UpperChar(s[i]))
  }

  predicate StartsWith(s: string, prefix: string)
  {
    |prefix| <= |s| && s[..|prefix|] == prefix
  }

  predicate EndsWith(s: string, suffix: string)
  {
    |suffix| <= |s| && s[|s| - |suffix|..] == suffix
  }

  /** `s` ends with at least one of `suffixes`. */
  predicate EndsWithAny(s: string, suffixes: seq<string>)
  {
    exists k :: 0 <= k < |suffixes| && EndsWith(s, suffixes[k])
  }

  /** Ending with one of a list only depends on which suffixes are listed:
      every suffix of `a` is also in `b`, so a match against `a` is a match
      against `b`. */
  lemma EndsWithAnySubset(s: string, a: seq<string>, b: seq<string>)
    requires forall k :: 0 <= k < |a| ==> a[k] in b
    requires EndsWithAny(s, a)
    ensures EndsWithAny(s, b)
  {
    var k :| 0 <= k < |a| && EndsWith(s, a[k]);
    var j :| 0 <= j < |b| && b[j] == a[k];
    assert EndsWith(s, b[j]);
  }

  /** The pieces of `s` between occurrences of `sep`, like JavaScript's
      `split` with a one-character separator: there is always at least one
      piece, and no piece contains the separator. */
  function Split(s: string, sep: char): (parts: seq<string>)
    ensures |parts| >= 1
    ensures forall i :: 0 <= i < |parts| ==> sep !in parts[i]
    decreases |s|
  {
    if s == [] then [""]
    else
      var rest := Split(s[1..], sep);
      if s[0] == sep then [""] + rest
      else [[s[0]] + rest[0]] + rest[1..]
  }

  /** The pieces joined with `sep` between consecutive ones, like Python's
      `sep.join(parts)`. */
  function Join(parts: seq<string>, sep: string): string
  {
    if |parts| == 0 then ""
    else if |parts| == 1 then parts[0]
    else parts[0] + sep + Join(parts[1..], sep)
  }

  /** Joining the pieces with the separator gives back the original string. */
  lemma {:induction false} SplitJoin(s: string, sep: char)
    ensures Join(Split(s, sep), [sep]) == s
    decreases |s|
  {
    if s != [] {
      var rest := Split(s[1..], sep);
      SplitJoin(s[1..], sep);
      if s[0] == sep {
        assert Split(s, sep) == [""] + rest;
        assert ([""] + rest)[1..] == rest;
        assert s == [sep] + s[1..];
      } else {
        var parts := [[s[0]] + rest[0]] + rest[1..];
        assert Split(s, sep) == parts;
        if |rest| == 1 {
          assert Join(parts, [sep]) == [s[0]] + rest[0];
          assert s == [s[0]] + s[1..];
        } else {
          assert parts[1..] == rest[1..];
          assert Join(rest, [sep]) == rest[0] + [sep] + Join(rest[1..], [sep]);
          assert s == [s[0]] + s[1..];
        }
      }
    }
  }

  /** A string without the separator is one piece. */
  lemma {:induction false} SplitWithoutSep(s: string, sep: char)
    requires sep !in s
    ensures Split(s, sep) == [s]
    decreases |s|
  {
    if s != [] {
      SplitWithoutSep(s[1..], sep);
      assert s == [s[0]] + s[1..];
    }
  }

  /** Splitting at the first separator: the text before it is the first
      piece, and the pieces of the text after it follow. */
  lemma {:induction false} SplitAtFirst(a: string, b: string, sep: char)
    requires sep !in a
    ensures Split(a + [sep] + b, sep) == [a] + Split(b, sep)
    decreases |a|
  {
    var s := a + [sep] + b;
    if a == [] {
      assert s[0] == sep && s[1..] == b;
    } else {
      assert s[0] == a[0] && s[1..] == a[1..] + [sep] + b;
      SplitAtFirst(a[1..], b, sep);
      assert [a[0]] + a[1..] == a;
    }
  }

  /** Joining a list of at least two pieces ends with the separator and the
      last piece. */
  lemma {:induction false} JoinLast(parts: seq<string>, sep: string)
    requires |parts| >= 2
    ensures Join(parts, sep) == Join(parts[..|parts| - 1], sep) + sep + parts[|parts| - 1]
    decreases |parts|
  {
    if |parts| > 2 {
      JoinLast(parts[1..], sep);
      assert parts[1..][..|parts| - 2] == parts[..|parts| - 1][1..];
    }
  }

  /** The last '/'-separated segment, as `path.split('/').pop()`. */
  function LastSegment(path: string): string
  {
    var parts := Split(path, '/');
    parts[|parts| - 1]
  }

  /** The last segment is the trailing part of the path after its last '/',
      or the whole path when it has no '/'. */
  lemma LastSegmentIsFileName(path: string)
    ensures '/' !in LastSegment(path)
    ensures EndsWith(path, LastSegment(path))
    ensures '/' !in path ==> LastSegment(path) == path
    ensures '/' in path ==>
              |LastSegment(path)| < |path| && path[|path| - |LastSegment(path)| - 1] == '/'
  {
    var parts := Split(path, '/');
    var r := parts[|parts| - 1];
    assert LastSegment(path) == r;
    assert '/' !in r;
    SplitJoin(path, '/');
    if |parts| == 1 {
      assert path == r;
    } else {
      JoinLast(parts, "/");
      var front := Join(parts[..|parts| - 1], "/");
      assert path == front + "/" + r;
      assert path[|front|] == '/';
      assert path[|path| - |r|..] == r;
    }
  }
}
