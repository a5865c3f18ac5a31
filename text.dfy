/**
 * String helpers used by both the relay and the dashboard: whitespace
 * stripping (Python `str.strip()`, JavaScript `String.prototype.trim`),
 * the "strip and drop blank lines" comprehension, splitting on a
 * separator (JavaScript `String.prototype.split` with a one-character
 * string) and replacing the first occurrence of a character (JavaScript
 * `String.prototype.replace` with a string pattern).
 */
module Text {

  /** The characters for which Python's `str.isspace()` holds; `str.strip()` removes them. */
  const PY_WHITESPACE: set<char> := {
    '\t', '\n', '\U{0B}', '\U{0C}', '\r', '\U{1C}', '\U{1D}', '\U{1E}', '\U{1F}', ' ',
    '\U{85}', '\U{A0}', '\U{1680}',
    '\U{2000}', '\U{2001}', '\U{2002}', '\U{2003}', '\U{2004}', '\U{2005}', '\U{2006}',
    '\U{2007}', '\U{2008}', '\U{2009}', '\U{200A}',
    '\U{2028}', '\U{2029}', '\U{202F}', '\U{205F}', '\U{3000}'
  }

  /** The WhiteSpace and LineTerminator characters that JavaScript's `trim()` removes. */
  const JS_WHITESPACE: set<char> := {
    '\t', '\n', '\U{0B}', '\U{0C}', '\r', ' ',
    '\U{A0}', '\U{1680}',
    '\U{2000}', '\U{2001}', '\U{2002}', '\U{2003}', '\U{2004}', '\U{2005}', '\U{2006}',
    '\U{2007}', '\U{2008}', '\U{2009}', '\U{200A}',
    '\U{2028}', '\U{2029}', '\U{202F}', '\U{205F}', '\U{3000}', '\U{FEFF}'
  }

  /** Every character of `s` is in `ws`. */
  predicate AllIn(s: string, ws: set<char>) {
    forall i :: 0 <= i < |s| ==> s[i] in ws
  }

  /** `s` neither starts nor ends with a character of `ws`. */
  predicate Trimmed(s: string, ws: set<char>) {
    s == [] || (s[0] !in ws && s[|s| - 1] !in ws)
  }

  /** The number of leading characters of `s` that are in `ws`. */
  function LeadingCount(s: string, ws: set<char>): (k: nat)
    ensures k <= |s|
    ensures forall i :: 0 <= i < k ==> s[i] in ws
    ensures k < |s| ==> s[k] !in ws
  {
    if s == [] || s[0] !in ws then 0 else 1 + LeadingCount(s[1..], ws)
  }

  /** The number of trailing characters of `s` that are in `ws`. */
  function TrailingCount(s: string, ws: set<char>): (k: nat)
    ensures k <= |s|
    ensures forall i :: |s| - k <= i < |s| ==> s[i] in ws
    ensures k < |s| ==> s[|s| - 1 - k] !in ws
  {
    if s == [] || s[|s| - 1] !in ws then 0 else 1 + TrailingCount(s[..|s| - 1], ws)
  }

  /**
   * Removes the leading and trailing characters of `ws` (`str.strip()` and
   * `trim()` differ only in the set). The result starts and ends outside
   * `ws`, and it is blank exactly when `s` is.
   */
  function Strip(s: string, ws: set<char>): (r: string)
    ensures Trimmed(r, ws)
    ensures |r| <= |s|
    ensures r == [] <==> AllIn(s, ws)
  {
    var a := LeadingCount(s, ws);
    if a == |s| then [] else s[a..|s| - TrailingCount(s, ws)]
  }

  /** Stripping removes whitespace only, and only from the two ends. */
  lemma StripIsInfix(s: string, ws: set<char>)
    ensures exists a, b ::
      (0 <= a <= b <= |s| && Strip(s, ws) == s[a..b] && AllIn(s[..a], ws) && AllIn(s[b..], ws))
  {
    var a := LeadingCount(s, ws);
    if a == |s| {
      assert Strip(s, ws) == s[a..a] && AllIn(s[..a], ws) && AllIn(s[a..], ws);
    } else {
      var b := |s| - TrailingCount(s, ws);
      assert Strip(s, ws) == s[a..b] && AllIn(s[..a], ws) && AllIn(s[b..], ws);
    }
  }

  /** Stripping is idempotent: a stripped string is left alone. */
  lemma StripTrimmed(s: string, ws: set<char>)
    requires Trimmed(s, ws)
    ensures Strip(s, ws) == s
  {
  }

  /**
   * The comprehension `[line.strip() for line in lines if line.strip()]`:
   * every line stripped, blank lines dropped, order kept.
   */
  function CleanLines(lines: seq<string>, ws: set<char>): (r: seq<string>)
    ensures |r| <= |lines|
    ensures forall i :: 0 <= i < |r| ==> r[i] != [] && Trimmed(r[i], ws)
  {
    if lines == [] then []
    else
      var t := Strip(lines[0], ws);
      var rest := CleanLines(lines[1..], ws);
      if t == [] then rest else [t] + rest
  }

  /** Cleaning distributes over concatenation, so the relative order of lines is kept. */
  lemma {:induction false} CleanLinesAppend(a: seq<string>, b: seq<string>, ws: set<char>)
    ensures CleanLines(a + b, ws) == CleanLines(a, ws) + CleanLines(b, ws)
  {
    if a != [] {
      assert (a + b)[1..] == a[1..] + b;
      CleanLinesAppend(a[1..], b, ws);
    } else {
      assert a + b == b;
    }
  }

  /** A string is in the result exactly when it is the non-blank strip of some input line. */
  lemma {:induction false} CleanLinesMember(lines: seq<string>, ws: set<char>, x: string)
    ensures x in CleanLines(lines, ws) <==>
      x != [] && exists i :: 0 <= i < |lines| && Strip(lines[i], ws) == x
  {
    if lines != [] {
      CleanLinesMember(lines[1..], ws, x);
      if x in CleanLines(lines, ws) {
        if x == Strip(lines[0], ws) {
          assert 0 < |lines| && Strip(lines[0], ws) == x;
        } else {
          var i :| 0 <= i < |lines[1..]| && Strip(lines[1..][i], ws) == x;
          assert Strip(lines[i + 1], ws) == x;
        }
      }
      if x != [] && (exists i :: 0 <= i < |lines| && Strip(lines[i], ws) == x) {
        var i :| 0 <= i < |lines| && Strip(lines[i], ws) == x;
        if i > 0 {
          assert Strip(lines[1..][i - 1], ws) == x;
        }
      }
      if x != [] && (exists i :: 0 <= i < |lines[1..]| && Strip(lines[1..][i], ws) == x) {
        var i :| 0 <= i < |lines[1..]| && Strip(lines[1..][i], ws) == x;
        assert Strip(lines[i + 1], ws) == x;
      }
    }
  }

  /** Lines that are already stripped and non-blank come through unchanged. */
  lemma {:induction false} CleanLinesOfClean(lines: seq<string>, ws: set<char>)
    requires forall i :: 0 <= i < |lines| ==> lines[i] != [] && Trimmed(lines[i], ws)
    ensures CleanLines(lines, ws) == lines
  {
    if lines != [] {
      StripTrimmed(lines[0], ws);
      CleanLinesOfClean(lines[1..], ws);
    }
  }

  /** Lines that are all blank clean to the empty list. */
  lemma {:induction false} CleanLinesOfBlank(lines: seq<string>, ws: set<char>)
    requires forall i :: 0 <= i < |lines| ==> AllIn(lines[i], ws)
    ensures CleanLines(lines, ws) == []
  {
    if lines != [] {
      CleanLinesOfBlank(lines[1..], ws);
    }
  }

  /** The index of the first occurrence of `c` in `s`. */
  function FirstIndex(s: string, c: char): (i: nat)
    requires c in s
    ensures i < |s| && s[i] == c && c !in s[..i]
  {
    if s[0] == c then 0
    else
      var i := 1 + FirstIndex(s[1..], c);
      assert s[..i] == [s[0]] + s[1..][..i - 1];
      i
  }

  /** `s.split(sep)`: the pieces between occurrences of `sep`, at least one of them. */
  function Split(s: string, sep: char): (parts: seq<string>)
    ensures |parts| >= 1
    ensures forall i :: 0 <= i < |parts| ==> sep !in parts[i]
    decreases |s|
  {
    if sep !in s then [s]
    else
      var i := FirstIndex(s, sep);
      [s[..i]] + Split(s[i + 1..], sep)
  }

  /** The pieces glued back together with `sep` between neighbours. */
  function Join(parts: seq<string>, sep: char): string
    requires |parts| >= 1
  {
    if |parts| == 1 then parts[0] else parts[0] + [sep] + Join(parts[1..], sep)
  }

  /** Splitting loses nothing: joining the pieces gives the text back. */
  lemma {:induction false} JoinSplit(s: string, sep: char)
    ensures Join(Split(s, sep), sep) == s
    decreases |s|
  {
    if sep in s {
      var i := FirstIndex(s, sep);
      var rest := s[i + 1..];
      var tail := Split(rest, sep);
      JoinSplit(rest, sep);
      assert Split(s, sep) == [s[..i]] + tail;
      JoinCons(s[..i], tail, sep);
      SplitAt(s, i);
    }
  }

  /** Joining a piece in front of at least one other puts one separator between them. */
  lemma JoinCons(p: string, tail: seq<string>, sep: char)
    requires |tail| >= 1
    ensures Join([p] + tail, sep) == p + [sep] + Join(tail, sep)
  {
    assert ([p] + tail)[1..] == tail;
  }

  /** A string is the part before position `i`, the character there, and the rest. */
  lemma SplitAt(s: string, i: nat)
    requires i < |s|
    ensures s == s[..i] + [s[i]] + s[i + 1..]
  {
  }

  /** In a piece free of `sep`, then `sep`, then anything, the first `sep` is the one after the piece. */
  lemma FirstIndexAfter(p: string, sep: char, t: string)
    requires sep !in p
    ensures sep in p + [sep] + t && FirstIndex(p + [sep] + t, sep) == |p|
  {
    var s := p + [sep] + t;
    assert s[|p|] == sep;
    var i := FirstIndex(s, sep);
    assert forall j :: 0 <= j < |p| ==> s[j] == p[j];
    assert forall j :: |p| < j <= |s| ==> s[..j][|p|] == sep;
  }

  /** Pieces free of `sep` are recovered by splitting their join. */
  lemma {:induction false} SplitJoin(parts: seq<string>, sep: char)
    requires |parts| >= 1
    requires forall i :: 0 <= i < |parts| ==> sep !in parts[i]
    ensures Split(Join(parts, sep), sep) == parts
  {
    if |parts| > 1 {
      var p := parts[0];
      var t := Join(parts[1..], sep);
      var s := p + [sep] + t;
      assert Join(parts, sep) == s;
      FirstIndexAfter(p, sep, t);
      assert s[..|p|] == p;
      assert s[|p| + 1..] == t;
      SplitJoin(parts[1..], sep);
      assert Split(s, sep) == [p] + Split(t, sep);
    }
  }

  /** `s.replace(from, to)` with a one-character string pattern: only the first occurrence changes. */
  function ReplaceFirst(s: string, from: char, to: char): (r: string)
    ensures |r| == |s|
    ensures from !in s ==> r == s
    ensures from in s ==> var i := FirstIndex(s, from);
      r[i] == to && r[..i] == s[..i] && r[i + 1..] == s[i + 1..]
  {
    if from !in s then s
    else
      var i := FirstIndex(s, from);
      s[..i] + [to] + s[i + 1..]
  }

  /** When `from` first occurs right after `p`, replacing it rebuilds the string around `to`. */
  lemma ReplaceFirstAfter(p: string, from: char, t: string, to: char)
    requires from !in p
    ensures ReplaceFirst(p + [from] + t, from, to) == p + [to] + t
  {
    var s := p + [from] + t;
    FirstIndexAfter(p, from, t);
    assert s[..|p|] == p;
    assert s[|p| + 1..] == t;
  }
}
