/** String and sequence helpers shared by the Python and JavaScript parts of the
    chatbot: Python slicing, `join`, single-character `split`, whitespace
    trimming (Python `str.strip` and JavaScript `String.prototype.trim` use
    different whitespace sets) and ASCII lower-casing. */
module Strings {

  datatype Option<+T> = None | Some(value: T) {
    function GetOr(default: T): T {
      match this
      case Some(v) => v
      case None => default
    }
  }

  function Min(a: int, b: int): int { if a <= b then a else b }

  function Max(a: int, b: int): int { if a <= b then b else a }

  /** A Python slice bound: negative values count from the end, then the
      bound is clamped into [0, n]. */
  function SliceBound(i: int, n: nat): (k: nat)
    ensures k <= n
    ensures 0 <= i <= n ==> k == i
    ensures i > n ==> k == n
    ensures i < 0 ==> k == Max(0, n + i)
  {
    if i < 0 then (if i + n < 0 then 0 else i + n)
    else if i > n then n
    else i
  }

  /** Python's `s[lo:hi]` (step 1): never fails, whatever the bounds. */
  function Slice<T>(s: seq<T>, lo: int, hi: int): (r: seq<T>)
    ensures |r| <= |s|
    ensures 0 <= lo <= hi <= |s| ==> r == s[lo..hi]
    ensures hi <= lo && 0 <= lo && 0 <= hi ==> r == []
    ensures lo == 0 && hi >= |s| ==> r == s
  {
    var a := SliceBound(lo, |s|);
    var b := SliceBound(hi, |s|);
    if b <= a then [] else s[a..b]
  }

  function Reverse<T>(s: seq<T>): (r: seq<T>)
    ensures |r| == |s|
    ensures forall i :: 0 <= i < |s| ==> r[i] == s[|s| - 1 - i]
  {
    if |s| == 0 then [] else Reverse(s[1..]) + [s[0]]
  }

  /** Concatenation of a sequence of strings (JavaScript `join('')`). */
  function Concat(parts: seq<string>): string
  {
    if |parts| == 0 then "" else parts[0] + Concat(parts[1..])
  }

  /** `sep.join(parts)` in Python, `parts.join(sep)` in JavaScript. */
  function Join(sep: string, parts: seq<string>): string
  {
    if |parts| == 0 then ""
    else if |parts| == 1 then parts[0]
    else parts[0] + sep + Join(sep, parts[1..])
  }

  /** Sum of the lengths of `parts`. */
  function TotalLength(parts: seq<string>): nat
  {
    if |parts| == 0 then 0 else |parts[0]| + TotalLength(parts[1..])
  }

  /** The joined string has every part and one separator between neighbours. */
  lemma {:induction false} JoinLength(sep: string, parts: seq<string>)
    requires |parts| >= 1
    ensures |Join(sep, parts)| == TotalLength(parts) + (|parts| - 1) * |sep|
  {
    if |parts| > 1 {
      JoinLength(sep, parts[1..]);
    }
  }

  /** Python `s.split(c)` and JavaScript `s.split(c)` for a one-character
      separator: the pieces between the occurrences of `c`, empty pieces kept. */
  function SplitOn(s: string, c: char): (parts: seq<string>)
    ensures |parts| >= 1
    ensures forall i :: 0 <= i < |parts| ==> c !in parts[i]
  {
    if |s| == 0 then [""]
    else
      var rest := SplitOn(s[1..], c);
      if s[0] == c then [""] + rest
      else [[s[0]] + rest[0]] + rest[1..]
  }

  /** Splitting and re-joining on the same character gives back the string. */
  lemma {:induction false} JoinSplitOn(s: string, c: char)
    ensures Join([c], SplitOn(s, c)) == s
  {
    if |s| > 0 {
      var rest := SplitOn(s[1..], c);
      JoinSplitOn(s[1..], c);
      if s[0] == c {
        assert s == [c] + s[1..];
      } else {
        var parts := SplitOn(s, c);
        assert parts[0] == [s[0]] + rest[0];
        assert parts[1..] == rest[1..];
        if |rest| == 1 {
          assert s == [s[0]] + rest[0];
        } else {
          assert Join([c], rest) == rest[0] + [c] + Join([c], rest[1..]);
          assert s == [s[0]] + rest[0] + [c] + Join([c], rest[1..]);
        }
      }
    }
  }

  /** Joining parts free of `c` with `c` and splitting again gives back the parts. */
  lemma {:induction false} SplitOnJoin(parts: seq<string>, c: char)
    requires |parts| >= 1
    requires forall i :: 0 <= i < |parts| ==> c !in parts[i]
    ensures SplitOn(Join([c], parts), c) == parts
  {
    if |parts| == 1 {
      SplitOnNoSeparator(parts[0], c);
    } else {
      SplitOnJoin(parts[1..], c);
      SplitOnPrefix(parts[0], Join([c], parts[1..]), c);
      assert Join([c], parts) == parts[0] + ([c] + Join([c], parts[1..]));
    }
  }

  lemma {:induction false} SplitOnNoSeparator(s: string, c: char)
    requires c !in s
    ensures SplitOn(s, c) == [s]
  {
    if |s| > 0 {
      SplitOnNoSeparator(s[1..], c);
      assert s == [s[0]] + s[1..];
    }
  }

  lemma {:induction false} SplitOnPrefix(a: string, b: string, c: char)
    requires c !in a
    ensures SplitOn(a + [c] + b, c) == [a] + SplitOn(b, c)
  {
    if |a| == 0 {
      assert a + [c] + b == [c] + b;
      assert ([c] + b)[1..] == b;
    } else {
      assert (a + [c] + b)[1..] == a[1..] + [c] + b;
      SplitOnPrefix(a[1..], b, c);
      assert a == [a[0]] + a[1..];
    }
  }

  /** The last piece of a split is what follows the last separator. */
  lemma {:induction false} SplitOnLast(a: string, b: string, c: char)
    requires c !in b
    ensures var parts := SplitOn(a + [c] + b, c);
            |parts| >= 2 && Last(parts) == b
  {
    if |a| == 0 {
      assert a + [c] + b == [c] + b;
      assert ([c] + b)[1..] == b;
      SplitOnNoSeparator(b, c);
    } else {
      assert (a + [c] + b)[1..] == a[1..] + [c] + b;
      SplitOnLast(a[1..], b, c);
    }
  }

  /** Whitespace of Python's `str.isspace`, which `str.strip()` removes. */
  predicate IsPySpace(c: char)
  {
    c == ' ' || c == '\t' || c == '\n' || c == '\r' || c == '\U{000B}' || c == '\U{000C}'
    || ('\U{001C}' <= c <= '\U{001F}') || c == '\U{0085}' || c == '\U{00A0}'
    || c == '\U{1680}' || ('\U{2000}' <= c <= '\U{200A}') || c == '\U{2028}'
    || c == '\U{2029}' || c == '\U{202F}' || c == '\U{205F}' || c == '\U{3000}'
  }

  /** JavaScript WhiteSpace and LineTerminator: what `trim()` removes and what
      the regular-expression class `\s` matches. */
  predicate IsJsSpace(c: char)
  {
    c == ' ' || c == '\t' || c == '\n' || c == '\r' || c == '\U{000B}' || c == '\U{000C}'
    || c == '\U{00A0}' || c == '\U{1680}' || ('\U{2000}' <= c <= '\U{200A}')
    || c == '\U{2028}' || c == '\U{2029}' || c == '\U{202F}' || c == '\U{205F}'
    || c == '\U{3000}' || c == '\U{FEFF}'
  }

  /** Removes the leading characters satisfying `ws`. */
  function TrimStart(s: string, ws: char -> bool): (r: string)
    ensures |r| <= |s| && r == s[|s| - |r|..]
    ensures forall k :: 0 <= k < |s| - |r| ==> ws(s[k])
    ensures |r| > 0 ==> !ws(r[0])
  {
    if |s| > 0 && ws(s[0]) then TrimStart(s[1..], ws) else s
  }

  /** Removes the trailing characters satisfying `ws`. */
  function TrimEnd(s: string, ws: char -> bool): (r: string)
    ensures |r| <= |s| && r == s[..|r|]
    ensures forall k :: |r| <= k < |s| ==> ws(s[k])
    ensures |r| > 0 ==> !ws(r[|r| - 1])
  {
    if |s| > 0 && ws(s[|s| - 1]) then TrimEnd(s[..|s| - 1], ws) else s
  }

  /** Trimming removes exactly a leading run of `ws` characters. */
  lemma {:induction false} TrimStartPrefix(pre: string, rest: string, ws: char -> bool)
    requires forall k :: 0 <= k < |pre| ==> ws(pre[k])
    requires |rest| == 0 || !ws(rest[0])
    ensures TrimStart(pre + rest, ws) == rest
  {
    if |pre| == 0 {
      assert pre + rest == rest;
    } else {
      assert (pre + rest)[1..] == pre[1..] + rest;
      TrimStartPrefix(pre[1..], rest, ws);
    }
  }

  /** `r` occurs in `s` at offset `i`. */
  predicate IsSegment(r: string, s: string, i: int)
  {
    0 <= i <= |s| - |r| && r == s[i..i + |r|]
  }

  /** The part of `s` between its leading and trailing `ws` characters. */
  function TrimWith(s: string, ws: char -> bool): (r: string)
    ensures exists i :: IsSegment(r, s, i)
    ensures |r| > 0 ==> !ws(r[0]) && !ws(r[|r| - 1])
    ensures |r| == 0 <==> forall k :: 0 <= k < |s| ==> ws(s[k])
  {
    var t := TrimStart(s, ws);
    var r := TrimEnd(t, ws);
    assert r == s[|s| - |t|..][..|r|] == s[|s| - |t|..|s| - |t| + |r|];
    assert forall k :: |s| - |t| <= k < |s| ==> s[k] == t[k - (|s| - |t|)];
    assert IsSegment(r, s, |s| - |t|);
    r
  }

  /** Nothing to trim when neither end is whitespace. */
  lemma TrimWithUnchanged(s: string, ws: char -> bool)
    requires |s| > 0 && !ws(s[0]) && !ws(s[|s| - 1])
    ensures TrimWith(s, ws) == s
  {
  }

  /** Python `str.strip()` with no argument. */
  function PyStrip(s: string): string { TrimWith(s, IsPySpace) }

  /** JavaScript `String.prototype.trim()`. */
  function JsTrim(s: string): string { TrimWith(s, IsJsSpace) }

  /** ASCII upper-case letters map to lower case; every other character is kept. */
  function LowerChar(c: char): char
  {
    if 'A' <= c <= 'Z' then (c as int + 32) as char else c
  }

  function AsciiLower(s: string): (r: string)
    ensures |r| == |s|
    ensures forall i :: 0 <= i < |s| ==> r[i] == LowerChar(s[i])
  {
    if |s| == 0 then "" else [LowerChar(s[0])] + AsciiLower(s[1..])
  }

  predicate StartsWith(s: string, prefix: string)
  {
    |prefix| <= |s| && s[..|prefix|] == prefix
  }

  predicate EndsWith(s: string, suffix: string)
  {
    |suffix| <= |s| && s[|s| - |suffix|..] == suffix
  }

  function Last<T>(s: seq<T>): T
    requires |s| > 0
  {
    s[|s| - 1]
  }
}
