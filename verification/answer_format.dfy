/** `formatAnswer` of chatbot/static/chatbot/script.js: the bot's answer is
    cut into sections at blank lines (`split(/\n\s*\n/)`), and each non-blank
    section becomes one `<div class="section">` holding a list (`<ol>` or
    `<ul>`, one `<li>` per line) or a paragraph (lines joined by `<br>`), with
    `**x**` turned into `<strong>x</strong>`. Regular expressions are modelled
    by what they match: `\s` is JavaScript whitespace, `.` is any character
    but a line terminator, `\d` an ASCII digit. */
module AnswerFormat {
  import opened Strings

  // ---------------------------------------------------------------------
  // Sections: text.split(/\n\s*\n/)
  // ---------------------------------------------------------------------

  /** A separator: a newline, any whitespace, a newline. */
  predicate IsBlankLine(sep: string)
  {
    && |sep| >= 2 && sep[0] == '\n' && sep[|sep| - 1] == '\n'
    && forall k :: 0 <= k < |sep| ==> IsJsSpace(sep[k])
  }

  /** `t` contains a match of `\n\s*\n` somewhere. */
  predicate HasBlankLine(t: string)
  {
    exists i, j :: 0 <= i < j <= |t| && IsBlankLine(t[i..j])
  }

  /** End of the run of whitespace that starts at `k`. */
  function SpaceRunEnd(s: string, k: nat): (e: nat)
    requires k <= |s|
    ensures k <= e <= |s|
    ensures forall j :: k <= j < e ==> IsJsSpace(s[j])
    ensures e < |s| ==> !IsJsSpace(s[e])
    decreases |s| - k
  {
    if k < |s| && IsJsSpace(s[k]) then SpaceRunEnd(s, k + 1) else k
  }

  /** The position of the last newline in `s[lo..hi]`. */
  function LastNewline(s: string, lo: nat, hi: nat): (r: Option<nat>)
    requires lo <= hi <= |s|
    ensures r.Some? ==> lo <= r.value < hi && s[r.value] == '\n'
    ensures r.Some? ==> forall j :: r.value < j < hi ==> s[j] != '\n'
    ensures r.None? ==> forall j :: lo <= j < hi ==> s[j] != '\n'
    decreases hi - lo
  {
    if hi == lo then None
    else if s[hi - 1] == '\n' then Some(hi - 1)
    else LastNewline(s, lo, hi - 1)
  }

  /** Where a match of `\n\s*\n` starting at `q` ends, if one starts there:
      the greedy `\s*` runs to the end of the whitespace and gives back
      characters until a newline follows. */
  function MatchEnd(s: string, q: nat): (e: Option<nat>)
    requires q < |s|
    ensures e.Some? ==> q + 2 <= e.value <= |s| && IsBlankLine(s[q..e.value])
  {
    if s[q] != '\n' then None
    else
      match LastNewline(s, q + 1, SpaceRunEnd(s, q + 1))
      case None => None
      case Some(k) => Some(k + 1)
  }

  /** The match found at `q` is the longest separator starting there. */
  lemma MatchEndLongest(s: string, q: nat, e: nat)
    requires q < e <= |s| && IsBlankLine(s[q..e])
    ensures MatchEnd(s, q).Some? && e <= MatchEnd(s, q).value
  {
    assert s[q] == s[q..e][0];
    assert s[e - 1] == s[q..e][e - 1 - q];
    forall j | q + 1 <= j < e
      ensures IsJsSpace(s[j])
    {
      assert s[j] == s[q..e][j - q];
    }
    var run := SpaceRunEnd(s, q + 1);
    assert e <= run;
  }

  /** The pieces of a split and the separators matched between them. */
  datatype Split = Split(pieces: seq<string>, seps: seq<string>)

  /** `split` scanning `s` for a match from position `q` on; the piece under
      construction starts at 0. */
  function SplitFrom(s: string, q: nat): (r: Split)
    requires q <= |s|
    ensures |r.pieces| == |r.seps| + 1
    ensures forall i :: 0 <= i < |r.seps| ==> IsBlankLine(r.seps[i])
    decreases |s|, |s| - q
  {
    if q == |s| then Split([s], [])
    else
      match MatchEnd(s, q)
      case Some(e) =>
        var rest := SplitFrom(s[e..], 0);
        Split([s[..q]] + rest.pieces, [s[q..e]] + rest.seps)
      case None => SplitFrom(s, q + 1)
  }

  /** `text.split(/\n\s*\n/)`, with the separators it cut out. */
  function SplitSections(text: string): Split
  {
    SplitFrom(text, 0)
  }

  /** Pieces and separators, alternately. */
  function Weave(pieces: seq<string>, seps: seq<string>): string
    requires |pieces| == |seps| + 1
  {
    if |seps| == 0 then pieces[0] else pieces[0] + seps[0] + Weave(pieces[1..], seps[1..])
  }

  lemma {:induction false} SplitFromWeave(s: string, q: nat)
    requires q <= |s|
    ensures Weave(SplitFrom(s, q).pieces, SplitFrom(s, q).seps) == s
    decreases |s|, |s| - q
  {
    if q < |s| {
      match MatchEnd(s, q)
      case Some(e) =>
        var rest := SplitFrom(s[e..], 0);
        SplitFromWeave(s[e..], 0);
        WeaveCons(s[..q], s[q..e], rest.pieces, rest.seps);
        ThreeParts(s, q, e);
      case None =>
        SplitFromWeave(s, q + 1);
    }
  }

  lemma WeaveCons(p: string, sep: string, pieces: seq<string>, seps: seq<string>)
    requires |pieces| == |seps| + 1
    ensures Weave([p] + pieces, [sep] + seps) == p + sep + Weave(pieces, seps)
  {
    assert ([p] + pieces)[1..] == pieces && ([sep] + seps)[1..] == seps;
  }

  lemma ThreeParts(s: string, q: nat, e: nat)
    requires q <= e <= |s|
    ensures s[..q] + s[q..e] + s[e..] == s
  {
  }

  /** Putting the separators back between the sections gives the text. */
  lemma SplitSectionsWeave(text: string)
    ensures var r := SplitSections(text);
            Weave(r.pieces, r.seps) == text
  {
    SplitFromWeave(text, 0);
  }

  /** A match that starts at `q` is a blank line of `s`. */
  lemma MatchIsBlankLine(s: string, q: nat)
    requires q < |s| && MatchEnd(s, q).Some?
    ensures HasBlankLine(s)
  {
    var e := MatchEnd(s, q).value;
    assert IsBlankLine(s[q..e]);
  }

  /** Scanning past positions where no match starts changes nothing. */
  lemma {:induction false} SplitFromSkip(s: string, q: nat, q': nat)
    requires q <= q' <= |s|
    requires forall j :: q <= j < q' ==> MatchEnd(s, j).None?
    ensures SplitFrom(s, q) == SplitFrom(s, q')
    decreases q' - q
  {
    if q < q' {
      SplitFromSkip(s, q + 1, q');
    }
  }

  /** A text in which no match starts before `q` has no blank line before `q`. */
  lemma NoBlankLineBefore(s: string, q: nat)
    requires q <= |s|
    requires forall j :: 0 <= j < q ==> MatchEnd(s, j).None?
    ensures !HasBlankLine(s[..q])
  {
    forall i, j | 0 <= i < j <= q
      ensures !IsBlankLine(s[..q][i..j])
    {
      assert s[..q][i..j] == s[i..j];
      if IsBlankLine(s[i..j]) {
        MatchEndLongest(s, i, j);
      }
    }
  }

  /** No piece contains a blank line. */
  lemma {:induction false} SplitFromPieces(s: string, q: nat)
    requires q <= |s|
    requires forall j :: 0 <= j < q ==> MatchEnd(s, j).None?
    ensures forall i :: 0 <= i < |SplitFrom(s, q).pieces| ==> !HasBlankLine(SplitFrom(s, q).pieces[i])
    decreases |s|, |s| - q
  {
    var r := SplitFrom(s, q);
    if q == |s| {
      NoBlankLineBefore(s, q);
      assert s[..q] == s;
    } else if MatchEnd(s, q).Some? {
      var e := MatchEnd(s, q).value;
      var tail := s[e..];
      SplitFromPieces(tail, 0);
      NoBlankLineBefore(s, q);
      var rest := SplitFrom(tail, 0);
      assert r.pieces == [s[..q]] + rest.pieces;
      assert r.pieces[0] == s[..q];
      forall i | 0 <= i < |r.pieces|
        ensures !HasBlankLine(r.pieces[i])
      {
        if i == 0 {
          assert r.pieces[i] == s[..q];
        } else {
          assert r.pieces[i] == rest.pieces[i - 1];
        }
      }
    } else {
      assert r == SplitFrom(s, q + 1);
      SplitFromPieces(s, q + 1);
    }
  }

  /** Sections never contain a blank line, and a text without one is a
      single section. */
  lemma SplitSectionsPieces(text: string)
    ensures var r := SplitSections(text);
            forall i :: 0 <= i < |r.pieces| ==> !HasBlankLine(r.pieces[i])
    ensures !HasBlankLine(text) ==> SplitSections(text) == Split([text], [])
  {
    SplitFromPieces(text, 0);
    if !HasBlankLine(text) {
      forall j | 0 <= j < |text|
        ensures MatchEnd(text, j).None?
      {
        if MatchEnd(text, j).Some? {
          MatchIsBlankLine(text, j);
        }
      }
      SplitFromSkip(text, 0, |text|);
    }
  }

  /** A blank line needs two newlines, so a text with at most one has none. */
  lemma OneNewlineNoBlankLine(x: string, y: string)
    requires '\n' !in x && '\n' !in y
    ensures !HasBlankLine(x) && !HasBlankLine(x + "\n" + y)
  {
    forall i, j | 0 <= i < j <= |x|
      ensures !IsBlankLine(x[i..j])
    {
      assert x[i..j][0] == x[i];
    }
    var t := x + "\n" + y;
    forall k | 0 <= k < |t| && k != |x|
      ensures t[k] != '\n'
    {
      if k < |x| {
        assert t[k] == x[k];
      } else {
        assert t[k] == y[k - |x| - 1];
      }
    }
    forall i, j | 0 <= i < j <= |t|
      ensures !IsBlankLine(t[i..j])
    {
      assert t[i..j][0] == t[i];
      assert j - i >= 2 ==> t[i..j][j - i - 1] == t[j - 1];
    }
  }

  /** An empty line between two sections that neither end nor begin with
      whitespace, and free of blank lines before it, cuts exactly there. */
  lemma SplitSectionsAtEmptyLine(a: string, b: string)
    requires !HasBlankLine(a)
    requires |a| == 0 || !IsJsSpace(a[|a| - 1])
    requires |b| == 0 || !IsJsSpace(b[0])
    ensures SplitSections(a + "\n\n" + b)
            == Split([a] + SplitSections(b).pieces, ["\n\n"] + SplitSections(b).seps)
  {
    var s := a + "\n\n" + b;
    forall j, e | 0 <= j < |a| && j < e <= |s|
      ensures !IsBlankLine(s[j..e])
    {
      if e <= |a| {
        assert s[j..e] == a[j..e];
      } else {
        assert s[j..e][|a| - 1 - j] == a[|a| - 1];
      }
    }
    forall j | 0 <= j < |a|
      ensures MatchEnd(s, j).None?
    {
    }
    SplitFromSkip(s, 0, |a|);
    assert s[|a|] == '\n' && s[|a| + 1] == '\n';
    assert |b| > 0 ==> s[|a| + 2] == b[0];
    assert SpaceRunEnd(s, |a| + 2) == |a| + 2;
    assert SpaceRunEnd(s, |a| + 1) == |a| + 2;
    assert MatchEnd(s, |a|) == Some(|a| + 2);
    assert s[..|a|] == a && s[|a|..|a| + 2] == "\n\n" && s[|a| + 2..] == b;
  }

  // ---------------------------------------------------------------------
  // Bold: line.replace(/\*\*(.*?)\*\*/g, '<strong>$1</strong>')
  // ---------------------------------------------------------------------

  /** What `.` does not match. */
  predicate IsLineTerminator(c: char)
  {
    c == '\n' || c == '\r' || c == '\U{2028}' || c == '\U{2029}'
  }

  /** "**" starts at `k`. */
  predicate StarsAt(s: string, k: int)
  {
    0 <= k && k + 1 < |s| && s[k] == '*' && s[k + 1] == '*'
  }

  /** The closing "**" of the lazy `(.*?)` that starts at `j`: the first "**"
      from `j` on, provided no line terminator comes before it. */
  function CloseAt(s: string, j: nat): (r: Option<nat>)
    requires j <= |s|
    ensures r.Some? ==> j <= r.value && StarsAt(s, r.value)
    ensures r.Some? ==> forall k :: j <= k < r.value ==> !IsLineTerminator(s[k]) && !StarsAt(s, k)
    decreases |s| - j
  {
    if StarsAt(s, j) then Some(j)
    else if j < |s| && !IsLineTerminator(s[j]) then CloseAt(s, j + 1)
    else None
  }

  /** With no closing "**" found, every later "**" has a line terminator
      before it. */
  lemma {:induction false} CloseAtNone(s: string, j: nat, k: nat)
    requires j <= k <= |s| && CloseAt(s, j).None? && StarsAt(s, k)
    ensures exists t :: j <= t < k && IsLineTerminator(s[t])
    decreases |s| - j
  {
    if !IsLineTerminator(s[j]) {
      CloseAtNone(s, j + 1, k);
    }
  }

  const StrongOpen := "<strong>"
  const StrongClose := "</strong>"

  /** `convertBold`: each leftmost, shortest `**x**` on one line becomes
      `<strong>x</strong>`; scanning resumes after the closing "**". */
  function ConvertBold(s: string): string
    decreases |s|
  {
    if |s| == 0 then ""
    else if StarsAt(s, 0) && CloseAt(s, 2).Some? then
      var k := CloseAt(s, 2).value;
      StrongOpen + s[2..k] + StrongClose + ConvertBold(s[k + 2..])
    else [s[0]] + ConvertBold(s[1..])
  }

  /** Text without a star passes through unchanged, before whatever follows. */
  lemma {:induction false} ConvertBoldPlain(x: string, rest: string)
    requires '*' !in x
    ensures ConvertBold(x + rest) == x + ConvertBold(rest)
  {
    if |x| == 0 {
      assert x + rest == rest;
    } else {
      assert x[0] in x;
      assert (x + rest)[1..] == x[1..] + rest;
      ConvertBoldPlain(x[1..], rest);
    }
  }

  /** A line with no "**" at all is unchanged. */
  lemma {:induction false} ConvertBoldNoStars(s: string)
    requires forall k :: 0 <= k < |s| ==> !StarsAt(s, k)
    ensures ConvertBold(s) == s
  {
    if |s| > 0 {
      forall k | 0 <= k < |s| - 1
        ensures !StarsAt(s[1..], k)
      {
        assert !StarsAt(s, k + 1);
      }
      ConvertBoldNoStars(s[1..]);
    }
  }

  /** `**x**` with a star-free, single-line `x` becomes `<strong>x</strong>`. */
  lemma ConvertBoldPair(x: string, rest: string)
    requires '*' !in x
    requires forall k :: 0 <= k < |x| ==> !IsLineTerminator(x[k])
    ensures ConvertBold("**" + x + "**" + rest) == StrongOpen + x + StrongClose + ConvertBold(rest)
  {
    var s := "**" + x + "**" + rest;
    forall k | 2 <= k < 2 + |x|
      ensures !IsLineTerminator(s[k]) && !StarsAt(s, k)
    {
      assert s[k] == x[k - 2];
    }
    CloseAtFirst(s, 2, 2 + |x|);
    assert s[2..2 + |x|] == x;
    assert s[2 + |x| + 2..] == rest;
  }

  /** The lazy scan stops at the first "**" it reaches on the line. */
  lemma {:induction false} CloseAtFirst(s: string, j: nat, k: nat)
    requires j <= k && StarsAt(s, k)
    requires forall t :: j <= t < k ==> !IsLineTerminator(s[t]) && !StarsAt(s, t)
    ensures CloseAt(s, j) == Some(k)
    decreases k - j
  {
    if j < k {
      CloseAtFirst(s, j + 1, k);
    }
  }

  /** An opening "**" that is never closed stays as it is. */
  lemma UnclosedBoldUnchanged(x: string)
    requires '*' !in x
    ensures ConvertBold("**" + x) == "**" + x
  {
    var s := "**" + x;
    forall k | 2 <= k < |s|
      ensures !StarsAt(s, k)
    {
      assert s[k] == x[k - 2];
    }
    assert s[1..] == "*" + x;
    assert ("*" + x)[1..] == x;
    ConvertBoldPlain(x, "");
    assert x + "" == x;
  }

  /** Scanning from `j` in `s` and from `j - 1` in `s[1..]` find the same
      closing "**", one position apart. */
  lemma {:induction false} CloseAtShift(s: string, j: nat)
    requires 1 <= j <= |s|
    ensures CloseAt(s[1..], j - 1).Some? <==> CloseAt(s, j).Some?
    ensures CloseAt(s, j).Some? ==> CloseAt(s[1..], j - 1).value == CloseAt(s, j).value - 1
    decreases |s| - j
  {
    var t := s[1..];
    assert StarsAt(t, j - 1) <==> StarsAt(s, j);
    if !StarsAt(s, j) && j < |s| && !IsLineTerminator(s[j]) {
      assert t[j - 1] == s[j];
      CloseAtShift(s, j + 1);
    } else if !StarsAt(s, j) && j < |s| {
      assert t[j - 1] == s[j];
    }
  }

  /** A line in which no "**" is ever closed is unchanged. */
  lemma {:induction false} NoClosingUnchanged(s: string)
    requires forall k :: StarsAt(s, k) ==> CloseAt(s, k + 2).None?
    ensures ConvertBold(s) == s
    decreases |s|
  {
    if |s| > 0 {
      var t := s[1..];
      forall k | StarsAt(t, k)
        ensures CloseAt(t, k + 2).None?
      {
        assert StarsAt(s, k + 1);
        CloseAtShift(s, k + 3);
      }
      NoClosingUnchanged(t);
      assert s == [s[0]] + t;
    }
  }

  /** A line terminator met before any "**" leaves the lazy group unclosed. */
  lemma {:induction false} CloseAtBlocked(s: string, j: nat, t: nat)
    requires j <= t < |s| && IsLineTerminator(s[t])
    requires forall k :: j <= k < t ==> !StarsAt(s, k) && !IsLineTerminator(s[k])
    ensures CloseAt(s, j).None?
    decreases t - j
  {
    if j < t {
      CloseAtBlocked(s, j + 1, t);
    }
  }

  /** An opening "**" whose lazy group never closes is copied, and the scan
      goes on after it. */
  lemma UnclosedOpen(s: string)
    requires StarsAt(s, 0) && CloseAt(s, 2).None?
    ensures ConvertBold(s) == "**" + ConvertBold(s[2..])
  {
    var s1 := s[1..];
    assert s1[1..] == s[2..];
    if |s| > 2 && s[2] == '*' {
      // "***…": the group opened at 1 finds no close either
      assert CloseAt(s, 2) == CloseAt(s, 3);
      CloseAtShift(s, 3);
      assert StarsAt(s1, 0) && CloseAt(s1, 2).None?;
    } else if |s| > 2 {
      assert s1[1] == s[2];
      assert !StarsAt(s1, 0);
    } else {
      assert s1 == "*";
    }
  }

  /** In `**x`, a line break, `y**` the lazy group never closes. */
  lemma BrokenGroup(x: string, c: char, y: string)
    requires '*' !in x && IsLineTerminator(c)
    requires forall k :: 0 <= k < |x| ==> !IsLineTerminator(x[k])
    ensures CloseAt("**" + (x + [c] + y) + "**", 2).None?
  {
    var s := "**" + (x + [c] + y) + "**";
    var t := |x| + 2;
    forall k | 2 <= k < t
      ensures !StarsAt(s, k) && !IsLineTerminator(s[k])
    {
      assert s[k] == x[k - 2];
    }
    assert s[t] == c;
    CloseAtBlocked(s, 2, t);
  }

  /** A lone "**" is copied as it is. */
  lemma LoneStars(t: string)
    requires t == "**"
    ensures ConvertBold(t) == t
  {
    UnclosedBoldUnchanged("");
    assert "**" + "" == t;
  }

  /** Where the pieces of `**body**` sit. */
  lemma WrappedBody(body: string, s: string)
    requires |body| > 0 && s == "**" + body + "**"
    ensures StarsAt(s, 0) && |s| > 2 && s[2] == body[0] && s[2..] == body + "**"
  {
  }

  /** `**body**` whose lazy group never closes stays as it is. */
  lemma UnclosedStays(body: string)
    requires |body| > 0 && '*' !in body
    requires CloseAt("**" + body + "**", 2).None?
    ensures ConvertBold("**" + body + "**") == "**" + body + "**"
  {
    var s := "**" + body + "**";
    var t := "**";
    WrappedBody(body, s);
    UnclosedOpen(s);
    ConvertBoldPlain(body, t);
    LoneStars(t);
  }

  lemma StarFreeJoin(x: string, c: char, y: string)
    requires '*' !in x && '*' !in y && c != '*'
    ensures '*' !in x + [c] + y
  {
    var body := x + [c] + y;
    forall k | 0 <= k < |body| ensures body[k] != '*' {
      if k < |x| { assert body[k] == x[k]; }
      else if k > |x| { assert body[k] == y[k - |x| - 1]; }
    }
  }

  /** A line terminator between the stars stops the match: `**x`, a line
      break, `y**` stays as it is. */
  lemma LineBreakBlocksBold(x: string, c: char, y: string)
    requires '*' !in x && '*' !in y && IsLineTerminator(c)
    requires forall k :: 0 <= k < |x| ==> !IsLineTerminator(x[k])
    ensures ConvertBold("**" + (x + [c] + y) + "**") == "**" + (x + [c] + y) + "**"
  {
    var body := x + [c] + y;
    StarFreeJoin(x, c, y);
    BrokenGroup(x, c, y);
    UnclosedStays(body);
  }

  /** Leftmost and shortest: in `**x**y**` the first pair closes at the
      second "**" and the last "**" is left over. */
  lemma BoldLeftmostShortest(x: string, y: string)
    requires '*' !in x && '*' !in y
    requires forall k :: 0 <= k < |x| ==> !IsLineTerminator(x[k])
    ensures ConvertBold("**" + x + "**" + (y + "**")) == StrongOpen + x + StrongClose + (y + "**")
  {
    var t := "**";
    ConvertBoldPair(x, y + t);
    ConvertBoldPlain(y, t);
    LoneStars(t);
  }

  // ---------------------------------------------------------------------
  // List lines: /^\s*[*\-\d]+\.? / and the marker /^[*\-\d]+\.?\s*/
  // ---------------------------------------------------------------------

  predicate IsDigit(c: char) { '0' <= c <= '9' }

  /** A character of the class `[*\-\d]`. */
  predicate IsMarkerChar(c: char) { c == '*' || c == '-' || IsDigit(c) }

  /** Length of the leading run of marker characters. */
  function MarkerRun(t: string): (n: nat)
    ensures n <= |t|
    ensures forall k :: 0 <= k < n ==> IsMarkerChar(t[k])
    ensures n < |t| ==> !IsMarkerChar(t[n])
  {
    if |t| > 0 && IsMarkerChar(t[0]) then 1 + MarkerRun(t[1..]) else 0
  }

  /** A marker run, an optional '.', then a space. Neither '.' nor ' ' is a
      marker character, so the greedy run is the only one that can match. */
  predicate IsListText(t: string)
  {
    var m := MarkerRun(t);
    && m >= 1
    && ((m < |t| && t[m] == ' ') || (m + 1 < |t| && t[m] == '.' && t[m + 1] == ' '))
  }

  /** `/^\s*[*\-\d]+\.? /.test(line)`: a list line after leading whitespace. */
  predicate IsListLine(line: string)
  {
    IsListText(TrimStart(line, IsJsSpace))
  }

  /** The pattern matches with a marker of length `m`. */
  predicate MarkerAt(t: string, m: int)
  {
    && 1 <= m <= |t|
    && (forall k :: 0 <= k < m ==> IsMarkerChar(t[k]))
    && (StartsWith(t[m..], " ") || StartsWith(t[m..], ". "))
  }

  /** `IsListText` is the regular expression: some marker length matches. */
  lemma ListTextIff(t: string)
    ensures IsListText(t) <==> exists m :: MarkerAt(t, m)
  {
    var n := MarkerRun(t);
    if IsListText(t) {
      assert t[n..][0] == t[n];
      assert n + 1 < |t| ==> t[n..][1] == t[n + 1];
      assert MarkerAt(t, n);
    }
    forall m | MarkerAt(t, m)
      ensures IsListText(t)
    {
      MarkerAtIsRun(t, m);
    }
  }

  /** A matching marker length is the whole marker run. */
  lemma MarkerAtIsRun(t: string, m: int)
    requires MarkerAt(t, m)
    ensures m == MarkerRun(t) && IsListText(t)
  {
    assert t[m..][0] == t[m];
    assert !IsMarkerChar(t[m]);
    assert |t[m..]| >= 2 && t[m..][0] == '.' ==> t[m..][1] == t[m + 1];
  }

  /** `/^\s*\d/`: the first character after leading whitespace is a digit. */
  predicate BeginsWithDigit(line: string)
  {
    var t := TrimStart(line, IsJsSpace);
    |t| > 0 && IsDigit(t[0])
  }

  /** Replacing the pattern `^[*\-\d]+\.?\s*` by '': drops the marker run,
      one '.' after it, and the whitespace that follows; without a marker,
      nothing. */
  function StripMarker(t: string): (r: string)
    ensures |r| <= |t| && r == t[|t| - |r|..]
  {
    var m := MarkerRun(t);
    if m == 0 then t
    else
      var d := if m < |t| && t[m] == '.' then m + 1 else m;
      TrimStart(t[d..], IsJsSpace)
  }

  /** Stripping undoes writing a marker: a marker, an optional '.', some
      whitespace and then the item text give back the item text. */
  lemma StripMarkerInverse(marker: string, dot: string, space: string, item: string)
    requires |marker| >= 1 && forall k :: 0 <= k < |marker| ==> IsMarkerChar(marker[k])
    requires dot == "" || dot == "."
    requires |space| >= 1 && forall k :: 0 <= k < |space| ==> IsJsSpace(space[k])
    requires |item| == 0 || !IsJsSpace(item[0])
    ensures StripMarker(marker + dot + space + item) == item
  {
    if dot == "" {
      assert marker + dot + space + item == marker + (space + item);
      StripNoDot(marker, space, item);
    } else {
      assert marker + dot + space + item == marker + ("." + (space + item));
      StripWithDot(marker, space, item);
    }
  }

  lemma StripNoDot(marker: string, space: string, item: string)
    requires |marker| >= 1 && forall k :: 0 <= k < |marker| ==> IsMarkerChar(marker[k])
    requires |space| >= 1 && forall k :: 0 <= k < |space| ==> IsJsSpace(space[k])
    requires |item| == 0 || !IsJsSpace(item[0])
    ensures StripMarker(marker + (space + item)) == item
  {
    var rest := space + item;
    assert rest[0] == space[0];
    StripAfterMarker(marker, rest);
    TrimStartPrefix(space, item, IsJsSpace);
  }

  lemma StripWithDot(marker: string, space: string, item: string)
    requires |marker| >= 1 && forall k :: 0 <= k < |marker| ==> IsMarkerChar(marker[k])
    requires |space| >= 1 && forall k :: 0 <= k < |space| ==> IsJsSpace(space[k])
    requires |item| == 0 || !IsJsSpace(item[0])
    ensures StripMarker(marker + ("." + (space + item))) == item
  {
    var rest := "." + (space + item);
    assert rest[0] == '.' && rest[1..] == space + item;
    StripAfterMarker(marker, rest);
    TrimStartPrefix(space, item, IsJsSpace);
  }

  /** After a marker run the strip removes one '.' if present and then the
      leading whitespace. */
  lemma StripAfterMarker(marker: string, rest: string)
    requires |marker| >= 1 && forall k :: 0 <= k < |marker| ==> IsMarkerChar(marker[k])
    requires |rest| == 0 || !IsMarkerChar(rest[0])
    ensures StripMarker(marker + rest)
            == TrimStart(rest[if |rest| > 0 && rest[0] == '.' then 1 else 0..], IsJsSpace)
  {
    var t := marker + rest;
    MarkerRunPrefix(marker, rest);
    var m := |marker|;
    assert m < |t| ==> t[m] == rest[0];
    var d := if |rest| > 0 && rest[0] == '.' then 1 else 0;
    assert t[m + d..] == rest[d..];
  }

  lemma {:induction false} MarkerRunPrefix(marker: string, rest: string)
    requires forall k :: 0 <= k < |marker| ==> IsMarkerChar(marker[k])
    requires |rest| == 0 || !IsMarkerChar(rest[0])
    ensures MarkerRun(marker + rest) == |marker|
  {
    if |marker| == 0 {
      assert marker + rest == rest;
    } else {
      assert (marker + rest)[1..] == marker[1..] + rest;
      MarkerRunPrefix(marker[1..], rest);
    }
  }

  // ---------------------------------------------------------------------
  // Sections and the whole answer
  // ---------------------------------------------------------------------

  const SectionOpen := "<div class=\"section\">"
  const SectionClose := "</div>"

  /** Every line of the section is a list line. */
  predicate AllListLines(lines: seq<string>)
  {
    forall k :: 0 <= k < |lines| ==> IsListLine(JsTrim(lines[k]))
  }

  /** One `<li>`: the trimmed line without its marker, bold converted. */
  function ListItem(line: string): string
  {
    "<li>" + ConvertBold(StripMarker(JsTrim(line))) + "</li>"
  }

  function ListItems(lines: seq<string>): (items: seq<string>)
    ensures |items| == |lines|
    ensures forall k :: 0 <= k < |lines| ==> items[k] == ListItem(lines[k])
  {
    seq(|lines|, k requires 0 <= k < |lines| => ListItem(lines[k]))
  }

  function BoldLines(lines: seq<string>): (out: seq<string>)
    ensures |out| == |lines|
    ensures forall k :: 0 <= k < |lines| ==> out[k] == ConvertBold(lines[k])
  {
    seq(|lines|, k requires 0 <= k < |lines| => ConvertBold(lines[k]))
  }

  /** The HTML of one list section: `<ol>` when its first line starts with a
      digit, else `<ul>`, around one item per line. */
  function ListHtml(lines: seq<string>): string
    requires |lines| >= 1
  {
    var ordered := BeginsWithDigit(JsTrim(lines[0]));
    (if ordered then "<ol>" else "<ul>") + Concat(ListItems(lines)) + (if ordered then "</ol>" else "</ul>")
  }

  /** The HTML of one paragraph section: its lines, untrimmed and bold
      converted, joined by `<br>`. */
  function ParagraphHtml(lines: seq<string>): string
  {
    "<p>" + Join("<br>", BoldLines(lines)) + "</p>"
  }

  /** `<div class="section">body</div>`. */
  function InSection(body: string): (r: string)
    ensures |r| == |SectionOpen| + |body| + |SectionClose|
    ensures StartsWith(r, SectionOpen) && EndsWith(r, SectionClose)
    ensures r[|SectionOpen|..|r| - |SectionClose|] == body
  {
    var r := SectionOpen + body + SectionClose;
    assert r[..|SectionOpen|] == SectionOpen;
    assert r[|SectionOpen| + |body|..] == SectionClose;
    r
  }

  /** The callback of `sections.map`: nothing for a blank section, else one
      section element. */
  function FormatSection(section: string): (r: string)
    ensures r == "" <==> forall k :: 0 <= k < |section| ==> IsJsSpace(section[k])
    ensures r != "" ==> StartsWith(r, SectionOpen) && EndsWith(r, SectionClose)
  {
    var t := JsTrim(section);
    if t == "" then ""
    else
      var lines := SplitOn(t, '\n');
      InSection(if AllListLines(lines) then ListHtml(lines) else ParagraphHtml(lines))
  }

  /** A non-blank section whose trimmed lines are all list lines is a list
      with one item per line (by `ListItems`). */
  lemma SectionIsList(section: string)
    requires JsTrim(section) != "" && AllListLines(SplitOn(JsTrim(section), '\n'))
    ensures FormatSection(section) == InSection(ListHtml(SplitOn(JsTrim(section), '\n')))
  {
  }

  /** A non-blank section with a line that is not a list line is a paragraph. */
  lemma SectionIsParagraph(section: string)
    requires JsTrim(section) != "" && !AllListLines(SplitOn(JsTrim(section), '\n'))
    ensures FormatSection(section) == InSection(ParagraphHtml(SplitOn(JsTrim(section), '\n')))
  {
  }

  /** The list is ordered exactly when its first line begins with a digit. */
  lemma ListOrdered(lines: seq<string>)
    requires |lines| >= 1
    ensures StartsWith(ListHtml(lines), "<ol>") <==> BeginsWithDigit(JsTrim(lines[0]))
    ensures EndsWith(ListHtml(lines), "</ol>") <==> BeginsWithDigit(JsTrim(lines[0]))
  {
    var h := ListHtml(lines);
    var inner := Concat(ListItems(lines));
    if BeginsWithDigit(JsTrim(lines[0])) {
      assert h == "<ol>" + inner + "</ol>";
      WrappedShape("<ol>", inner, "</ol>");
    } else {
      assert h == "<ul>" + inner + "</ul>";
      WrappedShape("<ul>", inner, "</ul>");
      TagsDiffer();
    }
  }

  lemma TagsDiffer()
    ensures "<ul>" != "<ol>" && "</ul>" != "</ol>"
  {
    assert "<ul>"[1] != "<ol>"[1];
    assert "</ul>"[2] != "</ol>"[2];
  }

  /** `open + inner + close` starts with `open` and ends with `close`. */
  lemma WrappedShape(open: string, inner: string, close: string)
    ensures var h := open + inner + close;
            && |h| == |open| + |inner| + |close|
            && h[..|open|] == open && h[|h| - |close|..] == close
  {
  }

  /** The map over the sections, joined with ''. */
  function FormatSections(sections: seq<string>): string
  {
    if |sections| == 0 then "" else FormatSection(sections[0]) + FormatSections(sections[1..])
  }

  /** `formatAnswer(text)`. */
  function FormatAnswer(text: string): string
  {
    FormatSections(SplitSections(text).pieces)
  }

  /** Text without a blank line is formatted as one section. */
  lemma FormatSingleSection(text: string)
    requires !HasBlankLine(text)
    ensures FormatAnswer(text) == FormatSection(text)
  {
    SplitSectionsPieces(text);
    assert FormatSections([text]) == FormatSection(text) + FormatSections([text][1..]);
    assert [text][1..] == [];
  }

  /** An empty line splits the answer into the section before it and the
      formatting of the rest. */
  lemma FormatAtEmptyLine(a: string, b: string)
    requires !HasBlankLine(a)
    requires |a| == 0 || !IsJsSpace(a[|a| - 1])
    requires |b| == 0 || !IsJsSpace(b[0])
    ensures FormatAnswer(a + "\n\n" + b) == FormatSection(a) + FormatAnswer(b)
  {
    SplitSectionsAtEmptyLine(a, b);
    var pieces := [a] + SplitSections(b).pieces;
    assert pieces[1..] == SplitSections(b).pieces;
  }

  /** A line that begins with neither whitespace nor a marker character is
      not a list line. */
  lemma PlainLineNotList(line: string)
    requires |line| > 0 && !IsJsSpace(line[0]) && !IsMarkerChar(line[0])
    ensures !IsListLine(line)
  {
    assert TrimStart(line, IsJsSpace) == line;
  }

  /** One star-free line makes the paragraph `<p>line</p>`. */
  lemma ParagraphOneLine(line: string)
    requires '*' !in line
    ensures ParagraphHtml([line]) == "<p>" + line + "</p>"
  {
    ConvertBoldPlain(line, "");
    assert line + "" == line;
    assert BoldLines([line]) == [line];
  }

  /** A single line without stars that starts with neither whitespace nor a
      marker character is one paragraph. */
  lemma PlainSection(line: string)
    requires |line| > 0 && !IsJsSpace(line[0]) && !IsJsSpace(line[|line| - 1])
    requires !IsMarkerChar(line[0]) && '\n' !in line && '*' !in line
    ensures FormatSection(line) == InSection("<p>" + line + "</p>")
  {
    TrimWithUnchanged(line, IsJsSpace);
    assert JsTrim(line) == line;
    SplitOnNoSeparator(line, '\n');
    PlainLineNotList(line);
    assert [line][0] == line;
    assert !AllListLines([line]);
    SectionIsParagraph(line);
    ParagraphOneLine(line);
  }

  /** Plain single-line text to use in sections: non-empty, neither end
      whitespace, no star, no line terminator. */
  predicate PlainWord(x: string)
  {
    && |x| > 0 && !IsJsSpace(x[0]) && !IsJsSpace(x[|x| - 1])
    && '*' !in x
    && forall k :: 0 <= k < |x| ==> !IsLineTerminator(x[k])
  }

  /** `d + ". " + item`: a numbered list line. */
  function Numbered(d: char, item: string): string
  {
    [d] + ". " + item
  }

  /** A numbered line whose item neither starts nor ends with whitespace is
      its own trim, a list line beginning with a digit, and strips to its item. */
  lemma NumberedLine(d: char, item: string)
    requires IsDigit(d)
    requires |item| > 0 && !IsJsSpace(item[0]) && !IsJsSpace(item[|item| - 1])
    ensures JsTrim(Numbered(d, item)) == Numbered(d, item)
    ensures IsListLine(Numbered(d, item)) && BeginsWithDigit(Numbered(d, item))
    ensures StripMarker(Numbered(d, item)) == item
  {
    NumberedLineTrim(d, item);
    NumberedLineIsList(d, item);
    NumberedLineStrip(d, item);
  }

  lemma NumberedLineTrim(d: char, item: string)
    requires IsDigit(d)
    requires |item| > 0 && !IsJsSpace(item[|item| - 1])
    ensures JsTrim(Numbered(d, item)) == Numbered(d, item)
  {
    var l := Numbered(d, item);
    assert l[0] == d && l[|l| - 1] == item[|item| - 1];
    TrimWithUnchanged(l, IsJsSpace);
  }

  lemma NumberedLineStrip(d: char, item: string)
    requires IsDigit(d)
    requires |item| == 0 || !IsJsSpace(item[0])
    ensures StripMarker(Numbered(d, item)) == item
  {
    NumberedParts(d, item);
    StripAfterMarker([d], ". " + item);
    TrimStartPrefix(" ", item, IsJsSpace);
  }

  /** A numbered line is its digit, then '.', then a space and the item. */
  lemma NumberedParts(d: char, item: string)
    ensures Numbered(d, item) == [d] + (". " + item)
    ensures (". " + item)[0] == '.' && (". " + item)[1..] == " " + item
  {
  }

  lemma NumberedLineIsList(d: char, item: string)
    requires IsDigit(d)
    ensures IsListLine(Numbered(d, item)) && BeginsWithDigit(Numbered(d, item))
  {
    var rest := ". " + item;
    var l := [d] + rest;
    assert Numbered(d, item) == l;
    assert rest[0] == '.';
    MarkerRunPrefix([d], rest);
    assert l[1] == '.' && l[2] == ' ';
    TrimStartPrefix("", l, IsJsSpace);
    assert "" + l == l;
  }

  /** Two numbered lines, the second in bold, make an ordered list of two
      items with the markers removed and the bold converted. */
  lemma OrderedListSection(x: string, y: string)
    requires PlainWord(x) && PlainWord(y)
    ensures FormatSection("1. " + x + "\n2. **" + y + "**")
            == InSection("<ol><li>" + x + "</li><li><strong>" + y + "</strong></li></ol>")
  {
    var body2 := "**" + y + "**";
    var l1, l2 := Numbered('1', x), Numbered('2', body2);
    TwoLineText(x, y);
    NoNewline(x, y);
    NumberedLine('1', x);
    NumberedLine('2', body2);
    TwoLineList(l1, l2);
    ListOfTwo(x, y);
  }

  /** Two list lines, each its own trim, joined by a newline form a list section. */
  lemma TwoLineList(l1: string, l2: string)
    requires '\n' !in l1 && '\n' !in l2
    requires |l1| > 0 && |l2| > 0
    requires JsTrim(l1) == l1 && JsTrim(l2) == l2
    requires IsListLine(l1) && IsListLine(l2)
    ensures FormatSection(l1 + ['\n'] + l2) == InSection(ListHtml([l1, l2]))
  {
    var t := l1 + ['\n'] + l2;
    TwoLineSplit(l1, l2);
    AllListLinesTwo(l1, l2);
    SectionIsList(t);
  }

  lemma TwoLineSplit(l1: string, l2: string)
    requires '\n' !in l1 && '\n' !in l2
    requires |l1| > 0 && |l2| > 0
    requires JsTrim(l1) == l1 && JsTrim(l2) == l2
    ensures JsTrim(l1 + ['\n'] + l2) == l1 + ['\n'] + l2
    ensures SplitOn(l1 + ['\n'] + l2, '\n') == [l1, l2]
  {
    var t := l1 + ['\n'] + l2;
    SplitOnPrefix(l1, l2, '\n');
    SplitOnNoSeparator(l2, '\n');
    assert t[0] == l1[0] && t[|t| - 1] == l2[|l2| - 1];
    TrimWithUnchanged(t, IsJsSpace);
  }

  lemma AllListLinesTwo(l1: string, l2: string)
    requires IsListLine(JsTrim(l1)) && IsListLine(JsTrim(l2))
    ensures AllListLines([l1, l2])
  {
  }

  /** The section text is the two numbered lines around a newline. */
  lemma TwoLineText(x: string, y: string)
    ensures "1. " + x + "\n2. **" + y + "**"
            == Numbered('1', x) + ['\n'] + Numbered('2', "**" + y + "**")
  {
  }

  /** Neither numbered line contains a newline. */
  lemma NoNewline(x: string, y: string)
    requires PlainWord(x) && PlainWord(y)
    ensures '\n' !in Numbered('1', x) && '\n' !in Numbered('2', "**" + y + "**")
  {
    var l1 := Numbered('1', x);
    var l2 := Numbered('2', "**" + y + "**");
    forall k | 0 <= k < |l1| ensures l1[k] != '\n' {
      if k >= 3 {
        assert l1[k] == x[k - 3];
        assert !IsLineTerminator(x[k - 3]);
      }
    }
    forall k | 0 <= k < |l2| ensures l2[k] != '\n' {
      if 5 <= k < 5 + |y| {
        assert l2[k] == y[k - 5];
        assert !IsLineTerminator(y[k - 5]);
      }
    }
  }

  /** The item of a numbered line is its bold-converted text. */
  lemma NumberedItem(d: char, item: string)
    requires IsDigit(d)
    requires |item| > 0 && !IsJsSpace(item[0]) && !IsJsSpace(item[|item| - 1])
    ensures ListItem(Numbered(d, item)) == "<li>" + ConvertBold(item) + "</li>"
  {
    NumberedLine(d, item);
  }

  /** The HTML of the two-line ordered list. */
  lemma ListOfTwo(x: string, y: string)
    requires PlainWord(x) && PlainWord(y)
    ensures var lines := [Numbered('1', x), Numbered('2', "**" + y + "**")];
            ListHtml(lines) == "<ol><li>" + x + "</li><li><strong>" + y + "</strong></li></ol>"
  {
    var lines := [Numbered('1', x), Numbered('2', "**" + y + "**")];
    FirstItem(x);
    SecondItem(y);
    OrderedListHtml(lines);
    TwoItems(lines);
    OrderedTwoText(x, y);
  }

  lemma FirstItem(x: string)
    requires PlainWord(x)
    ensures ListItem(Numbered('1', x)) == "<li>" + x + "</li>"
    ensures BeginsWithDigit(JsTrim(Numbered('1', x)))
  {
    NumberedItem('1', x);
    NumberedLine('1', x);
    ConvertBoldPlain(x, "");
    assert x + "" == x;
  }

  lemma SecondItem(y: string)
    requires PlainWord(y)
    ensures ListItem(Numbered('2', "**" + y + "**")) == "<li>" + (StrongOpen + y + StrongClose) + "</li>"
  {
    NumberedItem('2', "**" + y + "**");
    BoldWord(y);
  }

  /** `**y**` alone becomes `<strong>y</strong>`. */
  lemma BoldWord(y: string)
    requires PlainWord(y)
    ensures ConvertBold("**" + y + "**") == StrongOpen + y + StrongClose
  {
    ConvertBoldPair(y, "");
    assert "**" + y + "**" + "" == "**" + y + "**";
    assert StrongOpen + y + StrongClose + "" == StrongOpen + y + StrongClose;
  }

  lemma OrderedTwoText(x: string, y: string)
    ensures "<ol>" + ("<li>" + x + "</li>" + ("<li>" + (StrongOpen + y + StrongClose) + "</li>")) + "</ol>"
            == "<ol><li>" + x + "</li><li><strong>" + y + "</strong></li></ol>"
  {
  }

  /** A list whose first line begins with a digit is `<ol>`. */
  lemma OrderedListHtml(lines: seq<string>)
    requires |lines| >= 1 && BeginsWithDigit(JsTrim(lines[0]))
    ensures ListHtml(lines) == "<ol>" + Concat(ListItems(lines)) + "</ol>"
  {
  }

  lemma TwoItems(lines: seq<string>)
    requires |lines| == 2
    ensures Concat(ListItems(lines)) == ListItem(lines[0]) + ListItem(lines[1])
  {
    ConcatTwo(ListItems(lines));
  }

  lemma ConcatTwo(items: seq<string>)
    requires |items| == 2
    ensures Concat(items) == items[0] + items[1]
  {
    assert Concat(items[1..]) == items[1] + Concat(items[2..]);
    assert items[2..] == [];
  }

  /** A paragraph, an empty line, and a two-item ordered list. */
  lemma ParagraphThenList(a: string, x: string, y: string)
    requires PlainWord(a) && !IsMarkerChar(a[0]) && PlainWord(x) && PlainWord(y)
    ensures FormatAnswer(a + "\n\n" + ("1. " + x + "\n2. **" + y + "**"))
            == InSection("<p>" + a + "</p>")
               + InSection("<ol><li>" + x + "</li><li><strong>" + y + "</strong></li></ol>")
  {
    var b := "1. " + x + "\n2. **" + y + "**";
    forall k | 0 <= k < |a| ensures a[k] != '\n' {
      assert !IsLineTerminator(a[k]);
    }
    OneNewlineNoBlankLine(a, "");
    TwoLineText(x, y);
    NoNewline(x, y);
    OneNewlineNoBlankLine(Numbered('1', x), Numbered('2', "**" + y + "**"));
    FormatAtEmptyLine(a, b);
    FormatSingleSection(b);
    PlainSection(a);
    OrderedListSection(x, y);
  }
}
