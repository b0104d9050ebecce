/** `getCookie(name)` of chatbot/statics/scripts.js: the value of the first
    `name=value` entry of `document.cookie`, URI-decoded. The cookie string is
    a parameter, and so is `decodeURIComponent`, which either decodes or
    throws (`None`). */
module Cookies {
  import opened Strings

  /** What `getCookie` produces: a decoded value, `null`, or the `URIError`
      that `decodeURIComponent` throws and `getCookie` does not catch. */
  datatype Lookup = Value(value: string) | NotFound | DecodeFailed

  /** JavaScript `s.substring(start, end)`: both bounds are clamped into
      [0, |s|] and swapped when the start is past the end. */
  function JsSubstring(s: string, start: int, end: int): (r: string)
    ensures |r| <= |s|
    ensures 0 <= start <= end <= |s| ==> r == s[start..end]
  {
    var a := Max(0, Min(start, |s|));
    var b := Max(0, Min(end, |s|));
    if a <= b then s[a..b] else s[b..a]
  }

  /** Comparing the first `|p|` characters with `p` is a prefix test: an
      entry shorter than `p` is clamped, so it never compares equal. */
  lemma SubstringPrefix(s: string, p: string)
    ensures JsSubstring(s, 0, |p|) == p <==> StartsWith(s, p)
  {
    if |p| > |s| {
      assert |JsSubstring(s, 0, |p|)| <= |s| < |p|;
    }
  }

  /** The test of the loop body: the trimmed entry starts with `name=`. */
  predicate Matches(entry: string, name: string)
  {
    JsSubstring(entry, 0, |name| + 1) == name + "="
  }

  /** The entries of the cookie string, each trimmed as the loop trims it. */
  function Entries(cookie: string): (t: seq<string>)
    ensures |t| == |SplitOn(cookie, ';')|
    ensures forall k :: 0 <= k < |t| ==> t[k] == JsTrim(SplitOn(cookie, ';')[k])
  {
    var parts := SplitOn(cookie, ';');
    seq(|parts|, k requires 0 <= k < |parts| => JsTrim(parts[k]))
  }

  /** The position of the first entry from `i` on that matches, if any. */
  function FirstMatch(entries: seq<string>, name: string, i: nat): (r: Option<nat>)
    requires i <= |entries|
    ensures r.Some? ==> i <= r.value < |entries| && Matches(entries[r.value], name)
    ensures r.Some? ==> forall j :: i <= j < r.value ==> !Matches(entries[j], name)
    ensures r.None? <==> forall j :: i <= j < |entries| ==> !Matches(entries[j], name)
    decreases |entries| - i
  {
    if i == |entries| then None
    else if Matches(entries[i], name) then Some(i)
    else FirstMatch(entries, name, i + 1)
  }

  /** Decodes what follows `name=` in the matching entry. */
  function DecodeAfter(entry: string, name: string, decode: string -> Option<string>): Lookup
  {
    match decode(JsSubstring(entry, |name| + 1, |entry|))
    case Some(v) => Value(v)
    case None => DecodeFailed
  }

  /** `getCookie(name)` with `document.cookie == cookie`. */
  function GetCookie(cookie: string, name: string, decode: string -> Option<string>): (r: Lookup)
    ensures cookie == "" ==> r == NotFound
  {
    if cookie == "" then NotFound
    else
      var entries := Entries(cookie);
      match FirstMatch(entries, name, 0)
      case None => NotFound
      case Some(k) => DecodeAfter(entries[k], name, decode)
  }

  /** The `for ... of` loop with its `break`, as written. */
  method GetCookieLoop(cookie: string, name: string, decode: string -> Option<string>)
    returns (r: Lookup)
    ensures r == GetCookie(cookie, name, decode)
  {
    r := NotFound;
    if cookie != "" {
      var cookies := SplitOn(cookie, ';');
      var i := 0;
      while i < |cookies|
        invariant 0 <= i <= |cookies|
        invariant FirstMatch(Entries(cookie), name, 0) == FirstMatch(Entries(cookie), name, i)
        invariant r == NotFound
      {
        var entry := JsTrim(cookies[i]);
        if JsSubstring(entry, 0, |name| + 1) == name + "=" {
          r := DecodeAfter(entry, name, decode);
          return;
        }
        i := i + 1;
      }
    }
  }

  /** The test of the loop body is "the trimmed entry begins with `name=`". */
  lemma MatchesIsPrefix(entry: string, name: string)
    ensures Matches(entry, name) <==> StartsWith(entry, name + "=")
  {
    SubstringPrefix(entry, name + "=");
  }

  /** Every entry passes the loop test exactly when it begins with `name=`. */
  lemma EntriesMatch(entries: seq<string>, name: string)
    ensures forall j :: 0 <= j < |entries| ==>
              (Matches(entries[j], name) <==> StartsWith(entries[j], name + "="))
  {
    forall j | 0 <= j < |entries|
      ensures Matches(entries[j], name) <==> StartsWith(entries[j], name + "=")
    {
      MatchesIsPrefix(entries[j], name);
    }
  }

  /** An empty cookie string has one entry, the empty one, which matches no name. */
  lemma EmptyCookieEntries(name: string)
    ensures Entries("") == [""] && !StartsWith(Entries("")[0], name + "=")
  {
    assert SplitOn("", ';') == [""];
    assert JsTrim("") == "";
  }

  /** `getCookie` finds something exactly when some entry, once trimmed,
      begins with `name=`. */
  lemma GetCookieFoundIff(cookie: string, name: string, decode: string -> Option<string>)
    ensures GetCookie(cookie, name, decode) != NotFound
            <==> exists k :: 0 <= k < |Entries(cookie)| && StartsWith(Entries(cookie)[k], name + "=")
  {
    var entries := Entries(cookie);
    var m := FirstMatch(entries, name, 0);
    if cookie == "" {
      EmptyCookieEntries(name);
    } else if m.Some? {
      MatchesIsPrefix(entries[m.value], name);
    } else {
      forall j | 0 <= j < |entries|
        ensures !StartsWith(entries[j], name + "=")
      {
        MatchesIsPrefix(entries[j], name);
      }
    }
  }

  /** The first entry that begins with `name=` is the one decoded. */
  lemma GetCookieFirst(cookie: string, name: string, decode: string -> Option<string>, k: nat)
    requires k < |Entries(cookie)|
    requires StartsWith(Entries(cookie)[k], name + "=")
    requires forall j :: 0 <= j < k ==> !StartsWith(Entries(cookie)[j], name + "=")
    ensures GetCookie(cookie, name, decode) == DecodeAfter(Entries(cookie)[k], name, decode)
  {
    var entries := Entries(cookie);
    EmptyCookieEntries(name);
    EntriesMatch(entries, name);
    var m := FirstMatch(entries, name, 0);
    assert m.Some? && m.value <= k;
    assert m.value == k;
  }

  /** An entry for a longer name that begins with `name` is not a match:
      the character after `name` must be `=`. */
  lemma LongerNameNoMatch(name: string, c: char, rest: string)
    requires c != '='
    ensures !Matches(name + [c] + rest, name)
  {
    var e := name + [c] + rest;
    assert JsSubstring(e, 0, |name| + 1) == e[..|name| + 1];
    assert e[..|name| + 1][|name|] == c;
    assert (name + "=")[|name|] == '=';
  }

  /** A cookie of one `name=value` entry, with no `;` and nothing for `trim`
      to remove, yields the decoded value. */
  lemma SingleEntry(name: string, v: string, decode: string -> Option<string>)
    requires ';' !in name && ';' !in v
    requires JsTrim(name + "=" + v) == name + "=" + v
    ensures GetCookie(name + "=" + v, name, decode)
            == (match decode(v) case Some(d) => Value(d) case None => DecodeFailed)
  {
    var e := name + "=" + v;
    assert ';' !in e by {
      forall k | 0 <= k < |e| ensures e[k] != ';' {
        if k < |name| { assert e[k] == name[k]; }
        else if k > |name| { assert e[k] == v[k - |name| - 1]; }
      }
    }
    SplitOnNoSeparator(e, ';');
    assert Entries(e) == [e];
    SubstringPrefix(e, name + "=");
    assert e[..|name| + 1] == name + "=";
    assert JsSubstring(e, |name| + 1, |e|) == v;
  }

  /** Of two entries for the same name the first wins, whatever the second holds. */
  lemma FirstEntryWins(first: string, rest: string, name: string, decode: string -> Option<string>)
    requires ';' !in first
    requires Matches(JsTrim(first), name)
    ensures GetCookie(first + ";" + rest, name, decode) == DecodeAfter(JsTrim(first), name, decode)
  {
    var cookie := first + ";" + rest;
    SplitOnPrefix(first, rest, ';');
    assert Entries(cookie)[0] == JsTrim(first);
  }
}
