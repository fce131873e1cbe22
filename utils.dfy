/** The string helpers of lib/utils.ts: JavaScript's `String.prototype.trim`,
    the case-insensitive test for a leading `http://` or `https://`, and the
    two URL normalisers built from them, `ensureHttpsUrl` and `stripUrlProtocol`. */
module Utils {

  /** The code points `trim` removes: ECMAScript's WhiteSpace (TAB, VT, FF,
      SPACE, NO-BREAK SPACE, ZERO WIDTH NO-BREAK SPACE and the Unicode "Zs"
      space separators) and LineTerminator (LF, CR, LS, PS). */
  predicate IsWhitespace(c: char) {
    c == '\t' || c == '\U{000B}' || c == '\U{000C}' || c == ' ' || c == '\U{00A0}' || c == '\U{FEFF}'
    || c == '\n' || c == '\r' || c == '\U{2028}' || c == '\U{2029}'
    || c == '\U{1680}' || ('\U{2000}' <= c <= '\U{200A}') || c == '\U{202F}' || c == '\U{205F}' || c == '\U{3000}'
  }

  /** A string that is empty or holds only whitespace. */
  predicate IsBlank(s: string) {
    forall i :: 0 <= i < |s| ==> IsWhitespace(s[i])
  }

  /** Neither end of `s` is whitespace. */
  predicate IsTrimmed(s: string) {
    s == [] || (!IsWhitespace(s[0]) && !IsWhitespace(s[|s| - 1]))
  }

  /** `s` without its leading whitespace. */
  function TrimStart(s: string): (r: string)
    ensures |r| <= |s| && r == s[|s| - |r|..]
    ensures r == [] || !IsWhitespace(r[0])
    ensures forall i :: 0 <= i < |s| - |r| ==> IsWhitespace(s[i])
  {
    if s != [] && IsWhitespace(s[0]) then
      var r := TrimStart(s[1..]);
      assert forall i :: 1 <= i < |s| ==> s[i] == s[1..][i - 1];
      r
    else s
  }

  /** `s` without its trailing whitespace. */
  function TrimEnd(s: string): (r: string)
    ensures |r| <= |s| && r == s[..|r|]
    ensures r == [] || !IsWhitespace(r[|r| - 1])
    ensures forall i :: |r| <= i < |s| ==> IsWhitespace(s[i])
  {
    if s != [] && IsWhitespace(s[|s| - 1]) then
      var r := TrimEnd(s[..|s| - 1]);
      assert forall i :: 0 <= i < |s| - 1 ==> s[i] == s[..|s| - 1][i];
      r
    else s
  }

  /** JavaScript's `trim`: whitespace removed from both ends. The result is
      empty exactly when the input is blank, and otherwise a slice of the input
      whose ends are not whitespace. */
  function Trim(s: string): (r: string)
    ensures |r| <= |s|
    ensures IsTrimmed(r)
    ensures r == [] <==> IsBlank(s)
    ensures exists k :: SliceBetweenBlanks(s, k, r)
  {
    TrimShape(s);
    TrimSlice(s);
    TrimEnd(TrimStart(s))
  }

  lemma TrimShape(s: string)
    ensures |TrimEnd(TrimStart(s))| <= |s|
    ensures IsTrimmed(TrimEnd(TrimStart(s)))
    ensures TrimEnd(TrimStart(s)) == [] <==> IsBlank(s)
  {
    var t := TrimStart(s);
    var r := TrimEnd(t);
    if r != [] {
      assert r[0] == t[0];
    } else {
      BlankBeforeTrimStart(s);
    }
  }

  /** `r` is the slice of `s` starting at `k`, with only whitespace before
      and after it. */
  predicate SliceBetweenBlanks(s: string, k: int, r: string) {
    0 <= k && k + |r| <= |s| && r == s[k..k + |r|] && IsBlank(s[..k]) && IsBlank(s[k + |r|..])
  }

  /** The trimmed string is the slice of the input between a blank prefix
      and a blank suffix. */
  lemma TrimSlice(s: string)
    ensures SliceBetweenBlanks(s, |s| - |TrimStart(s)|, TrimEnd(TrimStart(s)))
  {
    var t := TrimStart(s);
    var r := TrimEnd(t);
    LeadingBlank(s);
    TrailingBlank(t);
    BetweenBlanks(s, t, r);
  }

  /** A prefix `r` of a suffix `t` of `s`, with whitespace on both sides,
      lies between blanks. */
  lemma BetweenBlanks(s: string, t: string, r: string)
    requires |t| <= |s| && t == s[|s| - |t|..] && |r| <= |t| && r == t[..|r|]
    requires IsBlank(s[..|s| - |t|]) && IsBlank(t[|r|..])
    ensures SliceBetweenBlanks(s, |s| - |t|, r)
  {
    assert t[|r|..] == s[|s| - |t| + |r|..];
  }

  /** What `TrimStart` removes is whitespace. */
  lemma LeadingBlank(s: string)
    ensures IsBlank(s[..|s| - |TrimStart(s)|])
  {
    var pre := s[..|s| - |TrimStart(s)|];
    forall i | 0 <= i < |pre| ensures IsWhitespace(pre[i]) {
      assert pre[i] == s[i];
    }
  }

  /** What `TrimEnd` removes is whitespace. */
  lemma TrailingBlank(t: string)
    ensures IsBlank(t[|TrimEnd(t)|..])
  {
    var suf := t[|TrimEnd(t)|..];
    forall i | 0 <= i < |suf| ensures IsWhitespace(suf[i]) {
      assert suf[i] == t[|TrimEnd(t)| + i];
    }
  }

  /** A string whose leading-trimmed part is blank is blank itself. */
  lemma {:induction false} BlankBeforeTrimStart(s: string)
    requires IsBlank(TrimStart(s))
    ensures IsBlank(s)
  {
    if s != [] && IsWhitespace(s[0]) {
      BlankBeforeTrimStart(s[1..]);
      assert forall i :: 1 <= i < |s| ==> s[i] == s[1..][i - 1];
    }
  }

  /** Trimming a string whose ends are not whitespace changes nothing. */
  lemma TrimOfTrimmed(s: string)
    requires IsTrimmed(s)
    ensures Trim(s) == s
  {
    assert TrimStart(s) == s;
    assert TrimEnd(s) == s;
  }

  /** `trim` is idempotent. */
  lemma TrimIdempotent(s: string)
    ensures Trim(Trim(s)) == Trim(s)
  {
    TrimOfTrimmed(Trim(s));
  }

  /** ASCII lower-casing, the case folding of a regular expression's `i` flag
      when the pattern is plain ASCII. */
  function Lower(c: char): (r: char)
    ensures 'A' <= c <= 'Z' ==> r as int == c as int + 32
    ensures !('A' <= c <= 'Z') ==> r == c
  {
    if 'A' <= c <= 'Z' then (c as int + 32) as char else c
  }

  /** `s` starts with `p`, letters compared ASCII case-insensitively. */
  predicate StartsWithIgnoringCase(s: string, p: string) {
    |p| <= |s| && forall i :: 0 <= i < |p| ==> Lower(s[i]) == Lower(p[i])
  }

  /** The length of the prefix that `/^https?:\/\//i` matches in `s`, or 0
      when it does not match. The two alternatives exclude each other: the
      fifth character is `s`/`S` in one and `:` in the other. */
  function SchemeLength(s: string): (n: nat)
    ensures n == 0 || n == 7 || n == 8
    ensures n <= |s|
    ensures n == 8 <==> StartsWithIgnoringCase(s, "https://")
    ensures n == 7 <==> StartsWithIgnoringCase(s, "http://")
  {
    if StartsWithIgnoringCase(s, "https://") then 8
    else if StartsWithIgnoringCase(s, "http://") then
      assert Lower(s[4]) == ':';
      7
    else 0
  }

  /** The regular expression `/^https?:\/\//i` matches at the start of `s`. */
  predicate HasScheme(s: string) {
    SchemeLength(s) > 0
  }

  /** The scheme prefix of `s` as written (its own casing). */
  function SchemeOf(s: string): (p: string)
    ensures (p == [] <==> !HasScheme(s)) && |p| <= |s| && p == s[..|p|]
    ensures |p| == SchemeLength(s)
  {
    s[..SchemeLength(s)]
  }

  /** `ensureHttpsUrl` (lib/utils.ts:8-15): the trimmed input, given an
      `https://` scheme when it has neither `http://` nor `https://`; blank
      input gives the empty string. */
  function EnsureHttpsUrl(url: string): (r: string)
    ensures r == [] <==> IsBlank(url)
    ensures r != [] ==> HasScheme(r) && IsTrimmed(r)
    ensures HasScheme(Trim(url)) ==> r == Trim(url)
    ensures !IsBlank(url) && !HasScheme(Trim(url)) ==> r == "https://" + Trim(url)
  {
    var trimmed := Trim(url);
    if trimmed == [] then ""
    else if HasScheme(trimmed) then trimmed
    else
      HttpsPrefixed(trimmed);
      "https://" + trimmed
  }

  /** Putting `https://` in front of a trimmed non-empty string gives a
      trimmed string with a scheme. */
  lemma HttpsPrefixed(t: string)
    requires t != [] && IsTrimmed(t)
    ensures HasScheme("https://" + t) && IsTrimmed("https://" + t)
  {
    var u := "https://" + t;
    assert forall i :: 0 <= i < 8 ==> u[i] == "https://"[i];
    assert StartsWithIgnoringCase(u, "https://");
    assert u[|u| - 1] == t[|t| - 1];
  }

  /** `stripUrlProtocol` (lib/utils.ts:17-19): the trimmed input with at most
      one leading `http://` or `https://` removed. */
  function StripUrlProtocol(url: string): (r: string)
    ensures |r| <= |url|
    ensures !HasScheme(Trim(url)) ==> r == Trim(url)
    ensures HasScheme(Trim(url)) ==> Trim(url) == SchemeOf(Trim(url)) + r
  {
    var trimmed := Trim(url);
    SchemeSplit(trimmed);
    trimmed[SchemeLength(trimmed)..]
  }

  /** A string is its matched scheme followed by the rest. */
  lemma SchemeSplit(t: string)
    ensures t == SchemeOf(t) + t[SchemeLength(t)..]
  {
  }

  /** `ensureHttpsUrl` is idempotent. */
  lemma EnsureHttpsUrlIdempotent(url: string)
    ensures EnsureHttpsUrl(EnsureHttpsUrl(url)) == EnsureHttpsUrl(url)
  {
    var r := EnsureHttpsUrl(url);
    if r != [] {
      TrimOfTrimmed(r);
    }
  }

  /** For non-blank input, `ensureHttpsUrl` is `stripUrlProtocol` with a scheme
      put back in front: the input's own one, or `https://` when it had none. */
  lemma EnsureIsSchemePlusStripped(url: string)
    requires !IsBlank(url)
    ensures var t := Trim(url);
            EnsureHttpsUrl(url) == (if HasScheme(t) then SchemeOf(t) else "https://") + StripUrlProtocol(url)
  {
  }

  /** `stripUrlProtocol` removes one scheme, not every leading one: a trimmed
      input that starts with `http://` loses exactly those seven characters,
      whatever follows them, another scheme included. */
  lemma StripRemovesOneScheme(u: string)
    requires IsTrimmed("http://" + u)
    ensures StripUrlProtocol("http://" + u) == u
  {
    var s := "http://" + u;
    TrimOfTrimmed(s);
    assert s[4] == ':';
    assert !StartsWithIgnoringCase(s, "https://") by {
      assert Lower(s[4]) != Lower("https://"[4]);
    }
    assert forall i :: 0 <= i < 7 ==> s[i] == "http://"[i];
    assert SchemeLength(s) == 7;
    assert s[7..] == u;
  }
}
