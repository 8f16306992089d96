/**
 * The referral pattern of src/who_is.rs, matched by hand:
 *
 *   (ReferralServer|Registrar Whois|Whois Server|WHOIS Server|Registrar WHOIS Server):[^\S\n]*(r?whois://)?(.*)
 *
 * The regex engine reports the leftmost match and, at that position, the
 * first alternative in order; `[^\S\n]*` and `(r?whois://)?` are greedy, and
 * `(.*)` always matches, so the greedy choices are the ones reported. `.`
 * matches every character but `\n`, so a CR before the line feed is captured.
 */
module ReferralPattern {
  import opened Wrappers
  import opened Text

  const LABELS: seq<string> :=
    ["ReferralServer", "Registrar Whois", "Whois Server", "WHOIS Server", "Registrar WHOIS Server"]

  /** `[^\S\n]`: Unicode white space other than the line feed. */
  predicate IsLineSpace(c: char) {
    || c == '\t' || c == '\U{B}' || c == '\U{C}' || c == '\r' || c == ' '
    || c == '\U{85}' || c == '\U{A0}' || c == '\U{1680}'
    || ('\U{2000}' <= c <= '\U{200A}')
    || c == '\U{2028}' || c == '\U{2029}' || c == '\U{202F}' || c == '\U{205F}' || c == '\U{3000}'
  }

  /** Where a `Label:` header starting at `i` ends, trying the labels from index `n` on, in order. */
  function HeaderEndFrom(s: string, i: nat, n: nat): (r: Option<nat>)
    requires i <= |s| && n <= |LABELS|
    ensures r.Some? ==> exists k :: n <= k < |LABELS| && StartsWith(s[i..], LABELS[k] + ":") && r.value == i + |LABELS[k]| + 1
    ensures r.None? <==> forall k :: n <= k < |LABELS| ==> !StartsWith(s[i..], LABELS[k] + ":")
    ensures r.Some? ==> i < r.value <= |s| && s[r.value - 1] == ':'
    decreases |LABELS| - n
  {
    if n == |LABELS| then None
    else if StartsWith(s[i..], LABELS[n] + ":") then
      assert s[i..][|LABELS[n]|] == s[i + |LABELS[n]|];
      Some(i + |LABELS[n]| + 1)
    else HeaderEndFrom(s, i, n + 1)
  }

  /** Where the referral header starting at `i` ends, if one starts there. */
  function HeaderEnd(s: string, i: nat): Option<nat>
    requires i <= |s|
  {
    HeaderEndFrom(s, i, 0)
  }

  /** `[^\S\n]*`, greedy: the first position from `j` on that is not line space. */
  function SkipLineSpace(s: string, j: nat): (k: nat)
    requires j <= |s|
    ensures j <= k <= |s|
    ensures forall m :: j <= m < k ==> IsLineSpace(s[m])
    ensures k < |s| ==> !IsLineSpace(s[k])
    decreases |s| - j
  {
    if j < |s| && IsLineSpace(s[j]) then SkipLineSpace(s, j + 1) else j
  }

  /** The texts `(r?whois://)?` can match. */
  predicate IsScheme(p: string) {
    p == "" || p == "whois://" || p == "rwhois://"
  }

  /** `(r?whois://)?`, greedy: the longest scheme prefix the text at `j` starts with. */
  function SkipScheme(s: string, j: nat): (k: nat)
    requires j <= |s|
    ensures j <= k <= |s|
  {
    if StartsWith(s[j..], "rwhois://") then j + 9
    else if StartsWith(s[j..], "whois://") then j + 8
    else j
  }

  /** `(.*)`: the end of the line that contains position `j`. */
  function LineEnd(s: string, j: nat): (k: nat)
    requires j <= |s|
    ensures j <= k <= |s|
    ensures forall m :: j <= m < k ==> s[m] != '\n'
    ensures k < |s| ==> s[k] == '\n'
    decreases |s| - j
  {
    if j < |s| && s[j] != '\n' then LineEnd(s, j + 1) else j
  }

  /** The third capture group of a match whose header ends at `j`: the rest of that line after the blanks and the scheme. */
  function CaptureFrom(s: string, j: nat): (c: string)
    requires j <= |s|
    ensures forall m :: 0 <= m < |c| ==> c[m] != '\n'
  {
    var k := SkipScheme(s, SkipLineSpace(s, j));
    s[k..LineEnd(s, k)]
  }

  /** The third capture group of a match starting at `i`, if the pattern matches there. */
  function CaptureAt(s: string, i: nat): (r: Option<string>)
    requires i <= |s|
    ensures r.Some? <==> HeaderEnd(s, i).Some?
    ensures r.Some? ==> forall m :: 0 <= m < |r.value| ==> r.value[m] != '\n'
  {
    match HeaderEnd(s, i)
    case None => None
    case Some(j) => Some(CaptureFrom(s, j))
  }

  /** `[^\S\n]*` from `j` can stop only at `a`: line space up to `a`, and none at `a`. */
  predicate LineSpaceRun(s: string, j: nat, a: nat) {
    && j <= a <= |s|
    && (forall m :: j <= m < a ==> IsLineSpace(s[m]))
    && (a < |s| ==> !IsLineSpace(s[a]))
  }

  /** `scheme` is the longest scheme prefix the text at `a` starts with. */
  predicate LongestScheme(s: string, a: nat, scheme: string) {
    && a <= |s| && IsScheme(scheme) && StartsWith(s[a..], scheme)
    && (scheme == "" ==> !StartsWith(s[a..], "whois://") && !StartsWith(s[a..], "rwhois://"))
  }

  /** `cap` is the text from `k` to the next line feed, or to the end. */
  predicate RestOfLine(s: string, k: nat, cap: string) {
    && k + |cap| <= |s| && s[k..k + |cap|] == cap
    && (forall m :: 0 <= m < |cap| ==> cap[m] != '\n')
    && (k + |cap| < |s| ==> s[k + |cap|] == '\n')
  }

  /**
   * The capture, stated without the scanner: after a header ending at `j`,
   * the maximal run of line space, the longest scheme prefix, and then
   * everything up to the end of the line.
   */
  lemma CaptureIsRestOfLine(s: string, j: nat, a: nat, scheme: string, cap: string)
    requires LineSpaceRun(s, j, a) && LongestScheme(s, a, scheme) && RestOfLine(s, a + |scheme|, cap)
    ensures CaptureFrom(s, j) == cap
  {
    RunEndsAt(s, j, a);
    SchemeEndsAt(s, a, scheme);
    LineEndsAt(s, a + |scheme|, cap);
  }

  /** A maximal run of line space from `j` ending at `a` is what `SkipLineSpace` skips. */
  lemma RunEndsAt(s: string, j: nat, a: nat)
    requires LineSpaceRun(s, j, a)
    ensures SkipLineSpace(s, j) == a
  {
  }

  /** `SkipScheme` skips exactly the longest scheme prefix: `rwhois://` before `whois://`, or nothing. */
  lemma SkipSchemeLongest(s: string, j: nat)
    requires j <= |s|
    ensures LongestScheme(s, j, s[j..SkipScheme(s, j)])
  {
    var k := SkipScheme(s, j);
    assert s[j..][..k - j] == s[j..k];
  }

  /** The longest scheme prefix at `a` is what `SkipScheme` skips. */
  lemma SchemeEndsAt(s: string, a: nat, scheme: string)
    requires LongestScheme(s, a, scheme)
    ensures SkipScheme(s, a) == a + |scheme|
  {
    if scheme != "" {
      assert s[a..][0] == scheme[0];
    }
  }

  /** The rest of the line from `k` is what `LineEnd` delimits. */
  lemma LineEndsAt(s: string, k: nat, cap: string)
    requires RestOfLine(s, k, cap)
    ensures LineEnd(s, k) == k + |cap| && s[k..LineEnd(s, k)] == cap
  {
    assert forall m :: k <= m < k + |cap| ==> s[m] == cap[m - k];
  }

  /** The leftmost position from `i` on where a referral header starts. */
  function MatchStart(s: string, i: nat): (r: Option<nat>)
    requires i <= |s|
    ensures r.Some? ==> i <= r.value <= |s| && HeaderEnd(s, r.value).Some?
    ensures r.Some? ==> forall m :: i <= m < r.value ==> HeaderEnd(s, m).None?
    ensures r.None? ==> forall m :: i <= m <= |s| ==> HeaderEnd(s, m).None?
    decreases |s| - i
  {
    if HeaderEnd(s, i).Some? then Some(i)
    else if i == |s| then None
    else MatchStart(s, i + 1)
  }

  /** `RE_SERVER.captures(response)` followed by `get(3)`. */
  function ExtractReferral(response: string): (r: Option<string>)
    ensures r.None? <==> forall m :: 0 <= m <= |response| ==> HeaderEnd(response, m).None?
    ensures r.Some? ==> forall m :: 0 <= m < |r.value| ==> r.value[m] != '\n'
    ensures r.Some? ==> exists i :: && 0 <= i <= |response| && HeaderEnd(response, i).Some?
                                    && (forall m :: 0 <= m < i ==> HeaderEnd(response, m).None?)
                                    && r == CaptureAt(response, i)
  {
    match MatchStart(response, 0)
    case None => None
    case Some(i) => CaptureAt(response, i)
  }

  /** The referral is the capture at the leftmost header of the response. */
  lemma ReferralAtLeftmostHeader(response: string, i: nat)
    requires i <= |response| && HeaderEnd(response, i).Some?
    requires forall m :: 0 <= m < i ==> HeaderEnd(response, m).None?
    ensures ExtractReferral(response) == CaptureAt(response, i)
  {
    var start := MatchStart(response, 0);
    assert start == Some(i);
  }

  /** A response without any of the header labels carries no referral. */
  lemma NoLabelNoReferral(response: string)
    requires forall m, k :: 0 <= m <= |response| && 0 <= k < |LABELS| ==> !StartsWith(response[m..], LABELS[k] + ":")
    ensures ExtractReferral(response) == None
  {
  }

  /** Which header label a text starting with one begins with, told by its distinguishing characters. */
  function WhichHeader(s: string): nat
    requires |s| >= 12
  {
    if s[0] == 'R' then (if s[2] == 'f' then 0 else if s[11] == 'h' then 1 else 4)
    else if s[1] == 'h' then 2 else 3
  }

  lemma WhichHeaderCorrect(s: string, k: nat)
    requires k < |LABELS| && StartsWith(s, LABELS[k] + ":")
    ensures |s| >= 12 && WhichHeader(s) == k
  {
  }

  /** No header label followed by `:` is a prefix of another, so at most one matches at a position. */
  lemma HeadersExclusive(s: string, k1: nat, k2: nat)
    requires k1 < |LABELS| && k2 < |LABELS|
    requires StartsWith(s, LABELS[k1] + ":") && StartsWith(s, LABELS[k2] + ":")
    ensures k1 == k2
  {
    WhichHeaderCorrect(s, k1);
    WhichHeaderCorrect(s, k2);
  }

  /** A text that does not start with `p` still does not once a character foreign to `p` follows it. */
  lemma NotPrefixExtended(host: string, c: char, more: string, p: string)
    requires !StartsWith(host, p)
    requires c !in p
    ensures !StartsWith(host + [c] + more, p)
  {
    var t := host + [c] + more;
    if |p| <= |host| {
      assert t[..|p|] == host[..|p|];
    } else if |p| <= |t| {
      assert t[..|p|][|host|] == c;
      assert p[|host|] in p;
    }
  }

  /** A header at the very start of a text is recognised there, with its own label. */
  lemma HeaderAtStart(k: nat, tail: string)
    requires k < |LABELS|
    ensures HeaderEnd(LABELS[k] + ":" + tail, 0) == Some(|LABELS[k]| + 1)
  {
    var s := LABELS[k] + ":" + tail;
    assert s[0..] == s;
    assert s[..|LABELS[k] + ":"|] == LABELS[k] + ":";
    forall k' | 0 <= k' < |LABELS| && StartsWith(s[0..], LABELS[k'] + ":") ensures k' == k {
      HeadersExclusive(s, k, k');
    }
  }

  lemma SchemeSkipped(s: string, j: nat, scheme: string, tail: string)
    requires j <= |s| && s[j..] == scheme + tail
    requires scheme in {"", "whois://", "rwhois://"}
    requires scheme == "" ==> !StartsWith(tail, "whois://") && !StartsWith(tail, "rwhois://")
    ensures SkipScheme(s, j) == j + |scheme|
  {
    if scheme != "" {
      assert s[j..][..|scheme|] == scheme;
      assert s[j..][0] == scheme[0];
    }
  }

  lemma LineTaken(s: string, k: nat, host: string, rest: string)
    requires k <= |s| && s[k..] == host + "\n" + rest
    requires forall m :: 0 <= m < |host| ==> host[m] != '\n'
    ensures LineEnd(s, k) == k + |host| && s[k..LineEnd(s, k)] == host
  {
    assert s[k + |host|] == s[k..][|host|];
    assert forall m :: k <= m < k + |host| ==> s[m] == s[k..][m - k];
    assert s[k..k + |host|] == s[k..][..|host|];
  }

  /** The single blank after a header is the whole run of line space there. */
  lemma OneBlank(s: string, j: nat, scheme: string, host: string, rest: string)
    requires j <= |s| && s[j..] == " " + scheme + host + "\n" + rest
    requires scheme in {"", "whois://", "rwhois://"}
    requires scheme == "" && |host| > 0 ==> !IsLineSpace(host[0])
    ensures SkipLineSpace(s, j) == j + 1
    ensures s[j + 1..] == scheme + (host + "\n" + rest)
  {
  }

  /** After the blank, the optional scheme prefix is skipped and the host line follows. */
  lemma BlankThenScheme(s: string, j: nat, scheme: string, host: string, rest: string)
    requires j <= |s| && s[j..] == " " + scheme + host + "\n" + rest
    requires scheme in {"", "whois://", "rwhois://"}
    requires scheme == "" ==> !StartsWith(host, "whois://") && !StartsWith(host, "rwhois://")
    requires scheme == "" && |host| > 0 ==> !IsLineSpace(host[0])
    ensures SkipScheme(s, SkipLineSpace(s, j)) == j + 1 + |scheme|
    ensures s[j + 1 + |scheme|..] == host + "\n" + rest
  {
    var tail := host + "\n" + rest;
    OneBlank(s, j, scheme, host, rest);
    if scheme == "" {
      assert tail == host + ['\n'] + rest;
      NotPrefixExtended(host, '\n', rest, "rwhois://");
      NotPrefixExtended(host, '\n', rest, "whois://");
    }
    SchemeSkipped(s, j + 1, scheme, tail);
    assert s[j + 1..][|scheme|..] == tail;
  }

  /** After a header, one blank and an optional scheme prefix are skipped and the rest of the line is taken. */
  lemma CaptureAfterHeader(s: string, j: nat, scheme: string, host: string, rest: string)
    requires j <= |s| && s[j..] == " " + scheme + host + "\n" + rest
    requires scheme in {"", "whois://", "rwhois://"}
    requires scheme == "" ==> !StartsWith(host, "whois://") && !StartsWith(host, "rwhois://")
    requires scheme == "" && |host| > 0 ==> !IsLineSpace(host[0])
    requires forall m :: 0 <= m < |host| ==> host[m] != '\n'
    ensures var k := SkipScheme(s, SkipLineSpace(s, j)); k <= LineEnd(s, k) && s[k..LineEnd(s, k)] == host
  {
    BlankThenScheme(s, j, scheme, host, rest);
    LineTaken(s, j + 1 + |scheme|, host, rest);
  }

  /**
   * A response that starts with a header line yields the rest of that line,
   * after the blank and after an optional `whois://` or `rwhois://` prefix.
   */
  lemma HeaderLineReferral(k: nat, scheme: string, host: string, rest: string)
    requires k < |LABELS|
    requires scheme in {"", "whois://", "rwhois://"}
    requires scheme == "" ==> !StartsWith(host, "whois://") && !StartsWith(host, "rwhois://")
    requires scheme == "" && |host| > 0 ==> !IsLineSpace(host[0])
    requires forall m :: 0 <= m < |host| ==> host[m] != '\n'
    ensures ExtractReferral(LABELS[k] + ": " + scheme + host + "\n" + rest) == Some(host)
  {
    var header := LABELS[k] + ":";
    var after := " " + scheme + host + "\n" + rest;
    var s := header + after;
    assert HeaderEnd(s, 0) == Some(|header|) by {
      HeaderAtStart(k, after);
    }
    assert MatchStart(s, 0) == Some(0);
    assert CaptureAt(s, 0) == Some(host) by {
      assert s[|header|..] == after;
      CaptureAfterHeader(s, |header|, scheme, host, rest);
    }
    assert ExtractReferral(s) == Some(host);
    HeaderLineRegroup(LABELS[k], scheme, host, rest);
  }

  /** A header line read as the label with its `:` followed by the rest of the text. */
  lemma HeaderLineRegroup(l: string, scheme: string, host: string, rest: string)
    ensures l + ": " + scheme + host + "\n" + rest == (l + ":") + (" " + scheme + host + "\n" + rest)
  {
  }

  /**
   * Over a CR LF line ending the capture keeps the carriage return, since `.`
   * matches it: the host handed on is the host followed by `\r`.
   */
  lemma CarriageReturnCaptured(k: nat, host: string, rest: string)
    requires k < |LABELS|
    requires !StartsWith(host, "whois://") && !StartsWith(host, "rwhois://")
    requires |host| > 0 && !IsLineSpace(host[0])
    requires forall m :: 0 <= m < |host| ==> host[m] != '\n'
    ensures ExtractReferral(LABELS[k] + ": " + host + "\r\n" + rest) == Some(host + "\r")
  {
    var h := host + "\r";
    var p := LABELS[k] + ": ";
    assert ExtractReferral(p + "" + h + "\n" + rest) == Some(h) by {
      assert h == host + ['\r'] + [];
      NotPrefixExtended(host, '\r', [], "whois://");
      NotPrefixExtended(host, '\r', [], "rwhois://");
      assert h[0] == host[0];
      assert forall m :: 0 <= m < |h| ==> h[m] != '\n';
      HeaderLineReferral(k, "", h, rest);
    }
    CrLfRegroup(p, host, rest);
  }

  lemma CrLfRegroup(p: string, host: string, rest: string)
    ensures p + "" + (host + "\r") + "\n" + rest == p + host + "\r\n" + rest
  {
  }
}
