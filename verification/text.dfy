/** String helpers the engine relies on: prefix tests, `str::replace`, and decimal integers. */
module Text {

  predicate StartsWith(s: string, prefix: string) {
    |prefix| <= |s| && s[..|prefix|] == prefix
  }

  /** `pat` occurs in `s` starting at index `i`. */
  predicate OccursAt(s: string, pat: string, i: nat) {
    i <= |s| && StartsWith(s[i..], pat)
  }

  predicate Occurs(s: string, pat: string) {
    exists i: nat :: i <= |s| && OccursAt(s, pat, i)
  }

  /**
   * Rust's `str::replace`: every non-overlapping occurrence of `pat`, scanning
   * from the left, is replaced by `rep`.
   */
  function Replace(s: string, pat: string, rep: string): (r: string)
    requires |pat| > 0
    ensures rep == pat ==> r == s
    ensures |rep| == |pat| ==> |r| == |s|
    decreases |s|
  {
    if |s| < |pat| then s
    else if StartsWith(s, pat) then rep + Replace(s[|pat|..], pat, rep)
    else [s[0]] + Replace(s[1..], pat, rep)
  }

  /** A string in which `pat` does not occur is left as it is. */
  lemma {:induction false} ReplaceAbsent(s: string, pat: string, rep: string)
    requires |pat| > 0
    requires !Occurs(s, pat)
    ensures Replace(s, pat, rep) == s
    decreases |s|
  {
    if |s| >= |pat| {
      assert !OccursAt(s, pat, 0);
      assert s[0..] == s;
      if !Occurs(s[1..], pat) {
        ReplaceAbsent(s[1..], pat, rep);
      } else {
        var i: nat :| i <= |s[1..]| && OccursAt(s[1..], pat, i);
        assert s[1..][i..] == s[i + 1..];
        assert OccursAt(s, pat, i + 1);
      }
    }
  }

  /** `parts` glued together with `sep` between consecutive parts. */
  function Join(parts: seq<string>, sep: string): string
    requires |parts| > 0
  {
    if |parts| == 1 then parts[0] else parts[0] + sep + Join(parts[1..], sep)
  }

  /** The first character of `pat` occurs nowhere else in it, so two occurrences of `pat` never overlap. */
  predicate UniqueHead(pat: string) {
    |pat| > 0 && forall m :: 0 < m < |pat| ==> pat[m] != pat[0]
  }

  /** A text with no occurrence of `pat` stays free of it once its first character is dropped. */
  lemma AbsentInTail(s: string, pat: string)
    requires |s| > 0 && !Occurs(s, pat)
    ensures !Occurs(s[1..], pat)
  {
    if Occurs(s[1..], pat) {
      var i: nat :| i <= |s[1..]| && OccursAt(s[1..], pat, i);
      assert s[1..][i..] == s[i + 1..];
      assert OccursAt(s, pat, i + 1);
    }
  }

  /** No occurrence of `pat` starts at the front of `part + pat + rest` when `part` is non-empty and free of it. */
  lemma NoMatchAtFront(part: string, pat: string, rest: string)
    requires UniqueHead(pat) && |part| > 0 && !Occurs(part, pat)
    ensures !StartsWith(part + pat + rest, pat)
  {
    var s := part + pat + rest;
    assert s[|part|] == pat[0];
    assert part[0..] == part && !OccursAt(part, pat, 0);
  }

  /**
   * Scanning `part + pat + rest`, where `part` has no occurrence of `pat`,
   * copies `part`, replaces that `pat`, and goes on with `rest`: no occurrence
   * starts inside `part`, not even one running into the `pat` that follows.
   */
  lemma {:induction false} ReplaceAfterPlain(part: string, pat: string, rep: string, rest: string)
    requires UniqueHead(pat) && !Occurs(part, pat)
    ensures Replace(part + pat + rest, pat, rep) == part + rep + Replace(rest, pat, rep)
    decreases |part|
  {
    if |part| == 0 {
      ReplaceAtFront(pat, rep, rest);
      assert part + pat + rest == pat + rest;
    } else {
      AbsentInTail(part, pat);
      ReplaceAfterPlain(part[1..], pat, rep, rest);
      PlainStep(part, pat, rep, rest);
    }
  }

  /** An occurrence at the front is replaced and the scan goes on after it. */
  lemma ReplaceAtFront(pat: string, rep: string, rest: string)
    requires |pat| > 0
    ensures Replace(pat + rest, pat, rep) == rep + Replace(rest, pat, rep)
  {
    var s := pat + rest;
    assert s[..|pat|] == pat;
    assert s[|pat|..] == rest;
  }

  /** One character of a plain prefix is copied, and the rest of the prefix is handled as before. */
  lemma PlainStep(part: string, pat: string, rep: string, rest: string)
    requires UniqueHead(pat) && |part| > 0 && !Occurs(part, pat)
    requires Replace(part[1..] + pat + rest, pat, rep) == part[1..] + rep + Replace(rest, pat, rep)
    ensures Replace(part + pat + rest, pat, rep) == part + rep + Replace(rest, pat, rep)
  {
    var tail := Replace(rest, pat, rep);
    NoMatchAtFront(part, pat, rest);
    CopyFirst(part, pat, rep, rest);
    assert [part[0]] + (part[1..] + rep + tail) == part + rep + tail by {
      assert part == [part[0]] + part[1..];
    }
  }

  /** Where no occurrence starts at the front, the first character is copied and the scan goes on. */
  lemma CopyFirst(part: string, pat: string, rep: string, rest: string)
    requires |pat| > 0 && |part| > 0 && !StartsWith(part + pat + rest, pat)
    ensures Replace(part + pat + rest, pat, rep) == [part[0]] + Replace(part[1..] + pat + rest, pat, rep)
  {
    var s := part + pat + rest;
    assert s[1..] == part[1..] + pat + rest;
  }

  /**
   * `str::replace` replaces EVERY occurrence: a text cut by `pat` into parts
   * that do not contain it comes back as the same parts joined by `rep`.
   */
  lemma {:induction false} ReplaceJoin(parts: seq<string>, pat: string, rep: string)
    requires |parts| > 0 && UniqueHead(pat)
    requires forall i :: 0 <= i < |parts| ==> !Occurs(parts[i], pat)
    ensures Replace(Join(parts, pat), pat, rep) == Join(parts, rep)
    decreases |parts|
  {
    if |parts| == 1 {
      ReplaceAbsent(parts[0], pat, rep);
    } else {
      ReplaceJoin(parts[1..], pat, rep);
      ReplaceAfterPlain(parts[0], pat, rep, Join(parts[1..], pat));
    }
  }

  predicate IsDigit(c: char) {
    '0' <= c <= '9'
  }

  predicate AllDigits(s: string) {
    forall i :: 0 <= i < |s| ==> IsDigit(s[i])
  }

  function DigitChar(d: nat): (c: char)
    requires d < 10
    ensures IsDigit(c)
  {
    ['0', '1', '2', '3', '4', '5', '6', '7', '8', '9'][d]
  }

  function DigitValue(c: char): nat
    requires IsDigit(c)
  {
    (c as int - '0' as int) as nat
  }

  /** The decimal text of `n`, as `format!("{}", n)` writes an unsigned integer. */
  function DecimalText(n: nat): (s: string)
    ensures |s| > 0 && AllDigits(s)
  {
    if n < 10 then [DigitChar(n)] else DecimalText(n / 10) + [DigitChar(n % 10)]
  }

  /** The number a string of decimal digits denotes. */
  function DecimalValue(s: string): nat
    requires AllDigits(s)
  {
    if |s| == 0 then 0 else 10 * DecimalValue(s[..|s| - 1]) + DigitValue(s[|s| - 1])
  }

  /** Reading the decimal text back gives the number, and it has no leading zero. */
  lemma {:induction false} DecimalRoundTrip(n: nat)
    ensures DecimalValue(DecimalText(n)) == n
    ensures |DecimalText(n)| > 1 ==> DecimalText(n)[0] != '0'
  {
    var s := DecimalText(n);
    if n < 10 {
      assert s[..0] == [];
    } else {
      DecimalRoundTrip(n / 10);
      assert s[..|s| - 1] == DecimalText(n / 10);
      assert DigitValue(DigitChar(n % 10)) == n % 10;
    }
  }
}
