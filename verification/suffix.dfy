/**
 * The domain-suffix search of `WhoIs::lookup` (src/who_is.rs): starting from
 * the whole domain, strip everything up to and including the first `.` until
 * the empty string is reached, and take the first candidate the list knows.
 */
module Suffixes {
  import opened Wrappers

  /** The index of the first `.` in `s` (`str::find('.')`). */
  function FirstDot(s: string): (r: Option<nat>)
    ensures r.Some? ==> r.value < |s| && s[r.value] == '.' && forall j :: 0 <= j < r.value ==> s[j] != '.'
    ensures r.None? ==> forall j :: 0 <= j < |s| ==> s[j] != '.'
  {
    if |s| == 0 then None
    else if s[0] == '.' then Some(0)
    else match FirstDot(s[1..])
      case Some(i) => Some(i + 1)
      case None => None
  }

  /** One step of the search loop: drop the leftmost label, or go to `""` when there is no `.` left. */
  function StripLabel(tld: string): (r: string)
    requires tld != ""
    ensures |r| < |tld|
  {
    match FirstDot(tld)
    case Some(i) => tld[i + 1..]
    case None => ""
  }

  /** The keys the search tries, in order. */
  function Candidates(domain: string): (cs: seq<string>)
    ensures |cs| > 0 && cs[0] == domain && cs[|cs| - 1] == ""
    decreases |domain|
  {
    if domain == "" then [""] else [domain] + Candidates(StripLabel(domain))
  }

  /**
   * `suffix` is a key the search may try for `domain`: the domain itself, the
   * empty catch-all, or the part of the domain after one of its dots.
   */
  predicate IsLabelSuffix(suffix: string, domain: string) {
    || suffix == domain
    || suffix == ""
    || (|suffix| < |domain| && domain[|domain| - |suffix| - 1] == '.' && domain[|domain| - |suffix|..] == suffix)
  }

  /** A label suffix of what remains after one strip is a label suffix of the whole. */
  lemma StripKeepsLabelSuffixes(domain: string, c: string)
    requires domain != "" && IsLabelSuffix(c, StripLabel(domain))
    ensures IsLabelSuffix(c, domain)
  {
  }

  /** A label suffix shorter than the whole domain survives the first strip. */
  lemma LabelSuffixSurvivesStrip(domain: string, c: string)
    requires domain != "" && IsLabelSuffix(c, domain) && c != domain
    ensures IsLabelSuffix(c, StripLabel(domain))
  {
  }

  /** The search tries exactly the label suffixes of the domain. */
  lemma {:induction false} CandidatesAreLabelSuffixes(domain: string)
    ensures forall c :: c in Candidates(domain) <==> IsLabelSuffix(c, domain)
    decreases |domain|
  {
    if domain != "" {
      var next := StripLabel(domain);
      CandidatesAreLabelSuffixes(next);
      var cs := Candidates(domain);
      assert cs == [domain] + Candidates(next);
      forall c | c in cs ensures IsLabelSuffix(c, domain) {
        if c != domain {
          assert c in Candidates(next);
          StripKeepsLabelSuffixes(domain, c);
        }
      }
      forall c | IsLabelSuffix(c, domain) ensures c in cs {
        if c != domain {
          LabelSuffixSurvivesStrip(domain, c);
          assert c in Candidates(next);
        }
      }
    }
  }

  /** Each candidate is strictly shorter than the one before it. */
  lemma {:induction false} CandidatesShrink(domain: string)
    ensures forall i, j :: 0 <= i < j < |Candidates(domain)| ==> |Candidates(domain)[j]| < |Candidates(domain)[i]|
    decreases |domain|
  {
    if domain != "" {
      var next := StripLabel(domain);
      CandidatesShrink(next);
      var cs := Candidates(domain);
      forall i, j | 0 <= i < j < |cs| ensures |cs[j]| < |cs[i]| {
        CandidatesAreLabelSuffixes(next);
        assert cs[j] == Candidates(next)[j - 1];
        if i > 0 {
          assert cs[i] == Candidates(next)[i - 1];
        } else {
          assert cs[j] in Candidates(next);
          assert IsLabelSuffix(cs[j], next);
        }
      }
    }
  }

  /** The position of the first candidate that is a key of `servers`. */
  function FirstHit<V>(servers: map<string, V>, cs: seq<string>): (r: Option<nat>)
    ensures r.Some? ==> r.value < |cs| && cs[r.value] in servers && forall j :: 0 <= j < r.value ==> cs[j] !in servers
    ensures r.None? ==> forall j :: 0 <= j < |cs| ==> cs[j] !in servers
  {
    if |cs| == 0 then None
    else if cs[0] in servers then Some(0)
    else match FirstHit(servers, cs[1..])
      case Some(i) => Some(i + 1)
      case None => None
  }

  /** The key the search settles on for `domain`, if any. */
  function SelectKey<V>(servers: map<string, V>, domain: string): Option<string> {
    match FirstHit(servers, Candidates(domain))
    case Some(i) => Some(Candidates(domain)[i])
    case None => None
  }

  /**
   * The search finds the LONGEST label suffix of the domain that the list
   * knows (so `co.uk` beats `uk`, and `""` is used only when nothing longer
   * is known), and finds nothing only when no label suffix is known.
   */
  lemma LongestSuffixWins<V>(servers: map<string, V>, domain: string)
    ensures SelectKey(servers, domain).None? <==> forall c :: IsLabelSuffix(c, domain) ==> c !in servers
    ensures SelectKey(servers, domain).Some? ==>
      && var k := SelectKey(servers, domain).value;
      && k in servers && IsLabelSuffix(k, domain)
      && forall c :: IsLabelSuffix(c, domain) && c in servers ==> |c| <= |k|
  {
    var cs := Candidates(domain);
    CandidatesAreLabelSuffixes(domain);
    CandidatesShrink(domain);
    match FirstHit(servers, cs)
    case None =>
      forall c | IsLabelSuffix(c, domain) ensures c !in servers {
        assert c in cs;
      }
    case Some(i) =>
      assert cs[i] in cs;
      forall c | IsLabelSuffix(c, domain) && c in servers ensures |c| <= |cs[i]| {
        assert c in cs;
        var j :| 0 <= j < |cs| && cs[j] == c;
        assert i <= j;
      }
  }

  /** A label suffix of `domain` is the tail of `domain` of its own length. */
  lemma LabelSuffixIsTail(suffix: string, domain: string)
    requires IsLabelSuffix(suffix, domain)
    ensures |suffix| <= |domain| && suffix == domain[|domain| - |suffix|..]
  {
  }

  /** The longest known label suffix is the one the search settles on. */
  lemma LongestKnownSuffixSelected<V>(servers: map<string, V>, domain: string, key: string)
    requires key in servers && IsLabelSuffix(key, domain)
    requires forall c :: IsLabelSuffix(c, domain) && c in servers ==> |c| <= |key|
    ensures SelectKey(servers, domain) == Some(key)
  {
    LongestSuffixWins(servers, domain);
    var chosen := SelectKey(servers, domain).value;
    LabelSuffixIsTail(key, domain);
    LabelSuffixIsTail(chosen, domain);
  }

  /** Any known label suffix is outranked by the key the search selects: that key is known and at least as long. */
  lemma KnownSuffixOutranked<V>(servers: map<string, V>, domain: string, key: string)
    requires key in servers && IsLabelSuffix(key, domain)
    ensures SelectKey(servers, domain).Some?
    ensures SelectKey(servers, domain).value in servers
    ensures IsLabelSuffix(SelectKey(servers, domain).value, domain)
    ensures |key| <= |SelectKey(servers, domain).value|
  {
    LongestSuffixWins(servers, domain);
  }

  /** The loop stops at the first candidate the list knows. */
  lemma SearchHit<V>(servers: map<string, V>, domain: string, tried: seq<string>, tld: string)
    requires Candidates(domain) == tried + Candidates(tld)
    requires forall t :: t in tried ==> t !in servers
    requires tld in servers
    ensures SelectKey(servers, domain) == Some(tld)
  {
    var cs := Candidates(domain);
    assert cs[|tried|] == tld;
    var r := FirstHit(servers, cs);
    if r.None? {
      assert false;
    }
  }

  /** The loop gives up once `""` is tried and unknown. */
  lemma SearchMiss<V>(servers: map<string, V>, domain: string, tried: seq<string>)
    requires Candidates(domain) == tried + [""]
    requires forall t :: t in tried ==> t !in servers
    requires "" !in servers
    ensures SelectKey(servers, domain) == None
  {
    var cs := Candidates(domain);
    assert forall j :: 0 <= j < |cs| ==> cs[j] !in servers;
  }

  /** One turn of the loop moves the current candidate to the tried ones. */
  lemma SearchStep(domain: string, tried: seq<string>, tld: string)
    requires Candidates(domain) == tried + Candidates(tld)
    requires tld != ""
    ensures Candidates(domain) == (tried + [tld]) + Candidates(StripLabel(tld))
  {
    assert Candidates(tld) == [tld] + Candidates(StripLabel(tld));
  }

  /** The search loop as the source writes it, with its `break`s as returns. */
  method SuffixSearch<V>(servers: map<string, V>, domain: string) returns (server: Option<V>)
    ensures server.Some? <==> SelectKey(servers, domain).Some?
    ensures server.Some? ==> server.value == servers[SelectKey(servers, domain).value]
  {
    var tld := domain;
    ghost var tried: seq<string> := [];
    while true
      invariant Candidates(domain) == tried + Candidates(tld)
      invariant forall t :: t in tried ==> t !in servers
      decreases |tld|
    {
      if tld in servers {
        SearchHit(servers, domain, tried, tld);
        return Some(servers[tld]);
      }
      if tld == "" {
        SearchMiss(servers, domain, tried);
        return None;
      }
      SearchStep(domain, tried, tld);
      tried := tried + [tld];
      tld := StripLabel(tld);
    }
  }
}
