/** The rules that turn lookup answers into the five audit flags, the
    query names the audit builds, and the score. */
module Checks {
  import opened Wrappers
  import opened Text
  import opened Resolver

  /** Python truth value of what `robust_query` returns: `None` is false and
      a dnspython answer is true when it holds at least one record. */
  function Truthy(answer: Option<Answer>): (b: bool)
    ensures b ==> answer.Some?
    ensures answer.Some? ==> (b <==> |answer.value| > 0)
  {
    answer.Some? && |answer.value| > 0
  }

  // ---------------------------------------------------------------------
  // SPF and DMARC
  // ---------------------------------------------------------------------

  /** The text that marks a TXT record as an SPF policy. */
  const SpfTag: string := "v=spf1"

  /** Python's `any(tag in r for r in records)`. */
  function AnyContains(records: seq<string>, tag: string): (r: bool)
    ensures r <==> exists k :: 0 <= k < |records| && Contains(records[k], tag)
  {
    if records == [] then false
    else Contains(records[0], tag) || AnyContains(records[1..], tag)
  }

  /** `txt and any("v=spf1" in r.to_text() for r in txt)`: only a truthy
      answer can carry SPF (`SpfPresentIff` gives the full rule). */
  function SpfPresent(txt: Option<Answer>): (r: bool)
    ensures r ==> Truthy(txt)
  {
    Truthy(txt) && AnyContains(txt.value, SpfTag)
  }

  /** SPF is found exactly when the TXT lookup answered and the text of one
      of its records holds `v=spf1` somewhere; an absent or empty answer
      therefore means no SPF. */
  lemma SpfPresentIff(txt: Option<Answer>)
    ensures SpfPresent(txt) <==>
      txt.Some? && exists k, i :: 0 <= k < |txt.value| && OccursAt(txt.value[k], SpfTag, i)
  {
    if txt.Some? {
      forall k | 0 <= k < |txt.value| {
        ContainsIff(txt.value[k], SpfTag);
      }
    }
  }

  /** `f"_dmarc.{domain}"`: the name whose TXT record holds the DMARC
      policy of `domain`, the label `_dmarc` in front of the domain. */
  function DmarcName(domain: string): (name: string)
    ensures |name| == |domain| + 7
    ensures name[..7] == "_dmarc."
    ensures name[7..] == domain
  {
    "_dmarc." + domain
  }

  // ---------------------------------------------------------------------
  // DKIM
  // ---------------------------------------------------------------------

  /** The selectors the audit tries, highest priority first. */
  const DkimSelectors: seq<string> := ["google", "default", "k1", "smtp"]

  /** `f"{sel}._domainkey.{domain}"`: the name whose TXT record holds the
      DKIM key published under `selector`. */
  function DkimName(selector: string, domain: string): (name: string)
    ensures |name| == |selector| + 12 + |domain|
    ensures name[..|selector|] == selector
    ensures name[|selector|..|selector| + 12] == "._domainkey."
    ensures name[|selector| + 12..] == domain
  {
    selector + "._domainkey." + domain
  }

  /** For one domain, different selectors are looked up under different
      names. */
  lemma DkimNameInjective(s1: string, s2: string, domain: string)
    requires DkimName(s1, domain) == DkimName(s2, domain)
    ensures s1 == s2
  {
    var n := DkimName(s1, domain);
    assert |s1| == |s2|;
    assert s1 == n[..|s1|] == s2;
  }

  /** The retried TXT lookup of `selector`'s key returns a non-empty answer. */
  predicate SelectorAnswers(resolve: Oracle, domain: string, selector: string)
  {
    Truthy(RetryAnswer(resolve, DkimName(selector, domain), TXT))
  }

  /** Index of the first selector in `selectors` whose key lookup answers. */
  function FirstAnswering(resolve: Oracle, domain: string, selectors: seq<string>): (r: Option<nat>)
    ensures r.Some? ==> (r.value < |selectors| &&
      SelectorAnswers(resolve, domain, selectors[r.value]) &&
      forall j :: 0 <= j < r.value ==> !SelectorAnswers(resolve, domain, selectors[j]))
    ensures r.None? <==> forall j :: 0 <= j < |selectors| ==> !SelectorAnswers(resolve, domain, selectors[j])
  {
    if selectors == [] then None
    else if SelectorAnswers(resolve, domain, selectors[0]) then Some(0)
    else match FirstAnswering(resolve, domain, selectors[1..])
      case None => None
      case Some(k) => Some(k + 1)
  }

  /** The search's result is pinned down by the selectors that answer: it is
      `k` when `k` answers and no selector before it does, and `None` when no
      selector answers. */
  lemma FirstAnsweringAt(resolve: Oracle, domain: string, selectors: seq<string>, k: nat)
    requires k <= |selectors|
    requires forall j :: 0 <= j < k ==> !SelectorAnswers(resolve, domain, selectors[j])
    requires k < |selectors| ==> SelectorAnswers(resolve, domain, selectors[k])
    ensures FirstAnswering(resolve, domain, selectors) == if k < |selectors| then Some(k) else None
  {
  }

  /** The selectors whose keys the search looks up: those up to and
      including the first one that answers, or all of them. */
  function SelectorsTried(resolve: Oracle, domain: string, selectors: seq<string>): seq<string>
  {
    match FirstAnswering(resolve, domain, selectors)
    case Some(k) => selectors[..k + 1]
    case None => selectors
  }

  /** The selector the search reports: the first one that answers, if any. */
  function FoundSelector(resolve: Oracle, domain: string, selectors: seq<string>): Option<string>
  {
    match FirstAnswering(resolve, domain, selectors)
    case Some(k) => Some(selectors[k])
    case None => None
  }

  /** What the search looks up: a prefix of the selectors that ends at the
      reported selector, which answers, after selectors that all do not; or,
      when nothing answers, every selector. */
  lemma SearchTrace(resolve: Oracle, domain: string, selectors: seq<string>)
    ensures var tried := SelectorsTried(resolve, domain, selectors);
      var found := FoundSelector(resolve, domain, selectors);
      && |tried| <= |selectors| && tried == selectors[..|tried|]
      && (found.Some? ==> |tried| > 0 && found == Some(tried[|tried| - 1]) &&
                          SelectorAnswers(resolve, domain, tried[|tried| - 1]))
      && (forall j :: 0 <= j < |tried| && (found.Some? ==> j < |tried| - 1) ==>
                      !SelectorAnswers(resolve, domain, tried[j]))
      && (found.None? ==> tried == selectors)
  {
  }

  /** The search is first-match: when a selector answers, the one reported
      answers, no selector before it does, and nothing after it is looked
      up. */
  lemma FirstMatch(resolve: Oracle, domain: string, selectors: seq<string>, k: nat)
    requires k < |selectors| && SelectorAnswers(resolve, domain, selectors[k])
    ensures FoundSelector(resolve, domain, selectors).Some?
    ensures var i := FirstAnswering(resolve, domain, selectors).value;
      i <= k && FoundSelector(resolve, domain, selectors) == Some(selectors[i]) &&
      SelectorsTried(resolve, domain, selectors) == selectors[..i + 1]
  {
  }

  // ---------------------------------------------------------------------
  // Blacklist
  // ---------------------------------------------------------------------

  /** The DNS blacklist zone the audit consults (Spamhaus ZEN). */
  const BlacklistZone: string := "zen.spamhaus.org"

  /** `f"{'.'.join(reversed(ip.split('.')))}.zen.spamhaus.org"`: the
      blacklist query name of an address (section 2.1 of RFC 5782). */
  function BlacklistName(ip: string): (name: string)
    ensures |name| == |ReversedLabels(ip, '.')| + 17
    ensures name[..|name| - 17] == ReversedLabels(ip, '.')
    ensures name[|name| - 17..] == ".zen.spamhaus.org"
  {
    ReversedLabels(ip, '.') + "." + BlacklistZone
  }

  /** For an address `a.b.c.d` the query name is `d.c.b.a.zen.spamhaus.org`. */
  lemma BlacklistNameOfOctets(a: string, b: string, c: string, d: string)
    requires '.' !in a && '.' !in b && '.' !in c && '.' !in d
    ensures BlacklistName(a + "." + b + "." + c + "." + d)
         == d + "." + c + "." + b + "." + a + ".zen.spamhaus.org"
  {
    ReversedFourLabels(a, b, c, d, '.');
  }

  /** The address 1.2.3.4 is looked up as 4.3.2.1.zen.spamhaus.org. */
  lemma BlacklistNameExample()
    ensures BlacklistName("1.2.3.4") == "4.3.2.1.zen.spamhaus.org"
  {
    var ip, name := "1.2.3.4", "4.3.2.1.zen.spamhaus.org";
    assert ip == "1" + "." + "2" + "." + "3" + "." + "4";
    assert name == "4" + "." + "3" + "." + "2" + "." + "1" + ".zen.spamhaus.org";
    BlacklistNameOfOctets("1", "2", "3", "4");
  }

  /** Different addresses never share a query name: the address can be read
      back from the name. */
  lemma BlacklistNameInjective(ip1: string, ip2: string)
    requires BlacklistName(ip1) == BlacklistName(ip2)
    ensures ip1 == ip2
  {
    var r1, r2 := ReversedLabels(ip1, '.'), ReversedLabels(ip2, '.');
    assert |r1| == |r2|;
    assert r1 == BlacklistName(ip1)[..|r1|];
    assert r2 == BlacklistName(ip2)[..|r2|];
    ReversedLabelsInvolution(ip1, '.');
    ReversedLabelsInvolution(ip2, '.');
  }

  // ---------------------------------------------------------------------
  // Score
  // ---------------------------------------------------------------------

  /** Points per passing check. */
  const PointsPerCheck: nat := 20

  /** Smallest score the audit calls excellent. */
  const ExcellentScore: nat := 80

  /** Python's value of a boolean in arithmetic. */
  function Bit(b: bool): nat
  {
    if b then 1 else 0
  }

  /** Number of the five checks that failed. */
  function Failures(mx: bool, spf: bool, dmarc: bool, dkim: bool, clean: bool): nat
  {
    Bit(!mx) + Bit(!spf) + Bit(!dmarc) + Bit(!dkim) + Bit(!clean)
  }

  /** `sum([mx, spf, dmarc, dkim, clean]) * 20`: 20 points per passing check. */
  function Score(mx: bool, spf: bool, dmarc: bool, dkim: bool, clean: bool): (s: nat)
    ensures s % PointsPerCheck == 0 && s <= 100
    ensures s == 100 <==> mx && spf && dmarc && dkim && clean
    ensures s == 0 <==> !mx && !spf && !dmarc && !dkim && !clean
  {
    (Bit(mx) + Bit(spf) + Bit(dmarc) + Bit(dkim) + Bit(clean)) * PointsPerCheck
  }

  /** The score loses 20 points for each failing check. */
  lemma ScoreByFailures(mx: bool, spf: bool, dmarc: bool, dkim: bool, clean: bool)
    ensures Score(mx, spf, dmarc, dkim, clean)
         == 100 - PointsPerCheck * Failures(mx, spf, dmarc, dkim, clean)
  {
  }

  /** The verdict is "excellent" exactly when at most one check failed. */
  lemma ExcellentIff(mx: bool, spf: bool, dmarc: bool, dkim: bool, clean: bool)
    ensures Score(mx, spf, dmarc, dkim, clean) >= ExcellentScore <==>
      Failures(mx, spf, dmarc, dkim, clean) <= 1
  {
    ScoreByFailures(mx, spf, dmarc, dkim, clean);
  }

  /** Fixing a failing check raises the score by exactly 20 points; the
      score never goes down when a check passes. */
  lemma ScoreMonotone(mx: bool, spf: bool, dmarc: bool, dkim: bool, clean: bool,
                      mx': bool, spf': bool, dmarc': bool, dkim': bool, clean': bool)
    requires (mx ==> mx') && (spf ==> spf') && (dmarc ==> dmarc') && (dkim ==> dkim') && (clean ==> clean')
    ensures Score(mx, spf, dmarc, dkim, clean) <= Score(mx', spf', dmarc', dkim', clean')
    ensures Score(mx', spf', dmarc', dkim', clean') - Score(mx, spf, dmarc, dkim, clean)
         == PointsPerCheck * (Failures(mx, spf, dmarc, dkim, clean) - Failures(mx', spf', dmarc', dkim', clean'))
  {
    ScoreByFailures(mx, spf, dmarc, dkim, clean);
    ScoreByFailures(mx', spf', dmarc', dkim', clean');
  }
}
