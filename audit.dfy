/** The deliverability audit of one domain: the step-by-step checks that set
    the flags `mx`, `spf`, `dmarc`, `dkim` and `clean`, and the score. */
module Audit {
  import opened Wrappers
  import opened Resolver
  import opened Checks

  /** `socket.gethostbyname` as seen by the audit: the address the domain
      resolves to, or `None` when the call raises. */
  type HostOracle = string -> Option<string>

  /** One call the audit makes to the outside world. */
  datatype Lookup =
    | Retried(query: Query)                       // a `robust_query` call
    | Single(name: string, rtype: RecordType)    // one unretried `resolver.resolve` call
    | HostByName(host: string)                   // a `socket.gethostbyname` call

  /** What one audit finds. `dkimSelector` is the selector that the DKIM
      search stopped at and `ip` the address the domain resolved to. */
  datatype Report = Report(
    mx: bool,
    spf: bool,
    dmarc: bool,
    dkim: bool,
    dkimSelector: Option<string>,
    ip: Option<string>,
    clean: bool,
    score: nat,
    excellent: bool)

  /** The `robust_query` call made for a name and type. */
  function RetriedLookup(resolve: Oracle, name: string, t: RecordType): Lookup
  {
    Retried(Query(name, t, Tries(resolve, name, t)))
  }

  /** The DKIM lookups made for the selectors in `selectors`, in order. */
  function DkimLookups(resolve: Oracle, domain: string, selectors: seq<string>): (ls: seq<Lookup>)
    ensures |ls| == |selectors|
    ensures forall i :: 0 <= i < |selectors| ==>
      ls[i] == RetriedLookup(resolve, DkimName(selectors[i], domain), TXT)
  {
    if selectors == [] then []
    else [RetriedLookup(resolve, DkimName(selectors[0], domain), TXT)] + DkimLookups(resolve, domain, selectors[1..])
  }

  /** Looking up one more selector adds one lookup at the end. */
  lemma {:induction false} DkimLookupsAppend(resolve: Oracle, domain: string, selectors: seq<string>, sel: string)
    ensures DkimLookups(resolve, domain, selectors + [sel])
         == DkimLookups(resolve, domain, selectors) + [RetriedLookup(resolve, DkimName(sel, domain), TXT)]
  {
    var ls := DkimLookups(resolve, domain, selectors + [sel]);
    assert ls == DkimLookups(resolve, domain, selectors) + [RetriedLookup(resolve, DkimName(sel, domain), TXT)];
  }

  /** The DKIM loop: looks up the key of each selector in turn and stops at
      the first lookup that answers. `tried` lists the selectors looked up
      and `lookups` the `robust_query` calls made for them. */
  method ProbeDkim(resolve: Oracle, domain: string, selectors: seq<string>)
    returns (dkim: bool, selector: Option<string>, tried: seq<string>, lookups: seq<Lookup>)
    ensures dkim <==> selector.Some?
    ensures selector == FoundSelector(resolve, domain, selectors)
    ensures tried == SelectorsTried(resolve, domain, selectors)
    ensures dkim ==> (|tried| > 0 && selector == Some(tried[|tried| - 1]) &&
      SelectorAnswers(resolve, domain, tried[|tried| - 1]))
    ensures forall j :: 0 <= j < |tried| && (dkim ==> j < |tried| - 1) ==>
      !SelectorAnswers(resolve, domain, tried[j])
    ensures !dkim ==> tried == selectors
    ensures lookups == DkimLookups(resolve, domain, tried)
  {
    dkim, selector, tried, lookups := false, None, [], [];
    for i := 0 to |selectors|
      invariant tried == selectors[..i]
      invariant lookups == DkimLookups(resolve, domain, tried)
      invariant forall j :: 0 <= j < i ==> !SelectorAnswers(resolve, domain, selectors[j])
    {
      var sel := selectors[i];
      var answer, call := RobustQuery(resolve, DkimName(sel, domain), TXT);
      assert Retried(call) == RetriedLookup(resolve, DkimName(sel, domain), TXT);
      DkimLookupsAppend(resolve, domain, tried, sel);
      assert selectors[..i + 1] == tried + [sel];
      tried := tried + [sel];
      lookups := lookups + [Retried(call)];
      if Truthy(answer) {
        FirstAnsweringAt(resolve, domain, selectors, i);
        dkim, selector := true, Some(sel);
        break;
      }
    }
    if !dkim {
      FirstAnsweringAt(resolve, domain, selectors, |selectors|);
    }
    SearchTrace(resolve, domain, selectors);
  }

  /** The authentication column: the MX, SPF, DMARC and DKIM checks, each
      flag starting false and set when its lookup succeeds. */
  method CheckAuthentication(resolve: Oracle, domain: string)
    returns (mx: bool, spf: bool, dmarc: bool, dkim: bool, selector: Option<string>, lookups: seq<Lookup>)
    ensures mx <==> Truthy(RetryAnswer(resolve, domain, MX))
    ensures spf <==> SpfPresent(RetryAnswer(resolve, domain, TXT))
    ensures dmarc <==> Truthy(RetryAnswer(resolve, DmarcName(domain), TXT))
    ensures selector == FoundSelector(resolve, domain, DkimSelectors)
    ensures dkim <==> selector.Some?
    ensures lookups ==
      [RetriedLookup(resolve, domain, MX), RetriedLookup(resolve, domain, TXT),
       RetriedLookup(resolve, DmarcName(domain), TXT)] +
      DkimLookups(resolve, domain, SelectorsTried(resolve, domain, DkimSelectors))
  {
    mx, spf, dmarc := false, false, false;
    lookups := [];

    var mxAnswer, mxCall := RobustQuery(resolve, domain, MX);
    lookups := lookups + [Retried(mxCall)];
    if Truthy(mxAnswer) {
      mx := true;
    }

    var txt, txtCall := RobustQuery(resolve, domain, TXT);
    lookups := lookups + [Retried(txtCall)];
    if SpfPresent(txt) {
      spf := true;
    }

    var dmarcAnswer, dmarcCall := RobustQuery(resolve, DmarcName(domain), TXT);
    lookups := lookups + [Retried(dmarcCall)];
    if Truthy(dmarcAnswer) {
      dmarc := true;
    }

    assert lookups == [RetriedLookup(resolve, domain, MX), RetriedLookup(resolve, domain, TXT),
                       RetriedLookup(resolve, DmarcName(domain), TXT)];

    var tried, dkimCalls;
    dkim, selector, tried, dkimCalls := ProbeDkim(resolve, domain, DkimSelectors);
    lookups := lookups + dkimCalls;
  }

  /** The reputation column: resolve the domain and, when that succeeds, ask
      the blacklist once about its address. `clean` starts true and is
      cleared only when that lookup answers. */
  method CheckReputation(resolve: Oracle, hostByName: HostOracle, domain: string)
    returns (ip: Option<string>, clean: bool, lookups: seq<Lookup>)
    ensures ip == hostByName(domain)
    ensures !clean <==> ip.Some? && resolve(BlacklistName(ip.value), A, 0).Some?
    ensures ip.None? ==> clean
    ensures lookups == [HostByName(domain)] +
      (match ip
       case Some(addr) => [Single(BlacklistName(addr), A)]
       case None => [])
  {
    clean := true;
    ip := hostByName(domain);
    lookups := [HostByName(domain)];
    if ip.Some? {
      var name := BlacklistName(ip.value);
      lookups := lookups + [Single(name, A)];
      if resolve(name, A, 0).Some? {
        clean := false;
      }
    }
  }

  /** The audit run when the button is pressed. An empty domain runs no
      check at all; otherwise every check runs once, in the source's order,
      and every failure falls back to the flag's initial value. */
  method RunAudit(domain: string, resolve: Oracle, hostByName: HostOracle)
    returns (report: Option<Report>, lookups: seq<Lookup>)
    ensures domain == "" <==> report.None?
    ensures domain == "" ==> lookups == []
    ensures report.Some? ==>
      var r := report.value;
      && (r.mx <==> Truthy(RetryAnswer(resolve, domain, MX)))
      && (r.spf <==> SpfPresent(RetryAnswer(resolve, domain, TXT)))
      && (r.dmarc <==> Truthy(RetryAnswer(resolve, DmarcName(domain), TXT)))
      && r.dkimSelector == FoundSelector(resolve, domain, DkimSelectors)
      && (r.dkim <==> r.dkimSelector.Some?)
      && r.ip == hostByName(domain)
      && (!r.clean <==> hostByName(domain).Some? &&
                        resolve(BlacklistName(hostByName(domain).value), A, 0).Some?)
      && r.score == Score(r.mx, r.spf, r.dmarc, r.dkim, r.clean)
      && (r.excellent <==> r.score >= ExcellentScore)
    ensures domain != "" ==> (lookups ==
      [RetriedLookup(resolve, domain, MX), RetriedLookup(resolve, domain, TXT),
       RetriedLookup(resolve, DmarcName(domain), TXT)] +
      DkimLookups(resolve, domain, SelectorsTried(resolve, domain, DkimSelectors)) +
      [HostByName(domain)] +
      (match hostByName(domain)
       case Some(ip) => [Single(BlacklistName(ip), A)]
       case None => []))
  {
    if domain == "" {
      return None, [];
    }
    var mx, spf, dmarc, dkim, selector, authLookups := CheckAuthentication(resolve, domain);
    var ip, clean, repLookups := CheckReputation(resolve, hostByName, domain);
    lookups := authLookups + repLookups;

    var score := Score(mx, spf, dmarc, dkim, clean);
    report := Some(Report(mx, spf, dmarc, dkim, selector, ip, clean, score, score >= ExcellentScore));
  }
}
