# Email deliverability audit — Dafny model

This project models the deliverability audit of the Email Solution Pro
health checker (`app.py`). Given a domain name, the audit does the following:

- it looks up the domain's MX records;
- it looks for an SPF policy (a TXT record containing `v=spf1`);
- it looks for a DMARC record at `_dmarc.<domain>`;
- it searches for a DKIM key under the selectors `google`, `default`, `k1`
  and `smtp`, in that order, stopping at the first hit;
- it resolves the domain to an address and asks Spamhaus ZEN whether that
  address is listed. The query name is the address with its labels
  reversed, followed by `.zen.spamhaus.org` (section 2.1 of RFC 5782).

The five resulting flags (`mx`, `spf`, `dmarc`, `dkim`, `clean`) give a
score of 20 points per passing check. A score of at least 80 is
judged excellent.

The network is abstracted:

- `Resolver.Oracle` gives the outcome of every resolver try. A try is
  identified by the name, the record type and the attempt number. `None`
  stands for any exception.
- `Audit.HostOracle` stands for `socket.gethostbyname`.

With these oracles the audit is deterministic, and its behaviour is stated
exactly.

Modules:

- `Wrappers`: the `Option` type.
- `Text`: Python's `str.split`, `str.join`, `reversed` and `in`, with their
  round trips.
- `Resolver`: `robust_query`, as the method `RobustQuery` with its
  bounded `for` loop, and the function `RetryAnswer` that specifies it.
- `Checks`: the SPF, DMARC and DKIM rules, the blacklist query name and the
  score.
- `Audit`: the DKIM loop (`ProbeDkim`), the two columns of checks
  (`CheckAuthentication`, `CheckReputation`) and the whole audit
  (`RunAudit`). They set the mutable flags step by step, as the source does.
  They also return the list of lookups made, each retried lookup with the
  number of tries it took.

Facts about app.py that the model follows:

- The Spamhaus lookup (app.py:191) is a single `resolver.resolve` call. It is
  not a retried `robust_query`, so the model uses attempt 0 of the oracle.
  Any successful answer clears `clean`, because no truth test is applied.
- MX, DMARC and DKIM presence use Python's truth value of the answer, which
  is "present and holding at least one record" (`Checks.Truthy`). This is
  not just "present".
- app.py tries only the four fixed DKIM selectors (app.py:172). There is no
  custom selector.
- A failed forward resolution leaves `clean` true, as line 145 initialises it.

## Model

| member | source | states |
|---|---|---|
| Resolver.RobustQuery | app.py:127-133 | makes between 1 and 3 resolver tries and reports their number (`Tries`) with the name and type asked for; every try before the last one failed; the result is the last try's outcome; `None` only after 3 tries; the result equals `RetryAnswer` |
| Resolver.RetryAnswerIff | app.py:127-133 | the retried answer is absent exactly when all 3 tries fail; otherwise it is the answer of the earliest successful try |
| Checks.Truthy | app.py:153 | `if answer:` on a `robust_query` result holds only for a present answer, and for a present one exactly when it holds at least one record; also used at app.py:166 and app.py:173 |
| Text.Contains | app.py:160 | `pat in s`: the empty pattern is always found, a string is found in itself, and a pattern longer than `s` never is; see `Text.ContainsIff` for the full characterisation |
| Text.ContainsIff | app.py:160 | `pat in s` holds exactly when `pat` occurs as a slice of `s` at some index |
| Checks.AnyContains | app.py:160 | `any(tag in r for r in records)` holds exactly when some record contains the tag |
| Checks.SpfPresent | app.py:160 | SPF can be present only when the TXT answer is truthy; see `Checks.SpfPresentIff` |
| Checks.SpfPresentIff | app.py:159-164 | SPF is present exactly when the TXT answer exists and some record's text holds `v=spf1` at some position; an absent or empty answer gives no SPF |
| Checks.DmarcName | app.py:166 | the DMARC name is `_dmarc.` followed by the domain, 7 characters longer than the domain |
| Checks.DkimName | app.py:173 | the DKIM name is the selector, then `._domainkey.`, then the domain |
| Checks.DkimNameInjective | app.py:172-173 | different selectors give different DKIM names for the same domain, so each selector is looked up under its own name |
| Checks.FirstAnswering | app.py:172-176 | the index found is that of a selector whose lookup answers, and no earlier selector answers; `None` exactly when no selector answers |
| Checks.FirstAnsweringAt | app.py:172-176 | if no selector before index `k` answers and the one at `k` does, the search finds `k`; if none up to the end answers, it finds nothing |
| Checks.SearchTrace | app.py:172-176 | the selectors looked up form a prefix of the list; when a key is found the last one looked up is the one found and the only one that answers; when none is found all were looked up |
| Checks.FirstMatch | app.py:172-176 | if any selector answers, one is reported; it is at or before that selector, and the selectors looked up end at it |
| Audit.ProbeDkim | app.py:172-178 | the DKIM loop tries selectors in list order; it stops at the first answering one and reports it; `tried` is exactly the prefix up to that one; every selector before it did not answer; `dkim` is false exactly when no selector answers, and then all were tried |
| Audit.CheckAuthentication | app.py:149-178 | `mx`, `spf` and `dmarc` are set exactly when the MX rule, the SPF rule and the DMARC rule hold on the retried answers; `dkim` follows the first-match DKIM search; the lookups made are MX, TXT, DMARC, then one per DKIM selector tried, each with its number of tries |
| Audit.CheckReputation | app.py:186-197 | the address is what forward resolution gives; `clean` is false exactly when that resolution succeeds and the single Spamhaus lookup of its reversed name answers; a failed resolution leaves `clean` true and makes no blacklist lookup |
| Text.Split | app.py:189 | `ip.split(".")` gives at least one piece and no piece contains the separator |
| Text.Reverse | app.py:189 | `reversed` keeps the length and puts element `i` at position `n - 1 - i` |
| Text.Join | app.py:189 | `sep.join(parts)` of no pieces is empty and otherwise starts with the first piece; see `Text.JoinSplit` and `Text.SplitJoin` for the round trips |
| Text.JoinSplit | app.py:189 | joining the pieces of a split gives back the original string |
| Text.SplitJoin | app.py:189 | splitting a join of separator-free pieces gives back the pieces |
| Text.ReversedLabels | app.py:189 | a name without separators is left as it is; the result starts with the last label of the name; see `Text.ReversedFourLabels` and `Text.ReversedLabelsInvolution` |
| Text.ReversedLabelsInvolution | app.py:189 | reversing the dot-separated labels twice gives back the original name |
| Text.ReversedFourLabels | app.py:189 | the labels `a.b.c.d` reversed are `d.c.b.a` |
| Checks.BlacklistName | app.py:189-191 | the Spamhaus query name is the reversed address followed by `.zen.spamhaus.org` |
| Checks.BlacklistNameOfOctets | app.py:189-191 | for an address `a.b.c.d`, the query name is `d.c.b.a.zen.spamhaus.org` |
| Checks.BlacklistNameExample | app.py:189-191 | address `1.2.3.4` is looked up as `4.3.2.1.zen.spamhaus.org` |
| Checks.BlacklistNameInjective | app.py:189-191 | two different addresses never give the same query name |
| Checks.Score | app.py:203 | the score is a multiple of 20 in [0, 100]; it is 100 exactly when all five checks pass and 0 exactly when all fail |
| Checks.ScoreByFailures | app.py:203 | the score is 100 minus 20 for each failing check |
| Checks.ExcellentIff | app.py:203-210 | the "excellent" branch is taken exactly when at most one check failed |
| Checks.ScoreMonotone | app.py:203 | turning failing checks into passing ones never lowers the score; it rises by 20 per check fixed |
| Audit.RunAudit | app.py:138-210 | an empty domain gives no report and no lookups. Otherwise: `mx`, `spf` and `dmarc` follow the MX, SPF and DMARC rules on the retried answers; `dkim` follows the first-match search; `clean` is false exactly when forward resolution succeeds and the single Spamhaus lookup answers; the score is `Score` of the five flags; "excellent" means a score of at least 80; the lookups made are listed in order, each retried one with its number of tries |

## Left out

- Presentation: the Streamlit page, CSS, cards, messages, balloons, link
  button and sidebar (app.py:1-117 and the `st.*` calls inside the audit).
  They only display the flags.
- Resolver configuration: nameservers, `timeout` and `lifetime`
  (app.py:122-125). dnspython and `socket.gethostbyname` are foreign
  network code. They are the oracles `Resolver.Oracle` and
  `Audit.HostOracle`.
- The sleeps (app.py:132, 143). They affect timing only.
- Exception kinds. Every failure is `None`, as the source's bare `except`
  clauses make them.
- Record formatting. An answer is the list of its records' `to_text()`
  strings; how dnspython renders records is not modelled.
- Address validation. The source only splits the address on `.`, and so
  does the model.
- Time-dependent resolver behaviour. The oracle is a function of name, type
  and attempt number. The model cannot express a resolver whose outcomes depend on other
  queries or on time.
