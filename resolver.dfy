/** The DNS client of the audit: one query of a record type, retried a
    bounded number of times, with every failure swallowed. */
module Resolver {
  import opened Wrappers

  /** The record types the audit asks for. */
  datatype RecordType = MX | TXT | A

  /** A successful answer: the text of each record in it. */
  type Answer = seq<string>

  /** The network as seen by the audit: the outcome of the `attempt`-th try
      (counted from 0) at resolving `name` for a record type. `None` stands
      for any exception the resolver raises (timeout, NXDOMAIN, no answer,
      SERVFAIL, ...), which the source never tells apart. */
  type Oracle = (string, RecordType, nat) -> Option<Answer>

  /** Number of tries `robust_query` makes before giving up. */
  const MaxAttempts: nat := 3

  /** The answer of the first successful try among tries `from` up to
      `MaxAttempts - 1`, or `None` when all of them fail. */
  function FirstSuccess(resolve: Oracle, name: string, t: RecordType, from: nat): Option<Answer>
    decreases MaxAttempts - from
  {
    if from >= MaxAttempts then None
    else if resolve(name, t, from).Some? then resolve(name, t, from)
    else FirstSuccess(resolve, name, t, from + 1)
  }

  /** What `robust_query(name, t)` returns. */
  function RetryAnswer(resolve: Oracle, name: string, t: RecordType): Option<Answer>
  {
    FirstSuccess(resolve, name, t, 0)
  }

  /** Try `k` is the first one that succeeds. */
  predicate EarliestSuccess(resolve: Oracle, name: string, t: RecordType, k: nat)
  {
    k < MaxAttempts && resolve(name, t, k).Some? &&
    forall j :: 0 <= j < k ==> resolve(name, t, j).None?
  }

  /** The retried answer is absent exactly when every try fails, and is
      otherwise the answer of the earliest try that succeeds. */
  lemma RetryAnswerIff(resolve: Oracle, name: string, t: RecordType)
    ensures RetryAnswer(resolve, name, t).None? <==>
      forall i :: 0 <= i < MaxAttempts ==> resolve(name, t, i).None?
    ensures forall k :: EarliestSuccess(resolve, name, t, k) ==>
      RetryAnswer(resolve, name, t) == resolve(name, t, k)
  {
    assert FirstSuccess(resolve, name, t, 3) == None;
  }

  /** Number of tries `robust_query` makes when it starts counting at try
      `from`: it stops after the first success or after the last try. */
  function TriesFrom(resolve: Oracle, name: string, t: RecordType, from: nat): nat
    requires from < MaxAttempts
    decreases MaxAttempts - from
  {
    if from + 1 == MaxAttempts || resolve(name, t, from).Some? then from + 1
    else TriesFrom(resolve, name, t, from + 1)
  }

  /** Number of calls into the resolver that `robust_query(name, t)` makes. */
  function Tries(resolve: Oracle, name: string, t: RecordType): nat
  {
    TriesFrom(resolve, name, t, 0)
  }

  /** One `robust_query` call: what it asked for and how many tries it took. */
  datatype Query = Query(name: string, rtype: RecordType, tries: nat)

  /** `robust_query`: tries the lookup up to `MaxAttempts` times and returns
      the first answer; after that many failures it returns `None`. It never
      fails. `call` records the name and type asked for and the number of
      calls made into the resolver. */
  method RobustQuery(resolve: Oracle, name: string, t: RecordType)
    returns (r: Option<Answer>, call: Query)
    ensures call == Query(name, t, Tries(resolve, name, t))
    ensures 1 <= call.tries <= MaxAttempts
    ensures forall i :: 0 <= i < call.tries - 1 ==> resolve(name, t, i).None?
    ensures r == resolve(name, t, call.tries - 1)
    ensures r.None? ==> call.tries == MaxAttempts
    ensures r == RetryAnswer(resolve, name, t)
  {
    for attempt := 0 to MaxAttempts
      invariant forall i :: 0 <= i < attempt ==> resolve(name, t, i).None?
      invariant FirstSuccess(resolve, name, t, attempt) == RetryAnswer(resolve, name, t)
      invariant attempt < MaxAttempts ==> TriesFrom(resolve, name, t, attempt) == Tries(resolve, name, t)
    {
      var outcome := resolve(name, t, attempt);
      if outcome.Some? {
        return outcome, Query(name, t, attempt + 1);
      }
    }
    return None, Query(name, t, MaxAttempts);
  }
}
