/** The fetch retry controller `get_soup_from_url` (SDGsAction.py:15-35). The HTTP layer
    is replaced by the sequence of outcomes its attempts would see. */
module Fetcher {
  import opened Options

  /** An HTTP status other than 200: a 200 response is always parsed into a document
      (SDGsAction.py:23-24). */
  type NonOkStatus = c: int | c != 200 witness 404

  /** What one `requests.get` attempt gives: a status-200 response (parsed into a
      document), another status, or a `RequestException`. */
  datatype Attempt<D> = Ok200(doc: D) | BadStatus(code: NonOkStatus) | TransportError

  /** The document fetched (if any) and the number of requests made. */
  datatype Fetched<D> = Fetched(doc: Option<D>, attempts: nat)

  /** The default attempt budget of `get_soup_from_url`. */
  const DefaultRetries: int := 3

  /** The outcome of attempt `i`. A network that supplies no answer for an attempt is
      treated as a transport error. */
  function OutcomeAt<D>(outcomes: seq<Attempt<D>>, i: nat): Attempt<D> {
    if i < |outcomes| then outcomes[i] else TransportError
  }

  /** The fetch from attempt `attempt` on, which is still within the budget. */
  function FetchFrom<D>(outcomes: seq<Attempt<D>>, retries: int, attempt: nat): Fetched<D>
    requires attempt < retries
    decreases retries - attempt
  {
    match OutcomeAt(outcomes, attempt)
    case Ok200(doc) => Fetched(Some(doc), attempt + 1)
    case BadStatus(_) => Fetched(None, attempt + 1)
    case TransportError =>
      if attempt < retries - 1 then FetchFrom(outcomes, retries, attempt + 1)
      else Fetched(None, attempt + 1)
  }

  /** What `get_soup_from_url(url, retries)` returns when its attempts see `outcomes`.
      With no budget (`range(retries)` empty) nothing is requested and `None` comes back. */
  function FetchResult<D>(outcomes: seq<Attempt<D>>, retries: int): Fetched<D> {
    if retries <= 0 then Fetched(None, 0) else FetchFrom(outcomes, retries, 0)
  }

  /** `get_soup_from_url`: up to `retries` attempts, leaving early on success or on a
      non-200 status (SDGsAction.py:17-35). The sleeps before and between attempts do not
      change the result and are not modelled. */
  method Fetch<D>(outcomes: seq<Attempt<D>>, retries: int) returns (doc: Option<D>, attempts: nat)
    ensures Fetched(doc, attempts) == FetchResult(outcomes, retries)
  {
    var attempt: nat := 0;
    while attempt < retries
      invariant 0 < retries ==> attempt < retries
      invariant 0 < retries ==> FetchResult(outcomes, retries) == FetchFrom(outcomes, retries, attempt)
      decreases retries - attempt
    {
      var outcome := OutcomeAt(outcomes, attempt);
      match outcome {
        case Ok200(d) =>
          return Some(d), attempt + 1;
        case BadStatus(_) =>
          return None, attempt + 1;
        case TransportError =>
          if attempt < retries - 1 {
            attempt := attempt + 1;
          } else {
            return None, attempt + 1;
          }
      }
    }
    return None, 0;
  }

  /** The fetch from `attempt` on makes at least one and at most the remaining number of
      requests; every request before the last one met a transport error; a document comes
      back exactly when the last request got status 200, and it is that response's
      document; and the fetch stops early only at a non-transport outcome. */
  lemma {:induction false} FetchFromShape<D>(outcomes: seq<Attempt<D>>, retries: int, attempt: nat)
    requires attempt < retries
    ensures var f := FetchFrom(outcomes, retries, attempt);
      attempt < f.attempts <= retries
      && (forall i :: attempt <= i < f.attempts - 1 ==> OutcomeAt(outcomes, i).TransportError?)
      && (f.doc.Some? <==> OutcomeAt(outcomes, f.attempts - 1).Ok200?)
      && (f.doc.Some? ==> f.doc.value == OutcomeAt(outcomes, f.attempts - 1).doc)
      && (f.attempts < retries ==> !OutcomeAt(outcomes, f.attempts - 1).TransportError?)
    decreases retries - attempt
  {
    if OutcomeAt(outcomes, attempt).TransportError? && attempt < retries - 1 {
      FetchFromShape(outcomes, retries, attempt + 1);
    }
  }

  /** The whole contract of `get_soup_from_url`: at most `retries` requests, the ones before
      the last all transport errors, a document exactly when the last one got status 200,
      and another request only after a transport error with budget left. */
  lemma FetchShape<D>(outcomes: seq<Attempt<D>>, retries: int)
    ensures var f := FetchResult(outcomes, retries);
      (retries <= 0 ==> f == Fetched(None, 0))
      && (retries > 0 ==>
        0 < f.attempts <= retries
        && (forall i :: 0 <= i < f.attempts - 1 ==> OutcomeAt(outcomes, i).TransportError?)
        && (f.doc.Some? <==> OutcomeAt(outcomes, f.attempts - 1).Ok200?)
        && (f.doc.Some? ==> f.doc.value == OutcomeAt(outcomes, f.attempts - 1).doc)
        && (f.attempts < retries ==> !OutcomeAt(outcomes, f.attempts - 1).TransportError?))
  {
    if retries > 0 {
      FetchFromShape(outcomes, retries, 0);
    }
  }

  /** The outcome of a fetch depends only on the outcomes of the attempts it is allowed
      to make. */
  lemma {:induction false} FetchFromOnlyBudget<D>(o1: seq<Attempt<D>>, o2: seq<Attempt<D>>, retries: int, attempt: nat)
    requires attempt < retries
    requires forall i :: attempt <= i < retries ==> OutcomeAt(o1, i) == OutcomeAt(o2, i)
    ensures FetchFrom(o1, retries, attempt) == FetchFrom(o2, retries, attempt)
    decreases retries - attempt
  {
    if attempt < retries - 1 {
      FetchFromOnlyBudget(o1, o2, retries, attempt + 1);
    }
  }

  /** A whole call depends only on the outcomes of the `retries` attempts it may make. */
  lemma FetchResultOnlyBudget<D>(o1: seq<Attempt<D>>, o2: seq<Attempt<D>>, retries: int)
    requires forall i :: 0 <= i < retries ==> OutcomeAt(o1, i) == OutcomeAt(o2, i)
    ensures FetchResult(o1, retries) == FetchResult(o2, retries)
  {
    if retries > 0 {
      FetchFromOnlyBudget(o1, o2, retries, 0);
    }
  }

  /** Two connection errors and then a 200 response, with the default budget of three. */
  lemma FetchRecoversOnThirdAttempt<D>(d: D)
    ensures FetchResult([TransportError, TransportError, Ok200(d)], DefaultRetries) == Fetched(Some(d), 3)
  {
  }

  /** Three connection errors exhaust the default budget. */
  lemma FetchGivesUpAfterBudget<D>(outcomes: seq<Attempt<D>>)
    requires forall i :: 0 <= i < |outcomes| ==> outcomes[i].TransportError?
    ensures FetchResult(outcomes, DefaultRetries) == Fetched(None, 3)
  {
  }

  /** A non-200 status ends the fetch at once, with nothing. */
  lemma FetchBadStatusStops<D>(outcomes: seq<Attempt<D>>, retries: int)
    requires retries > 0 && outcomes != [] && outcomes[0].BadStatus?
    ensures FetchResult(outcomes, retries) == Fetched(None, 1)
  {
  }
}
