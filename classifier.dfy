/**
  The retry policy of `get_gemini_brand_interpretation` (src/simple_ads.py).
  The HTTP exchange and the JSON navigation are abstracted into one outcome per
  request; `attempt(i)` is what the i-th request (counting from 0) yields.
*/
module Classifier {

  import opened Wrappers

  /** The number of requests the classifier call may make. */
  const Retries: nat := 3

  /** One element of the JSON array the service returns; the caller needs strings. */
  datatype Item = Str(text: string) | NonStr

  /** What one request yields once the program has inspected the answer. */
  datatype Response =
    | TransportError          // `requests.exceptions.RequestException`: no answer, HTTP error, body not JSON
    | BadShape                // the navigation to `candidates[0].content.parts[0].text` finds a missing, empty or
                              // non-string field; a field of the wrong JSON type raises instead, which is not modelled
    | InvalidJson             // that text does not decode as JSON
    | NonList                 // it decodes, but not to a list
    | List(items: seq<Item>)  // it decodes to a list

  function Pow2(i: nat): nat {
    if i == 0 then 1 else 2 * Pow2(i - 1)
  }

  /** The waits, in seconds, after the failed attempts `0 .. k - 1`: `2 ** i` each. */
  function Backoff(k: nat): seq<nat> {
    if k == 0 then [] else Backoff(k - 1) + [Pow2(k - 1)]
  }

  /** The first attempt from `i` on whose outcome is not a transport error. */
  function FirstAnswer(attempt: nat -> Response, i: nat): (r: Option<nat>)
    requires i <= Retries
    ensures r.Some? ==> i <= r.value < Retries && !attempt(r.value).TransportError?
    ensures r.Some? ==> forall j | i <= j < r.value :: attempt(j).TransportError?
    ensures r.None? ==> forall j | i <= j < Retries :: attempt(j).TransportError?
    decreases Retries - i
  {
    if i == Retries then None
    else if !attempt(i).TransportError? then Some(i)
    else FirstAnswer(attempt, i + 1)
  }

  /** The parsed list of a final outcome; every other final outcome gives `[]`. */
  function Payload(r: Response): seq<Item> {
    if r.List? then r.items else []
  }

  /** What one call yields: the list, how many requests it made and the sleeps in between. */
  datatype Interpretation = Interpretation(items: seq<Item>, requests: nat, sleeps: seq<nat>)

  function Interpret(descriptions: seq<string>, apiKey: Option<string>, attempt: nat -> Response): Interpretation {
    if descriptions == [] || !Truthy(apiKey) then Interpretation([], 0, [])
    else
      match FirstAnswer(attempt, 0)
      case Some(k) => Interpretation(Payload(attempt(k)), k + 1, Backoff(k))
      case None => Interpretation([], Retries, Backoff(Retries - 1))
  }

  /**
    The policy: no request for empty input or a missing key; at most three
    requests; every request but the last failed in transport; the first other
    outcome is final; three transport failures give `[]`; the sleeps are 1 s and
    then 2 s, one after each failed request that is followed by another.
  */
  lemma RetryPolicy(descriptions: seq<string>, apiKey: Option<string>, attempt: nat -> Response)
    ensures var r := Interpret(descriptions, apiKey, attempt);
      && r.requests <= Retries
      && (r.requests == 0 <==> descriptions == [] || !Truthy(apiKey))
      && (r.requests == 0 ==> r.items == [] && r.sleeps == [])
      && (forall j | 0 <= j < r.requests - 1 :: attempt(j).TransportError?)
      && (0 < r.requests < Retries ==> !attempt(r.requests - 1).TransportError?)
      && (0 < r.requests && !attempt(r.requests - 1).TransportError? ==> r.items == Payload(attempt(r.requests - 1)))
      && (r.requests == Retries && attempt(Retries - 1).TransportError? ==> r.items == [])
      && (0 < r.requests ==> r.sleeps == [1, 2][..r.requests - 1])
  {
    assert Backoff(1) == [1];
    assert Backoff(2) == [1, 2];
  }

  /** The retry loop of `get_gemini_brand_interpretation`. */
  method GetBrandInterpretation(descriptions: seq<string>, apiKey: Option<string>, attempt: nat -> Response)
    returns (items: seq<Item>, requests: nat, sleeps: seq<nat>)
    ensures Interpretation(items, requests, sleeps) == Interpret(descriptions, apiKey, attempt)
  {
    items, requests, sleeps := [], 0, [];
    if descriptions == [] || !Truthy(apiKey) {
      return;
    }
    var i := 0;
    while i < Retries
      invariant i <= Retries - 1
      invariant requests == i && sleeps == Backoff(i) && items == []
      invariant FirstAnswer(attempt, 0) == FirstAnswer(attempt, i)
    {
      var response := attempt(i);
      requests := requests + 1;
      match response {
        case TransportError =>
          if i < Retries - 1 {
            sleeps := sleeps + [Pow2(i)];
          } else {
            return;
          }
        case List(xs) =>
          items := xs;
          return;
        case _ =>
          return;
      }
      i := i + 1;
    }
    items := [];
  }
}
