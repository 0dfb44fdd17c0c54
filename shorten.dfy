/**
 * The Scaleway function that shortens a `mailto:` link through the is.gd
 * service: CORS headers, method dispatch, validation of the JSON body, and a
 * bounded retry loop with linear backoff over the upstream's answers.
 *
 * The upstream is abstracted: each call's outcome is taken, in order, from a
 * sequence supplied by the caller, and each requested wait is recorded as a
 * number of milliseconds instead of being slept.
 */
module ShortenFunction {
  import opened JsStrings

  datatype Option<T> = None | Some(value: T)

  /** Attempts made on the upstream before giving up. */
  const MaxRetries: nat := 3
  /** Backoff unit: after failed attempt k (k < MaxRetries) the handler waits k times this. */
  const BackoffMs: nat := 200
  /** The only scheme accepted for shortening. */
  const MailtoPrefix: string := "mailto:"

  const MethodNotAllowed: string := "Method not allowed"
  const UrlRequired: string := "URL is required"
  const OnlyMailto: string := "Only mailto URLs are allowed"
  const ServiceUnavailable: string := "URL shortening service temporarily unavailable. Please try again later."
  const CreateFailed: string := "Failed to create short URL"

  /** The header set built once at the top of the handler and put on every response. */
  const CorsHeaders: map<string, string> := map[
    "Access-Control-Allow-Origin" := "*",
    "Access-Control-Allow-Headers" := "Content-Type",
    "Access-Control-Allow-Methods" := "POST, OPTIONS",
    "Content-Type" := "application/json"
  ]

  /** The `url` field of the parsed request body, as far as the handler can tell
      it apart: `Falsy` is an absent field or a falsy non-string value
      (`null`, `false`, `0`); `NonStringTruthy` is any other non-string
      (a non-zero number, `true`, an object, an array); `Text` is a string. */
  datatype UrlField = Falsy | NonStringTruthy | Text(s: string)

  /** JavaScript truthiness of the field: the empty string is falsy. */
  predicate Truthy(u: UrlField)
  {
    match u
    case Falsy => false
    case NonStringTruthy => true
    case Text(s) => s != ""
  }

  /** The result of `JSON.parse(event.body)` followed by `const { url } = …`:
      `Unparsable` when either throws (malformed JSON, or JSON `null`). */
  datatype RequestBody = Unparsable | Parsed(url: UrlField)

  /** A response body before `JSON.stringify`: the empty preflight body,
      `{ error: … }` or `{ shortUrl: … }`. */
  datatype ResponseBody = EmptyBody | ErrorBody(error: string) | ShortUrlBody(shortUrl: string)

  datatype Response = Response(statusCode: int, headers: map<string, string>, body: ResponseBody)

  /** A response carrying the fixed header set. */
  function WithCors(statusCode: int, body: ResponseBody): (r: Response)
  {
    Response(statusCode, CorsHeaders, body)
  }

  /** What the handler does before contacting the upstream: answer at once,
      or go on to shorten a validated target. */
  datatype Screening = Respond(response: Response) | Proceed(target: string)

  /** Method dispatch and body validation, including the outer `catch` for a
      body that does not parse and for a `url` that has no `startsWith`. */
  function Screen(httpMethod: string, body: RequestBody): (r: Screening)
    ensures r.Respond? ==> r.response.headers == CorsHeaders && !r.response.body.ShortUrlBody?
    ensures r.Proceed? <==>
      httpMethod == "POST" && body.Parsed? && body.url.Text? && StartsWith(body.url.s, MailtoPrefix)
    ensures r.Proceed? ==> r.target == body.url.s
    ensures httpMethod == "OPTIONS" ==> r == Respond(WithCors(200, EmptyBody))
    ensures httpMethod != "OPTIONS" && httpMethod != "POST" ==>
      r == Respond(WithCors(405, ErrorBody(MethodNotAllowed)))
    ensures httpMethod == "POST" && body.Unparsable? ==>
      r == Respond(WithCors(500, ErrorBody(CreateFailed)))
    ensures httpMethod == "POST" && body.Parsed? && !Truthy(body.url) ==>
      r == Respond(WithCors(400, ErrorBody(UrlRequired)))
    ensures httpMethod == "POST" && body.Parsed? && body.url.NonStringTruthy? ==>
      r == Respond(WithCors(500, ErrorBody(CreateFailed)))
    ensures httpMethod == "POST" && body.Parsed? && Truthy(body.url) && body.url.Text?
            && !StartsWith(body.url.s, MailtoPrefix) ==>
      r == Respond(WithCors(400, ErrorBody(OnlyMailto)))
  {
    if httpMethod == "OPTIONS" then
      Respond(WithCors(200, EmptyBody))
    else if httpMethod != "POST" then
      Respond(WithCors(405, ErrorBody(MethodNotAllowed)))
    else
      match body
      case Unparsable =>
        // JSON.parse or the destructuring threw: caught by the outer handler
        Respond(WithCors(500, ErrorBody(CreateFailed)))
      case Parsed(url) =>
        if !Truthy(url) then
          Respond(WithCors(400, ErrorBody(UrlRequired)))
        else
          match url
          case Text(s) =>
            if !StartsWith(s, MailtoPrefix) then Respond(WithCors(400, ErrorBody(OnlyMailto)))
            else Proceed(s)
          case _ =>
            // `url.startsWith` is not a function: the TypeError reaches the outer handler
            Respond(WithCors(500, ErrorBody(CreateFailed)))
  }

  /** What one attempt produced: `TransportError` when anything inside the
      attempt's `try` threw (building the request URL with
      `encodeURIComponent`, the `fetch`, or reading the reply's text), or the
      text of the reply. */
  datatype Outcome = TransportError | Delivered(text: string)

  /** The per-attempt acceptance test on the upstream's reply text. */
  predicate Accepts(text: string)
  {
    StartsWith(Trim(text), "http") && !Contains(text, "Error")
  }

  predicate Succeeds(o: Outcome)
  {
    o.Delivered? && Accepts(o.text)
  }

  /** The wait after failed attempt `attempt`. */
  function Backoff(attempt: nat): (ms: nat)
  {
    BackoffMs * attempt
  }

  /** The waits after failed attempts 1 .. n, built as the loop builds them:
      one wait appended per failed attempt. The contract gives the closed form:
      the i-th wait (from 0) is the one after attempt i + 1. */
  function BackoffSchedule(n: nat): (d: seq<nat>)
    ensures |d| == n && forall i :: 0 <= i < n ==> d[i] == Backoff(i + 1)
  {
    if n == 0 then [] else BackoffSchedule(n - 1) + [Backoff(n)]
  }

  /** The course of the retry loop: the short URL obtained, if any, the number
      of attempts made (an attempt whose request URL could not be built sends
      no request but still counts), and the waits requested in order. */
  datatype Attempts = Attempts(shortUrl: Option<string>, calls: nat, delays: seq<nat>)

  /** The retry loop from attempt `attempt` on, as a recursive definition. */
  function RetryFrom(outcomes: seq<Outcome>, attempt: nat): (r: Attempts)
    requires 1 <= attempt <= MaxRetries <= |outcomes|
    decreases MaxRetries - attempt
  {
    var o := outcomes[attempt - 1];
    if Succeeds(o) then
      Attempts(Some(Trim(o.text)), attempt, [])
    else if attempt < MaxRetries then
      var rest := RetryFrom(outcomes, attempt + 1);
      Attempts(rest.shortUrl, rest.calls, [Backoff(attempt)] + rest.delays)
    else
      Attempts(None, attempt, [])
  }

  function Retry(outcomes: seq<Outcome>): (r: Attempts)
    requires MaxRetries <= |outcomes|
  {
    RetryFrom(outcomes, 1)
  }

  /** The loop makes between `attempt` and MaxRetries calls, and it makes all
      of them when it finds no short URL. */
  lemma {:induction false} RetryFromCalls(outcomes: seq<Outcome>, attempt: nat)
    requires 1 <= attempt <= MaxRetries <= |outcomes|
    ensures var r := RetryFrom(outcomes, attempt);
      attempt <= r.calls <= MaxRetries && (r.shortUrl.None? ==> r.calls == MaxRetries)
    decreases MaxRetries - attempt
  {
    if !Succeeds(outcomes[attempt - 1]) && attempt < MaxRetries {
      RetryFromCalls(outcomes, attempt + 1);
    }
  }

  /** The loop waits Backoff(k) after each failed attempt k but the last. */
  lemma {:induction false} RetryFromDelays(outcomes: seq<Outcome>, attempt: nat)
    requires 1 <= attempt <= MaxRetries <= |outcomes|
    ensures var r := RetryFrom(outcomes, attempt);
      |r.delays| == r.calls - attempt &&
      forall i :: 0 <= i < |r.delays| ==> r.delays[i] == Backoff(attempt + i)
    decreases MaxRetries - attempt
  {
    var r := RetryFrom(outcomes, attempt);
    if !Succeeds(outcomes[attempt - 1]) && attempt < MaxRetries {
      var rest := RetryFrom(outcomes, attempt + 1);
      RetryFromDelays(outcomes, attempt + 1);
      assert r.delays == [Backoff(attempt)] + rest.delays;
      forall i | 0 <= i < |r.delays| ensures r.delays[i] == Backoff(attempt + i) {
        if i > 0 {
          assert r.delays[i] == rest.delays[i - 1];
        }
      }
    }
  }

  /** The loop stops at the first accepted reply, and the short URL is that
      reply trimmed. */
  lemma {:induction false} RetryFromStops(outcomes: seq<Outcome>, attempt: nat)
    requires 1 <= attempt <= MaxRetries <= |outcomes|
    ensures var r := RetryFrom(outcomes, attempt);
      && attempt <= r.calls <= MaxRetries
      && (forall j :: attempt - 1 <= j < r.calls - 1 ==> !Succeeds(outcomes[j]))
      && (r.shortUrl.Some? <==> Succeeds(outcomes[r.calls - 1]))
      && (r.shortUrl.Some? ==> r.shortUrl.value == Trim(outcomes[r.calls - 1].text))
    decreases MaxRetries - attempt
  {
    if !Succeeds(outcomes[attempt - 1]) && attempt < MaxRetries {
      RetryFromStops(outcomes, attempt + 1);
    }
  }

  /** The loop stops at the first accepted reply: if attempt k + 1 is the first
      to succeed, exactly k + 1 calls are made and the waits are those after
      attempts 1 .. k. */
  lemma RetryStopsAtFirstSuccess(outcomes: seq<Outcome>, k: nat)
    requires MaxRetries <= |outcomes| && k < MaxRetries
    requires Succeeds(outcomes[k])
    requires forall j :: 0 <= j < k ==> !Succeeds(outcomes[j])
    ensures Retry(outcomes) == Attempts(Some(Trim(outcomes[k].text)), k + 1, BackoffSchedule(k))
  {
    var r := Retry(outcomes);
    RetryFromCalls(outcomes, 1);
    RetryFromStops(outcomes, 1);
    assert r.calls == k + 1 by {
      assert r.calls - 1 <= k;
      assert r.shortUrl.None? ==> r.calls == MaxRetries;
    }
    RetryFromDelays(outcomes, 1);
    assert r.delays == BackoffSchedule(k);
  }

  /** The loop gives up exactly when no attempt succeeds, whatever the mix of
      transport errors and rejected replies; it then has made three calls and
      waited 200 ms and 400 ms. */
  lemma RetryExhausted(outcomes: seq<Outcome>)
    requires MaxRetries <= |outcomes|
    ensures Retry(outcomes).shortUrl.None? <==> forall j :: 0 <= j < MaxRetries ==> !Succeeds(outcomes[j])
    ensures Retry(outcomes).shortUrl.None? ==> Retry(outcomes) == Attempts(None, MaxRetries, [200, 400])
  {
    RetryFromCalls(outcomes, 1);
    RetryFromStops(outcomes, 1);
    RetryFromDelays(outcomes, 1);
    var r := Retry(outcomes);
    if r.shortUrl.None? {
      assert r.delays == [200, 400];
    }
  }

  /** A transport error and a rejected reply are handled alike: only which
      attempts succeed, and their replies, decide the course of the loop. */
  lemma {:induction false} RetryFromFailureKindIrrelevant(o1: seq<Outcome>, o2: seq<Outcome>, attempt: nat)
    requires 1 <= attempt <= MaxRetries <= |o1| && MaxRetries <= |o2|
    requires forall j :: attempt - 1 <= j < MaxRetries ==>
      Succeeds(o1[j]) == Succeeds(o2[j]) && (Succeeds(o1[j]) ==> o1[j] == o2[j])
    ensures RetryFrom(o1, attempt) == RetryFrom(o2, attempt)
    decreases MaxRetries - attempt
  {
    if !Succeeds(o1[attempt - 1]) && attempt < MaxRetries {
      RetryFromFailureKindIrrelevant(o1, o2, attempt + 1);
    }
  }

  lemma RetryFailureKindIrrelevant(o1: seq<Outcome>, o2: seq<Outcome>)
    requires MaxRetries <= |o1| && MaxRetries <= |o2|
    requires forall j :: 0 <= j < MaxRetries ==>
      Succeeds(o1[j]) == Succeeds(o2[j]) && (Succeeds(o1[j]) ==> o1[j] == o2[j])
    ensures Retry(o1) == Retry(o2)
  {
    RetryFromFailureKindIrrelevant(o1, o2, 1);
  }

  /** A short URL handed back starts with "http", has no surrounding
      whitespace and does not contain "Error". */
  lemma RetryShortUrlWellFormed(outcomes: seq<Outcome>)
    requires MaxRetries <= |outcomes|
    requires Retry(outcomes).shortUrl.Some?
    ensures var u := Retry(outcomes).shortUrl.value;
      StartsWith(u, "http") && Trimmed(u) && !Contains(u, "Error")
  {
    RetryFromStops(outcomes, 1);
    var r := Retry(outcomes);
    var text := outcomes[r.calls - 1].text;
    TrimDecomposes(text);
    if Contains(Trim(text), "Error") {
      TrimContains(text, "Error");
    }
  }

  /** The retry loop of the handler: up to MaxRetries calls, stopping at the
      first accepted reply, waiting BackoffMs * attempt after each failed
      attempt but the last. */
  method Shorten(outcomes: seq<Outcome>) returns (shortUrl: Option<string>, calls: nat, delays: seq<nat>)
    requires MaxRetries <= |outcomes|
    ensures Attempts(shortUrl, calls, delays) == Retry(outcomes)
  {
    shortUrl, calls, delays := None, 0, [];
    var attempt := 1;
    while attempt <= MaxRetries
      invariant 1 <= attempt <= MaxRetries + 1 && calls == attempt - 1
      invariant forall j :: 0 <= j < calls ==> !Succeeds(outcomes[j])
      invariant attempt <= MaxRetries ==> delays == BackoffSchedule(calls)
      invariant attempt > MaxRetries ==> delays == BackoffSchedule(MaxRetries - 1)
      decreases MaxRetries + 1 - attempt
    {
      var outcome := outcomes[attempt - 1];
      calls := calls + 1;
      match outcome {
        case Delivered(text) =>
          if Accepts(text) {
            shortUrl := Some(Trim(text));
            RetryStopsAtFirstSuccess(outcomes, attempt - 1);
            return;
          }
        case TransportError =>
      }
      // The attempt failed: wait before the next one, unless it was the last.
      if attempt < MaxRetries {
        delays := delays + [BackoffMs * attempt];
      }
      attempt := attempt + 1;
    }
    RetryExhausted(outcomes);
  }

  /** The whole handler: screening, then the retry loop and its 200 or 503. */
  method Handle(httpMethod: string, body: RequestBody, outcomes: seq<Outcome>)
    returns (response: Response, calls: nat, delays: seq<nat>)
    requires MaxRetries <= |outcomes|
    ensures response.headers == CorsHeaders
    ensures Screen(httpMethod, body).Respond? ==>
      response == Screen(httpMethod, body).response && calls == 0 && delays == []
    ensures Screen(httpMethod, body).Proceed? ==>
      var r := Retry(outcomes);
      && calls == r.calls && delays == r.delays
      && response == (if r.shortUrl.Some? then WithCors(200, ShortUrlBody(r.shortUrl.value))
                      else WithCors(503, ErrorBody(ServiceUnavailable)))
    ensures response.body.ShortUrlBody? ==>
      && response.statusCode == 200
      && httpMethod == "POST" && body.Parsed? && body.url.Text? && StartsWith(body.url.s, MailtoPrefix)
      && 1 <= calls && Succeeds(outcomes[calls - 1])
      && response.body.shortUrl == Trim(outcomes[calls - 1].text)
    ensures calls <= MaxRetries
    ensures response.statusCode == 503 ==>
      && calls == MaxRetries && delays == [200, 400]
      && forall j :: 0 <= j < MaxRetries ==> !Succeeds(outcomes[j])
  {
    var screening := Screen(httpMethod, body);
    match screening
    case Respond(r) =>
      response, calls, delays := r, 0, [];
    case Proceed(target) =>
      var shortUrl;
      shortUrl, calls, delays := Shorten(outcomes);
      RetryFromCalls(outcomes, 1);
      RetryFromStops(outcomes, 1);
      RetryExhausted(outcomes);
      match shortUrl
      case Some(u) =>
        response := WithCors(200, ShortUrlBody(u));
      case None =>
        response := WithCors(503, ErrorBody(ServiceUnavailable));
  }
}
