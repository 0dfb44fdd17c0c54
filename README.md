# Scaleway `shorten` function — Dafny model

The repository deploys one HTTP-triggered Scaleway function,
`handle(event, context, callback)`. It takes a `mailto:` link and shortens it
through the is.gd service. The function:

- puts a fixed set of four headers (three CORS headers and
  `Content-Type: application/json`) on every response;
- answers a CORS preflight `OPTIONS` with 200 and refuses every method other
  than `POST` with 405;
- parses the JSON body and requires a truthy `url` that starts with
  `mailto:` (400 otherwise);
- asks is.gd up to three times. It accepts a reply whose trimmed text starts
  with `http` and that does not contain `Error`. After each failed attempt but
  the last it waits `200 * attempt` ms. When all three attempts fail it answers
  503;
- answers 500 for anything that throws outside the retry loop.

The model has two modules:

- `JsStrings` (`js_strings.dfy`) gives the three JavaScript string operations
  the handler uses to judge an upstream reply: `trim`, `startsWith` and `includes`. It proves the
  properties of `trim` that the handler relies on.
- `ShortenFunction` (`shorten.dfy`) holds the handler.
  - The function `Screen` covers method dispatch and validation. These are
    straight-line early returns in the source.
  - The retry section is imperative in the source, so `Shorten` is a method
    with a `while` loop over an `attempt` counter. It is proved against the
    recursive specification `RetryFrom`/`Retry`.
  - `Handle` puts the two together.

The environment is abstracted as follows:

- The outcome of each upstream call is taken, in order, from a sequence
  `outcomes` that the caller supplies. Each entry is either `TransportError`
  (something inside the attempt's `try` threw: building the request URL, the
  `fetch`, or reading the reply's text) or `Delivered(text)`.
- A wait is not slept. It is recorded as a number of milliseconds in the
  returned `delays`.
- The parsed request body is a small datatype. `Unparsable` means
  `JSON.parse` or the destructuring threw. Otherwise the `url` field is
  `Falsy`, `NonStringTruthy` or `Text(s)`.

Details of the code that the model follows:

- The handler tests JavaScript falsiness (`!url`), so an absent `url`, an
  empty string, `null`, `false` and `0` all get 400 "URL is required".
- A truthy `url` that is not a string (a number, `true`, an object, an array)
  has no `startsWith`. The call throws a TypeError, and the outer `catch`
  answers 500 "Failed to create short URL".
- The code never looks at the upstream status: `fetch` does not throw on a
  non-2xx status, so the reply text is judged like any other reply. A
  `TransportError` stands for anything that throws inside an attempt's `try`:
  building the request URL with `encodeURIComponent`, the `fetch` itself, or
  reading the reply's text.
- A body of JSON `null` parses, but destructuring `null` throws. It therefore
  belongs to `Unparsable` (500), like malformed JSON.
- `calls` counts attempts, not requests sent. An attempt whose request URL
  could not be built sends nothing, but it counts, and a wait follows it like
  any other failed attempt.

## Model

| member | source | states |
|---|---|---|
| `ShortenFunction.Screen` | serverless-functions/scaleway-functions-shorten.js:6-48 | Every early response carries the fixed header set and never a `shortUrl`. `OPTIONS` gives 200 with an empty body. Any method but `OPTIONS`/`POST` gives 405 "Method not allowed". An unparsable body gives 500. A falsy `url` gives 400 "URL is required". A truthy non-string `url` gives 500. A string `url` without the `mailto:` prefix gives 400 "Only mailto URLs are allowed". Shortening goes ahead exactly for a POST whose `url` is a string starting with `mailto:`, and the target is that string. |
| `ShortenFunction.Shorten` | serverless-functions/scaleway-functions-shorten.js:51-87 | The `for` loop with its `attempt` counter returns exactly the short URL, number of attempts (`calls`) and waits of the specification `Retry`. Its invariants say that every call made so far failed, and that the waits so far are `200, 400, …` for those failed calls, without a wait after the third. |
| `ShortenFunction.RetryFromCalls` | serverless-functions/scaleway-functions-shorten.js:51-54 | From any attempt on, the loop makes at least that attempt and at most 3 attempts in all. When it finds no short URL it has made all 3. |
| `ShortenFunction.RetryFromDelays` | serverless-functions/scaleway-functions-shorten.js:71-86 | From any attempt on, the loop waits once per call except the last one, and the wait after attempt k is `200 * k` ms. |
| `ShortenFunction.RetryFromStops` | serverless-functions/scaleway-functions-shorten.js:54-69 | From any attempt on, every call before the last one was a failed attempt. The loop finds a short URL exactly when the last call was accepted, so no call follows an accepted one. The short URL is that call's reply, trimmed. |
| `ShortenFunction.RetryStopsAtFirstSuccess` | serverless-functions/scaleway-functions-shorten.js:54-69 | If attempt k+1 is the first accepted one, the loop makes exactly k+1 calls, waits 200, …, 200·k, and returns the trimmed reply of attempt k+1. |
| `ShortenFunction.RetryExhausted` | serverless-functions/scaleway-functions-shorten.js:72-97 | The loop gives up if and only if none of the 3 attempts is accepted. It then has made 3 calls and waited exactly [200, 400]. |
| `ShortenFunction.RetryFromFailureKindIrrelevant` | serverless-functions/scaleway-functions-shorten.js:71-86 | From any attempt on, two outcome sequences that agree on which attempts succeed, and on the successful replies, give the same course of the loop. |
| `ShortenFunction.RetryFailureKindIrrelevant` | serverless-functions/scaleway-functions-shorten.js:71-86 | A transport error and a rejected reply lead to the same wait and the same continuation, so any mix of the two gives the same result. |
| `ShortenFunction.RetryShortUrlWellFormed` | serverless-functions/scaleway-functions-shorten.js:63-67 | A short URL that is handed back starts with `http`, has no whitespace at either end and does not contain `Error`. |
| `ShortenFunction.Handle` | serverless-functions/scaleway-functions-shorten.js:4-106 | Every response carries the fixed header set. Early responses are those of `Screen`, with no upstream call and no wait. After validation the response is 200 with the short URL or 503 "temporarily unavailable", with the calls and waits of `Retry`. At most 3 calls are made. A `shortUrl` response has status 200, comes from a POST whose `url` starts with `mailto:`, and is the trimmed text of the last call, which was accepted. A 503 means 3 calls, waits [200, 400] and no accepted attempt. |
| `JsStrings.TrimStartSuffix` | serverless-functions/scaleway-functions-shorten.js:63 | Trimming the front gives a suffix of the input. Everything removed is whitespace, and the result does not start with whitespace. |
| `JsStrings.TrimEndPrefix` | serverless-functions/scaleway-functions-shorten.js:63 | Trimming the back gives a prefix of the input. Everything removed is whitespace, and the result does not end with whitespace. |
| `JsStrings.TrimCharacterization` | serverless-functions/scaleway-functions-shorten.js:63 | For whitespace `a` and `b` and a core `m` with no whitespace at either end, `trim(a + m + b) == m`. |
| `JsStrings.TrimDecomposes` | serverless-functions/scaleway-functions-shorten.js:63 | Every string is its leading whitespace, then its trimmed core (no whitespace at either end), then its trailing whitespace. |
| `JsStrings.TrimIdempotent` | serverless-functions/scaleway-functions-shorten.js:63 | Trimming twice gives the same result as trimming once. |
| `JsStrings.ContainsIff` | serverless-functions/scaleway-functions-shorten.js:63 | `includes` holds exactly when the substring occurs at some index. |
| `JsStrings.TrimContains` | serverless-functions/scaleway-functions-shorten.js:63 | Any substring of the trimmed text is also a substring of the original text. |

## Left out

- The is.gd request (`fetch` of `https://is.gd/create.php?...`) and the reply's `text()` are network I/O. The caller supplies each call's outcome instead.
- `encodeURIComponent` and the query string built from the target are a library call. The validated target is returned by `Screen` and then not used. The call's one effect on the handler's decisions is that it throws `URIError` on a `url` holding an unpaired surrogate. That happens inside each attempt's `try`, so such a `url` fails every attempt and gets 503 after the waits [200, 400], without a request being sent. In the model this run is the run with three `TransportError` outcomes.
- `setTimeout` and the `async`/`await` promise machinery are timers and concurrency. Each wait is recorded in `delays` instead.
- `JSON.parse` and `JSON.stringify` are library parsing and serialisation. The parsed body is the `RequestBody` datatype, and a response body is the tagged `ResponseBody` value (empty, `error` or `shortUrl`).
- JavaScript falsiness is approximated. `UrlField.Falsy` covers every falsy non-string value (absent, `null`, `false`, `0`, `NaN`), and `Text("")` is falsy.
- `console.error` logging and the Scaleway `event`/`context`/`callback` plumbing are I/O only.
- Strings are sequences of code points, while JavaScript strings are sequences of UTF-16 code units. A JavaScript string with an unpaired surrogate (which `JSON.parse` produces from a `\ud800` escape) has no counterpart in the model. For a `url`, the model reaches the source's result for such a string only through the all-`TransportError` outcome sequence (see `encodeURIComponent` above). For an upstream reply, the whitespace set, `http`, `Error` and `mailto:` are all single code units, so `trim`, `startsWith` and `includes` decide the same on the code-point reading of any well-formed reply.
- `Handle` and `Shorten` require at least 3 supplied outcomes, one for each possible upstream call. The source makes no such demand, because it fetches on demand.
