# misskey.js `APIClient`, modelled in Dafny

This project models the request dispatcher of the misskey.js API client
(`src/api.ts`). The client posts JSON to the `/api/<endpoint>` paths of a
Misskey server. It also offers `isAPIError`, which recognises the errors
that the server reported.

The dispatcher `APIClient.request` makes these decisions around one call of
the transport (`fetch`):

- **Credential.** The credential on the wire is the per-call `options.i`
  unless that is `undefined`; then it is the client's own `i`. A request
  made with no options argument at all uses the parameter default
  `{ params: {}, i: null }`, so it sends `i: null`, not the client's
  credential.
- **Envelope.** The posted body is `{...params, i: <credential>}`. The
  reserved `i` always overrides a caller's own `i`. `JSON.stringify` then
  drops `i` when the credential is `undefined`.
- **URL and request.** The URL is `origin + "/api/" + endpoint`, and the
  request is a POST with `credentials: 'omit'` and `cache: 'no-cache'`.
- **Classification.** The transport's answer is classified by status:
  - 200 fulfils with the parsed body.
  - 204 fulfils with `null` and never reads the body.
  - Any other status rejects with the members of `body.error`, stamped with
    a private tag.
  - Transport and parse failures pass through unchanged.
- **Counter.** `pendingApiRequestsCount` goes up on entry and down once
  when the promise settles.

Files and modules:

- `js.dfy` (module `Js`) holds the JavaScript values the dispatcher sees:
  - parsed JSON;
  - values thrown by foreign code, which only tell `undefined`, `null` and
    other values apart;
  - the object spread `{...v}` of a parsed value. This gives an object's
    members, or one member per index of an array or string, keyed by the
    index's decimal string.
- `dispatch.dfy` (module `Dispatch`) holds the pure decisions: credential,
  options default, envelope, URL, the transport call, classification, and
  `isAPIError`. The private tag (`Symbol()`) is modelled as its own
  constructor, `ApiError`.
- `pending.dfy` (module `Pending`) holds the counter's bookkeeping. It is a
  trace of `Start(id)` and `Finish(id)` events, and the counter is the
  number of starts minus the number of finishes.
- `client.dfy` (module `Api`) holds the class `Client`, with the mutable
  counter. A call of `request` becomes two events. The entry is `Request`,
  which bumps the count and returns the transport call. The settlement is
  `Settle`, which classifies the transport's outcome and drops the count.
  The transport's outcome is an input to `Settle`.

The `APIError` type (src/api.ts:8-14) and `isAPIError` suggest that every
status other than 200 and 204 yields a tagged error, even when `body.error`
is missing or malformed. The model follows the code, where that holds for
every parsed body except JSON `null`. For `null`, reading `body.error`
(src/api.ts:136) throws a `TypeError` inside the `then` callback, and
`.catch(reject)` (line 140) passes it on untagged. `Classify` models this as
`Passthrough(PropertyOfNullish)`.

## Model

| member | source | states |
|---|---|---|
| `Api.Client.constructor` | src/api.ts:69-80 | A new client has count 0, nothing in flight, and the given origin and credential unchanged |
| `Api.Client.Request` | src/api.ts:112-125 | Entering `request` raises the count by one and puts a fresh call in flight. The transport call is `Prepare` of the client's origin and credential and the options, or the default options when no argument was passed. The class invariant (count == starts minus finishes over a well-formed trace) is kept |
| `Api.Client.Settle` | src/api.ts:126-142 | Settling a call in flight yields `Classify` of the transport's outcome, lowers the count by one on every outcome, and removes exactly that call from the in-flight set |
| `Api.Client.IsQuiescent` | src/api.ts:112-115 | The count is zero exactly when no call is in flight |
| `Api.ThreeOverlappingRequests` | src/api.ts:112-142 | Three calls issued before any settles give a count of 3. Settling them out of order, with any outcomes, brings it back to 0, and each settles as `Classify` of its own outcome |
| `Dispatch.ResolveOptions` | src/api.ts:84 | A missing options argument becomes `{params: {}, i: null}`. A given one is used as it is |
| `Dispatch.EffectiveCred` | src/api.ts:121 | A string per-call credential is sent as given, and a `null` one sends `null` whatever the client holds. An `undefined` one falls back to the client's. The result is `undefined` only when both are |
| `Dispatch.ParamMembers` | src/api.ts:120 | Spreading absent params contributes no member, and spreading given params contributes all of them |
| `Dispatch.Envelope` | src/api.ts:119-122 | The body's keys are the params' keys plus `i`, or minus `i` when the credential is `undefined`. Every other param is kept. The credential read back from the body is the effective one, so a caller's own `i` never survives |
| `Dispatch.EnvelopeInjective` | src/api.ts:119-122 | Two envelopes are equal if and only if their params agree outside `i` and their credentials are equal. The server recovers exactly the params and the credential |
| `Dispatch.Url` | src/api.ts:117 | The URL is the origin, then `/api/`, then the endpoint name verbatim |
| `Dispatch.UrlRoundTrip` | src/api.ts:117 | The endpoint is recovered from the URL under the same origin |
| `Dispatch.EndpointOfSound` | src/api.ts:117 | Any URL from which an endpoint is recovered is exactly that endpoint's URL |
| `Dispatch.Prepare` | src/api.ts:117-125 | The transport call is a POST with credentials `omit` and cache `no-cache`, to the endpoint's URL. Its body carries the effective credential and, apart from `i`, exactly the caller's params |
| `Dispatch.OmittedOptionsPostOnlyNull` | src/api.ts:84 | A request without an options argument posts exactly `{"i": null}`, whatever the client's credential |
| `Dispatch.Classify` | src/api.ts:126-140 | The promise fulfils only on 200 or 204. On 204 it fulfils with null. On 200 it fulfils with the parsed body exactly when parsing succeeds. It rejects with a tagged error exactly on an error status with a parsed non-null body. On an error status with a JSON `null` body it rejects, untagged, with the `TypeError` that reading `body.error` throws. Transport and parse failures pass through unchanged |
| `Dispatch.NoContentIgnoresBody` | src/api.ts:127-132 | On 204 the settlement is null whatever `res.json()` would do, so the body is never read |
| `Dispatch.ErrorStatusAlwaysTagged` | src/api.ts:133-138 | Any parsed non-null body on an error status gives a tagged error, whatever `body.error` holds. A body `{"error": {...}}` gives exactly that object's members. In general the fields are what spreading `body.error` copies, and none when `body.error` is missing |
| `Dispatch.IsApiErrorAsWritten` | src/api.ts:16-18 | As written, `isAPIError` answers true exactly for tagged errors and throws exactly for `null` and `undefined` |
| `Dispatch.NullRejectionBreaksRecognition` | src/api.ts:16-18 | A transport rejecting with `null` makes `request` reject with `null`, and `isAPIError` as written throws on it |
| `Dispatch.IsApiError` | src/api.ts:16-18 | The recognition predicate is true exactly for tagged errors. It agrees with the as-written one wherever that one returns |
| `Dispatch.RecognisesExactlyServerErrors` | src/api.ts:126-140 | A rejection is recognised as an API error exactly when the server answered an error status with a parsed non-null body. A transport failure never is, for transport reasons that carry no tag (see Left out) |
| `Js.SpreadMembers` | src/api.ts:136 | `...body.error` copies an object's members. For an array or string it gives exactly the index keys, each holding its element or character. It copies nothing for other values or `undefined` |
| `Js.Member` | src/api.ts:136 | `body.error` on a non-null body is defined exactly when the body is an object holding `error` |
| `Js.IndexedMembers` | src/api.ts:136 | Spreading an array-like value gives one member per index, under that index's key, holding that element |
| `Js.DecimalStringInjective` | src/api.ts:136 | Distinct indices have distinct property keys, so no spread element is lost |
| `Pending.NetCountsInFlight` | src/api.ts:112-115 | Over any trace the dispatcher can produce, the count equals the number of calls entered and not yet settled |
| `Pending.QuiescentIffZero` | src/api.ts:112-115 | The count is never negative, and it is zero exactly when no call is in flight |
| `Pending.SettledBatchRestoresCount` | src/api.ts:112-142 | If the calls in flight at the end of a stretch of entries and settlements are exactly those in flight at its start, the count is back to its value at the start. That is, every call entered during the stretch has settled, and no call already in flight at its start has |

## Left out

- The type-level response narrowing (src/api.ts:33-51 and 85-111) is left out. It exists only at compile time and has no runtime behaviour.
- `ayuskeyClient` (src/api.ts:53-61) is left out. It wraps an external library that is not part of this model, and it ignores its `i`.
- The `fetch` field and its default (src/api.ts:67, 79) are left out. The transport is a foreign call, so the model returns the call's arguments from `Request` and takes its outcome as an input to `Settle`.
- JSON text is not modelled. Serialization and parsing are left out, and bodies are parsed `Json` values. Member order of objects is not kept, and numbers are abstract integers, not doubles.
- Promise scheduling is not modelled. Concurrent calls are interleavings of `Request` and `Settle` calls on one client.
- `pendingApiRequestsCount` is an unbounded integer here, not a double. Other code can write to it, since it is public, and that is not modelled.
- Api.Client.Settle: requires the call to be in flight, because a promise settles at most once. The model does not derive this from promise semantics.
- Js.SpreadMembers: a string is split into `char`s. JavaScript splits it into UTF-16 code units, and the model does not tell the two apart.
- The recognition tag is a constructor, not a `Symbol()` key (src/api.ts:6). A `Thrown` value can never carry it.
- Dispatch.RecognisesExactlyServerErrors: does not cover a transport that rejects with an object it got as an earlier tagged rejection. The symbol is private, but tagged objects reach callers. A custom `fetch` (src/api.ts:72) that rejects with such an object has it passed on by `.catch(reject)` (line 140), and `isAPIError` then answers true for a transport failure. `Thrown` cannot hold a tag, so the model does not capture this.

## Findings

| source | as written | input that shows it | evidently intended | confidence | as-written member | corrected member |
|---|---|---|---|---|---|---|
| src/api.ts:16-18 | `isAPIError` reads `reason[MK_API_ERROR]`, which throws a `TypeError` when `reason` is `null` or `undefined` | A transport whose promise rejects with `null`. `request` passes that `null` on unchanged (line 140), and `isAPIError(null)` throws instead of answering false (`Dispatch.NullRejectionBreaksRecognition`) | false for every value without the tag, `null` and `undefined` included | medium, not executed | `Dispatch.IsApiErrorAsWritten` | `Dispatch.IsApiError` |
