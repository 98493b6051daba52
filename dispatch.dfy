/** The decisions `APIClient.request` makes around its one transport call:
    which credential goes on the wire, what body and URL are posted, and how
    the transport's answer settles the returned promise. Also the error
    recognition predicate `isAPIError`. */
module Dispatch {
  import opened Js

  /** The three states of a credential: `undefined` (inherit), `null`
      (explicitly anonymous) and a string. */
  datatype CredOpt = Undef | Null | Str(s: string)

  /** The `options` argument of `request`. `params` is None when the
      property is absent (`undefined`). */
  datatype RequestOptions = RequestOptions(params: Option<map<string, Json>>, i: CredOpt)

  /** The options `request` works with: the caller's when an argument was
      passed, otherwise the parameter default `{ params: {}, i: null }`. */
  function ResolveOptions(given: Option<RequestOptions>): (o: RequestOptions)
    ensures given.Some? ==> o == given.value
    ensures given.None? ==> o.i.Null? && o.params == Some(map[])
  {
    match given
    case Some(options) => options
    case None => RequestOptions(Some(map[]), Null)
  }

  /** The credential sent with a request: the per-call one unless it is
      `undefined`, in which case the client's own. */
  function EffectiveCred(perCall: CredOpt, client: CredOpt): (r: CredOpt)
    ensures perCall.Str? ==> r == perCall
    ensures perCall.Null? ==> r.Null?
    ensures perCall.Undef? ==> r == client
    ensures r.Undef? <==> perCall.Undef? && client.Undef?
  {
    if perCall != Undef then perCall else client
  }

  /** The JSON form of a defined credential. */
  function CredJson(c: CredOpt): (j: Json)
    requires !c.Undef?
    ensures j.JNull? || j.JStr?
  {
    if c.Null? then JNull else JStr(c.s)
  }

  /** The members that spreading `options.params` contributes; spreading
      `undefined` contributes none. */
  function ParamMembers(params: Option<map<string, Json>>): (m: map<string, Json>)
    ensures params.Some? ==> m == params.value
    ensures params.None? ==> m == map[]
  {
    if params.Some? then params.value else map[]
  }

  /** What the server reads back as the credential of a parsed envelope:
      Undef when `i` is absent, None when `i` holds something no
      credential serializes to. */
  function WireCred(body: map<string, Json>): (c: Option<CredOpt>)
    ensures "i" !in body ==> c == Some(Undef)
    ensures c.Some? && !c.value.Undef? ==> "i" in body && body["i"] == CredJson(c.value)
  {
    if "i" !in body then Some(Undef)
    else match body["i"]
      case JNull => Some(Null)
      case JStr(s) => Some(Str(s))
      case _ => None
  }

  /** The members of the posted body once parsed: `{...params, i: eff}`
      after JSON.stringify, which leaves out a member whose value is
      `undefined`. A caller's own `i` is always overridden. */
  function Envelope(params: map<string, Json>, eff: CredOpt): (body: map<string, Json>)
    ensures body.Keys == if eff.Undef? then params.Keys - {"i"} else params.Keys + {"i"}
    ensures forall k :: k in params && k != "i" ==> body[k] == params[k]
    ensures WireCred(body) == Some(eff)
  {
    if eff.Undef? then params - {"i"} else params["i" := CredJson(eff)]
  }

  /** The server can recover the parameters (other than `i`) and the
      credential from an envelope, and nothing else goes into it. */
  lemma EnvelopeInjective(p1: map<string, Json>, e1: CredOpt, p2: map<string, Json>, e2: CredOpt)
    ensures Envelope(p1, e1) == Envelope(p2, e2) <==> p1 - {"i"} == p2 - {"i"} && e1 == e2
  {
    var b1, b2 := Envelope(p1, e1), Envelope(p2, e2);
    assert b1 - {"i"} == p1 - {"i"};
    assert b2 - {"i"} == p2 - {"i"};
    if b1 == b2 {
      assert WireCred(b1) == WireCred(b2);
    }
    if p1 - {"i"} == p2 - {"i"} && e1 == e2 {
      assert p1.Keys - {"i"} == (p1 - {"i"}).Keys == (p2 - {"i"}).Keys == p2.Keys - {"i"};
      assert p1.Keys + {"i"} == (p1.Keys - {"i"}) + {"i"} == (p2.Keys - {"i"}) + {"i"} == p2.Keys + {"i"};
      forall k | k in b1 ensures b1[k] == b2[k] {
        if k != "i" { assert (p1 - {"i"})[k] == (p2 - {"i"})[k]; }
      }
      assert b1 == b2;
    }
  }

  /** The request URL: the origin, then `/api/`, then the endpoint name
      verbatim. */
  function Url(origin: string, endpoint: string): (url: string)
    ensures |url| == |origin| + 5 + |endpoint|
    ensures url[..|origin|] == origin
    ensures url[|origin|..|origin| + 5] == "/api/"
    ensures url[|origin| + 5..] == endpoint
  {
    origin + "/api/" + endpoint
  }

  /** The endpoint a URL addresses under the given origin, if any. */
  function EndpointOf(origin: string, url: string): (e: Option<string>)
    ensures e.Some? ==> |e.value| == |url| - |origin| - 5
  {
    var n := |origin| + 5;
    if n <= |url| && url[..n] == origin + "/api/" then Some(url[n..]) else None
  }

  /** Every endpoint name is recovered from its URL. */
  lemma UrlRoundTrip(origin: string, endpoint: string)
    ensures EndpointOf(origin, Url(origin, endpoint)) == Some(endpoint)
  {
  }

  /** A URL under the origin's `/api/` is the URL of the endpoint it names. */
  lemma EndpointOfSound(origin: string, url: string)
    requires EndpointOf(origin, url).Some?
    ensures Url(origin, EndpointOf(origin, url).value) == url
  {
  }

  /** The `init` argument handed to the transport. */
  datatype FetchInit = FetchInit(verb: string, body: map<string, Json>, credentials: string, cache: string)

  /** One call of the transport. */
  datatype WireRequest = WireRequest(url: string, init: FetchInit)

  /** The transport call `request` makes for a client with the given origin
      and credential. */
  function Prepare(origin: string, credential: CredOpt, endpoint: string, options: RequestOptions): (req: WireRequest)
    ensures req.init.verb == "POST"
    ensures req.init.credentials == "omit" && req.init.cache == "no-cache"
    ensures EndpointOf(origin, req.url) == Some(endpoint)
    ensures WireCred(req.init.body) == Some(EffectiveCred(options.i, credential))
    ensures req.init.body - {"i"} == ParamMembers(options.params) - {"i"}
  {
    var body := Envelope(ParamMembers(options.params), EffectiveCred(options.i, credential));
    UrlRoundTrip(origin, endpoint);
    assert body - {"i"} == ParamMembers(options.params) - {"i"};
    WireRequest(Url(origin, endpoint), FetchInit("POST", body, "omit", "no-cache"))
  }

  /** A call with no options argument posts `{"i": null}` whatever the
      client's own credential is. */
  lemma OmittedOptionsPostOnlyNull(origin: string, credential: CredOpt, endpoint: string)
    ensures Prepare(origin, credential, endpoint, ResolveOptions(None)).init.body == map["i" := JNull]
  {
  }

  /** What `res.json()` yields: the parsed body, or a failure. */
  datatype Parse = Parsed(value: Json) | ParseFailed(reason: Thrown)

  /** A response as the transport delivers it. */
  datatype Response = Response(status: int, json: Parse)

  /** How the transport's promise settles. */
  datatype Transport = Rejected(reason: Thrown) | Responded(res: Response)

  /** Why `request`'s promise rejected: an API error (an object stamped with
      the private recognition tag, here its own constructor, holding the
      members spread from `body.error`) or a value passed through as it
      was thrown. */
  datatype Reason = ApiError(fields: map<string, Json>) | Passthrough(thrown: Thrown)

  /** How `request`'s promise settles. */
  datatype Settlement = Fulfilled(value: Json) | RejectedWith(reason: Reason)

  /** Whether the response is a failure the server reported. */
  predicate IsErrorStatus(status: int)
  {
    status != 200 && status != 204
  }

  /** The settlement of `request`'s promise for a given transport outcome.
      204 is decided before the body is read; every other status reads it
      first, so a parse failure wins over the status. */
  function Classify(t: Transport): (s: Settlement)
    ensures s.Fulfilled? ==> t.Responded? && !IsErrorStatus(t.res.status)
    ensures t.Responded? && t.res.status == 204 ==> s == Fulfilled(JNull)
    ensures t.Responded? && t.res.status == 200 ==>
      (t.res.json.Parsed? <==> s.Fulfilled?) && (s.Fulfilled? ==> s.value == t.res.json.value)
    ensures s.RejectedWith? && s.reason.ApiError? <==>
      t.Responded? && IsErrorStatus(t.res.status) && t.res.json.Parsed? && !t.res.json.value.JNull?
    ensures t.Responded? && IsErrorStatus(t.res.status) && t.res.json == Parsed(JNull) ==>
      s == RejectedWith(Passthrough(PropertyOfNullish))
    ensures t.Rejected? ==> s == RejectedWith(Passthrough(t.reason))
    ensures t.Responded? && t.res.status != 204 && t.res.json.ParseFailed? ==>
      s == RejectedWith(Passthrough(t.res.json.reason))
  {
    match t
    case Rejected(reason) => RejectedWith(Passthrough(reason))
    case Responded(Response(status, json)) =>
      if status == 204 then Fulfilled(JNull)
      else match json
        case ParseFailed(reason) => RejectedWith(Passthrough(reason))
        case Parsed(body) =>
          if status == 200 then Fulfilled(body)
          // `body.error` on a null body throws before the error is built
          else if body.JNull? then RejectedWith(Passthrough(PropertyOfNullish))
          else RejectedWith(ApiError(SpreadMembers(Member(body, "error"))))
  }

  /** A 204 settles with null whatever `res.json()` would have done: the
      body is never read. */
  lemma NoContentIgnoresBody(j1: Parse, j2: Parse)
    ensures Classify(Responded(Response(204, j1))) == Classify(Responded(Response(204, j2))) == Fulfilled(JNull)
  {
  }

  /** Any parsed non-null body on an error status yields an API error,
      whatever `body.error` holds or whether it is there at all. Its fields
      are what spreading `body.error` copies: the members of an object, the
      indexed elements of an array or string, and none when `body.error`
      is missing or another kind of value. */
  lemma ErrorStatusAlwaysTagged(status: int, body: Json)
    requires IsErrorStatus(status) && !body.JNull?
    ensures Classify(Responded(Response(status, Parsed(body)))).RejectedWith?
    ensures var r := Classify(Responded(Response(status, Parsed(body)))).reason;
      && r.ApiError?
      && r.fields == SpreadMembers(Member(body, "error"))
      && (body.JObj? && "error" in body.members && body.members["error"].JObj? ==>
            r.fields == body.members["error"].members)
      && (!(body.JObj? && "error" in body.members) ==> r.fields == map[])
  {
  }

  /** What `isAPIError(reason)` does as written: it reads the tag property
      of its argument, which throws for `null` and `undefined`. */
  datatype Check = Returns(b: bool) | Throws(thrown: Thrown)

  /** `isAPIError` as written. A tagged error answers true, every other
      value false, except null and undefined, which make it throw. */
  function IsApiErrorAsWritten(reason: Reason): (c: Check)
    ensures c == Returns(true) <==> reason.ApiError?
    ensures c.Throws? <==> reason.Passthrough? && (reason.thrown.ThrownUndefined? || reason.thrown.ThrownNull?)
  {
    match reason
    case ApiError(_) => Returns(true)
    case Passthrough(ThrownUndefined) => Throws(PropertyOfNullish)
    case Passthrough(ThrownNull) => Throws(PropertyOfNullish)
    case Passthrough(ThrownObject(_)) => Returns(false)
  }

  /** A transport that rejects with null makes `isAPIError` throw on the
      very reason `request` rejects with, instead of answering false. */
  lemma NullRejectionBreaksRecognition()
    ensures Classify(Rejected(ThrownNull)) == RejectedWith(Passthrough(ThrownNull))
    ensures IsApiErrorAsWritten(Classify(Rejected(ThrownNull)).reason).Throws?
  {
  }

  /** `isAPIError` as intended: true exactly for tagged errors, false for
      every other reason, null and undefined included. */
  function IsApiError(reason: Reason): (b: bool)
    ensures b <==> reason.ApiError?
    ensures IsApiErrorAsWritten(reason).Returns? ==> IsApiErrorAsWritten(reason).b == b
  {
    reason.ApiError?
  }

  /** A rejection is recognised as an API error exactly when the server
      answered with an error status and a parsed non-null body; transport
      and parse failures never are. */
  lemma RecognisesExactlyServerErrors(t: Transport)
    ensures Classify(t).RejectedWith? && IsApiError(Classify(t).reason) <==>
      t.Responded? && IsErrorStatus(t.res.status) && t.res.json.Parsed? && !t.res.json.value.JNull?
    ensures t.Rejected? ==> Classify(t).RejectedWith? && !IsApiError(Classify(t).reason)
  {
  }
}
