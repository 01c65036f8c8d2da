/**
 * The `POST /api/submit` relay: validates a registration submission, then either simulates
 * success (no upstream configured) or forwards a renamed payload to the configured form
 * processor and maps its answer to a response envelope.
 *
 * The handler is a pure function. The parsed body (or the error `req.json()` threw), the two
 * environment variables and the outcome of the one upstream call are its inputs; the HTTP
 * status, the envelope and the request it forwarded (if any) are its output.
 */
module Relay {
  import opened Wrappers
  import opened Strings
  import opened JsValue
  import UriComponent

  const UpstreamErrorText := "Upstream error"
  const UnknownError := "Unknown error"
  const UwSuffix := "@uw.edu"

  /** What a `throw` carried: an `Error` instance with its message, or any other value. */
  datatype Thrown = ErrorInstance(message: string) | OtherValue

  /** The result of `await req.json()`. */
  datatype Request = Body(value: Value) | BodyThrew(err: Thrown)

  /** `APPS_SCRIPT_URL` and `APPS_SCRIPT_API_KEY`; None when the variable is unset. */
  datatype Env = Env(url: Option<string>, apiKey: Option<string>)

  /** The one upstream call: `fetch` and `res.text()` either threw, or gave a response whose
      text does or does not parse as JSON. */
  datatype Upstream =
    | FetchThrew(err: Thrown)
    | Response(ok: bool, status: int, text: string, parsed: Option<Value>)

  /** The body forwarded upstream, with the form's field names mapped to the processor's. */
  datatype Payload = Payload(
    fullName: Value, phone: Value, payerEmail: Value, numTickets: Value,
    attendeeNames: Value, agreeTerms: bool)

  /** The forwarded request: target URL, the `X-API-Key` header if any, and the payload.
      It is always a `POST` with `Content-Type: application/json` and `cache: 'no-store'`. */
  datatype Forward = Forward(url: string, apiKeyHeader: Option<string>, payload: Payload)

  /** The three validation failures, each answered with 400. */
  datatype Refusal = InvalidPayload | InvalidTicketCount | UwEmail {
    function Message(): (m: string)
      ensures m != ""
    {
      match this
      case InvalidPayload => "Invalid payload"
      case InvalidTicketCount => "Invalid ticket count"
      case UwEmail => "UW email addresses are not allowed. Please use a non-UW email."
    }
  }

  /** The three refusals carry three different texts, so the browser can tell them apart. */
  lemma RefusalMessagesDistinct(a: Refusal, b: Refusal)
    ensures a.Message() == b.Message() <==> a == b
  {
  }

  /** The JSON envelope returned to the browser. */
  datatype Envelope =
    | Refused(reason: Refusal)                         // { ok: false, error: reason.Message() }
    | Failed(error: string)                            // { ok: false, error }
    | UpstreamError(upstreamStatus: int, body: string) // { ok: false, error: 'Upstream error', status, body }
    | Simulated                                        // { ok: true, simulated: true }
    | Relayed(upstream: Value)                         // { ok: true, upstream }
  {
    /** The envelope's `ok` field. */
    predicate Ok() {
      Simulated? || Relayed?
    }

    /** The envelope's `error` field, when it has one. */
    function Error(): Option<string> {
      match this
      case Refused(reason) => Some(reason.Message())
      case Failed(error) => Some(error)
      case UpstreamError(_, _) => Some(UpstreamErrorText)
      case _ => None
    }
  }

  datatype Outcome = Outcome(status: int, envelope: Envelope, forwarded: Option<Forward>)

  /** `body || {}`. */
  function Fields(body: Value): (f: Value)
    ensures Truthy(f)
    ensures Truthy(body) ==> f == body
    ensures !Truthy(body) ==> forall name :: Prop(f, name) == Undefined
  {
    if Truthy(body) then body else Obj(map[])
  }

  /** The first check: `fullName`, `email` and `count` truthy and `attendees` an array. */
  predicate ShapeOk(f: Value)
    ensures ShapeOk(f) ==>
      f.Obj? && "fullName" in f.props && "email" in f.props && "count" in f.props
      && "attendees" in f.props
  {
    Truthy(Prop(f, "fullName")) && Truthy(Prop(f, "email")) && Truthy(Prop(f, "count"))
    && Prop(f, "attendees").Arr?
  }

  /** The second check: `count` is a number in [1, 10]. */
  predicate TicketCountOk(f: Value)
    ensures TicketCountOk(f) ==> f.Obj? && "count" in f.props && f.props["count"].Num?
  {
    var count := Prop(f, "count");
    count.Num? && 1 <= count.n <= 10
  }

  /** The third check: a string `email` whose trimmed, lower-cased form ends with `@uw.edu`. */
  predicate IsUwEmail(f: Value)
    ensures IsUwEmail(f) ==>
      f.Obj? && "email" in f.props && f.props["email"].Str?
      && |f.props["email"].s| >= |UwSuffix|
  {
    var email := Prop(f, "email");
    email.Str? && EndsWith(ToLower(Trim(email.s)), UwSuffix)
  }

  /** A configured environment variable: set and not the empty string. */
  predicate Configured(v: Option<string>)
    ensures Configured(v) <==> v != None && v != Some("")
  {
    v.Some? && v.value != ""
  }

  /** The renamed payload; only `agreeTerms` is converted, to a boolean. */
  function BuildPayload(f: Value): (p: Payload)
    ensures p.fullName == Prop(f, "fullName") && p.phone == Prop(f, "phone")
    ensures p.payerEmail == Prop(f, "email") && p.numTickets == Prop(f, "count")
    ensures p.attendeeNames == Prop(f, "attendees")
    ensures p.agreeTerms <==> Truthy(Prop(f, "agreeTerms"))
  {
    Payload(Prop(f, "fullName"), Prop(f, "phone"), Prop(f, "email"), Prop(f, "count"),
            Prop(f, "attendees"), Truthy(Prop(f, "agreeTerms")))
  }

  /** The upstream URL: the key, when set, appended as the query parameter `key`. */
  function KeyedUrl(base: string, key: Option<string>): (url: string)
    ensures !Configured(key) ==> url == base
    ensures Configured(key) ==> |base| + 5 <= |url| && url[..|base|] == base
  {
    if Configured(key) then
      base + (if '?' in base then "&" else "?") + "key=" + UriComponent.EncodeURIComponent(key.value)
    else base
  }

  /** `err instanceof Error ? err.message : 'Unknown error'`. */
  function MessageOf(err: Thrown): (m: string)
    ensures err.ErrorInstance? ==> m == err.message
    ensures err.OtherValue? ==> m == UnknownError
  {
    match err
    case ErrorInstance(m) => m
    case OtherValue => UnknownError
  }

  /** The envelope for the upstream's answer (or for the error its call threw). */
  function MapUpstream(u: Upstream): (r: (int, Envelope))
    ensures StatusMatches(r.0, r.1)
  {
    match u
    case FetchThrew(err) => (500, Failed(MessageOf(err)))
    case Response(ok, status, text, parsed) =>
      if !ok then (502, UpstreamError(status, text))
      else match parsed
        case Some(data) => (200, Relayed(data))
        case None => (200, Relayed(Str(text)))
  }

  /** The HTTP status agrees with the envelope: 200 exactly for `ok: true`, 400 for a refusal,
      500 for a thrown error, 502 for an upstream failure. */
  predicate StatusMatches(status: int, e: Envelope) {
    (status == 200 <==> e.Ok()) && (status == 400 <==> e.Refused?)
    && (status == 500 <==> e.Failed?) && (status == 502 <==> e.UpstreamError?)
  }

  /** The validation chain: the first check that fails, if any. */
  function Validate(f: Value): (r: Option<Refusal>)
    ensures r == None <==> Accepted(f)
  {
    if !ShapeOk(f) then Some(InvalidPayload)
    else if !TicketCountOk(f) then Some(InvalidTicketCount)
    else if IsUwEmail(f) then Some(UwEmail)
    else None
  }

  /** The whole handler. */
  function Post(req: Request, env: Env, upstream: Upstream): (r: Outcome)
    ensures StatusMatches(r.status, r.envelope)
    ensures r.forwarded.Some? ==> !r.envelope.Refused? && !r.envelope.Simulated?
  {
    match req
    case BodyThrew(err) => Outcome(500, Failed(MessageOf(err)), None)
    case Body(body) =>
      var f := Fields(body);
      match Validate(f)
      case Some(reason) => Outcome(400, Refused(reason), None)
      case None =>
      if !Configured(env.url) then Outcome(200, Simulated, None)
      else
        var fwd := Forward(KeyedUrl(env.url.value, env.apiKey),
                           if Configured(env.apiKey) then Some(env.apiKey.value) else None,
                           BuildPayload(f));
        var (status, envelope) := MapUpstream(upstream);
        Outcome(status, envelope, Some(fwd))
  }

  /** The three checks, in order, all pass. */
  predicate Accepted(f: Value) {
    ShapeOk(f) && TicketCountOk(f) && !IsUwEmail(f)
  }

  /** A body with a falsy `fullName`, `email` or `count`, or without an `attendees` array, is
      refused as an invalid payload; and that is the only way to get that answer. */
  lemma InvalidPayloadIff(body: Value, env: Env, u: Upstream)
    ensures Post(Body(body), env, u).envelope == Refused(InvalidPayload) <==> !ShapeOk(Fields(body))
  {
  }

  /** A count of 0 fails the first check, so the answer is "Invalid payload", never
      "Invalid ticket count". */
  lemma ZeroCountIsInvalidPayload(body: Value, env: Env, u: Upstream)
    requires Prop(Fields(body), "count") == Num(0)
    ensures Post(Body(body), env, u) == Outcome(400, Refused(InvalidPayload), None)
  {
  }

  /** A well-shaped body whose count is not a number in [1, 10] gets "Invalid ticket count";
      nothing else does. */
  lemma InvalidTicketCountIff(body: Value, env: Env, u: Upstream)
    ensures Post(Body(body), env, u).envelope == Refused(InvalidTicketCount)
      <==> ShapeOk(Fields(body)) && !TicketCountOk(Fields(body))
  {
  }

  /** The UW rejection fires exactly for bodies that pass the first two checks and carry a
      string email ending in `@uw.edu` once trimmed and lower-cased. */
  lemma UwEmailIff(body: Value, env: Env, u: Upstream)
    ensures Post(Body(body), env, u).envelope == Refused(UwEmail)
      <==> ShapeOk(Fields(body)) && TicketCountOk(Fields(body)) && IsUwEmail(Fields(body))
  {
  }

  /** The UW check ignores case and whitespace around the address: any email of the form
      `x + pad` where `pad` is whitespace and `x` ends in `@uw.edu` in any mix of cases. */
  lemma UwEmailAnyCaseOrPadding(x: string, pad: string)
    requires EndsWith(ToLower(x), UwSuffix) && AllWhitespace(pad)
    ensures EndsWith(ToLower(Trim(x + pad)), UwSuffix)
  {
    UwTail(x);
    TrimKeepsTail(x, pad, 7);
    LowerEndsWith(Trim(x + pad), x[|x| - 7..], UwSuffix);
  }

  /** An address ending in `@uw.edu` in any case: its last seven characters lower-case to
      `@uw.edu`, and the first and last of them are not whitespace. */
  lemma UwTail(x: string)
    requires EndsWith(ToLower(x), UwSuffix)
    ensures |x| >= 7 && ToLower(x[|x| - 7..]) == UwSuffix
    ensures !IsWhitespace(x[|x| - 7]) && !IsWhitespace(x[|x| - 1])
  {
    var n := |x|;
    var lx := ToLower(x);
    assert lx[n - 7..] == UwSuffix;
    assert lx[n - 7] == '@' && lx[n - 1] == 'u';
    assert x[n - 7] == '@';
    assert x[n - 1] == 'u' || x[n - 1] == 'U';
    ToLowerTail(x, 7);
  }

  /** Lower-casing a string that ends with `tail` gives one that ends with `tail` lower-cased. */
  lemma LowerEndsWith(t: string, tail: string, suffix: string)
    requires EndsWith(t, tail) && ToLower(tail) == suffix
    ensures EndsWith(ToLower(t), suffix)
  {
    ToLowerTail(t, |tail|);
  }

  /** Whatever case or surrounding whitespace, a UW address that passes the first two checks
      is refused with 400. */
  lemma UwEmailRejected(body: Value, x: string, pad: string, env: Env, u: Upstream)
    requires ShapeOk(Fields(body)) && TicketCountOk(Fields(body))
    requires Prop(Fields(body), "email") == Str(x + pad)
    requires EndsWith(ToLower(x), UwSuffix) && AllWhitespace(pad)
    ensures Post(Body(body), env, u) == Outcome(400, Refused(UwEmail), None)
  {
    UwEmailAnyCaseOrPadding(x, pad);
  }

  /** With no upstream URL, every accepted body gets `{ ok: true, simulated: true }` and
      nothing is forwarded; a forward happens exactly when a body is accepted and a URL set. */
  lemma SimulatedWithoutUrl(req: Request, env: Env, u: Upstream)
    ensures req.Body? && Accepted(Fields(req.value)) && !Configured(env.url)
      ==> Post(req, env, u) == Outcome(200, Simulated, None)
    ensures var r := Post(req, env, u);
      r.forwarded.Some? <==> req.Body? && Accepted(Fields(req.value)) && Configured(env.url)
  {
  }

  /** What is forwarded: the renamed payload, to the keyed URL, with the key header exactly
      when a key is set; and the envelope is the one for the upstream's answer. */
  lemma ForwardedRequest(body: Value, env: Env, u: Upstream)
    requires Accepted(Fields(body)) && Configured(env.url)
    ensures var r := Post(Body(body), env, u);
      r.forwarded == Some(Forward(KeyedUrl(env.url.value, env.apiKey),
                                  if Configured(env.apiKey) then env.apiKey else None,
                                  BuildPayload(Fields(body))))
      && (r.status, r.envelope) == MapUpstream(u)
    ensures var r := Post(Body(body), env, u);
      r.forwarded.value.apiKeyHeader.Some? <==> Configured(env.apiKey)
  {
  }

  /** The keyed URL keeps the base as a prefix, adds `?` or `&` depending on whether the base
      already has a query, and its `key` parameter is the percent-encoded key, which decodes
      back to the key and cannot contain `&` or `#`. */
  lemma KeyedUrlParameter(base: string, key: string)
    requires key != ""
    ensures var url := KeyedUrl(base, Some(key));
      var sep := url[|base|];
      url[..|base|] == base
      && (sep == '&' <==> '?' in base) && (sep == '?' <==> '?' !in base)
      && url[|base| + 1..|base| + 5] == "key="
      && UriComponent.Decode(url[|base| + 5..]) == Some(key)
      && '&' !in url[|base| + 5..] && '#' !in url[|base| + 5..]
  {
    var enc := UriComponent.EncodeURIComponent(key);
    var sep := if '?' in base then "&" else "?";
    var url := KeyedUrl(base, Some(key));
    assert url == base + sep + "key=" + enc;
    assert url[|base|] == sep[0];
    assert url[|base| + 1..|base| + 5] == "key=";
    assert url[|base| + 5..] == enc;
    UriComponent.DecodeEncode(key);
    UriComponent.EncodedHasNoDelimiters(key);
  }

  /** A non-ok upstream answer yields 502 with the upstream status and text verbatim; an ok one
      yields its parsed JSON, or its text when that is not JSON; a thrown error yields 500 with
      its message, or "Unknown error" when what was thrown is not an `Error`. */
  lemma UpstreamMapping(u: Upstream)
    ensures u.Response? && !u.ok ==> MapUpstream(u) == (502, UpstreamError(u.status, u.text))
    ensures u.Response? && u.ok && u.parsed.Some? ==> MapUpstream(u) == (200, Relayed(u.parsed.value))
    ensures u.Response? && u.ok && u.parsed.None? ==> MapUpstream(u) == (200, Relayed(Str(u.text)))
    ensures u.FetchThrew? ==>
      MapUpstream(u) == (500, Failed(if u.err.ErrorInstance? then u.err.message else UnknownError))
  {
  }

  /** A body `req.json()` could not parse gets 500 with the parse error's message. */
  lemma UnparsableBody(err: Thrown, env: Env, u: Upstream)
    ensures Post(BodyThrew(err), env, u) == Outcome(500, Failed(MessageOf(err)), None)
  {
  }
}
