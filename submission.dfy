/**
 * The form and the relay together: the body the submit button posts, as the relay receives
 * it after `JSON.stringify` and `req.json()`, and the client's reaction to the reply.
 */
module Submission {
  import opened Wrappers
  import opened Strings
  import opened Patterns
  import opened JsValue
  import opened Booking
  import opened Relay

  /** An attendee entry after a JSON round trip: holes and `undefined` become `null`. */
  function SlotJson(slot: Slot): (v: Value)
    ensures v == Null || v.Str?
  {
    match slot
    case Name(text) => Str(text)
    case _ => Null
  }

  /** The posted body as the relay parses it. */
  function ToJson(b: SubmitBody): (v: Value)
    ensures Prop(v, "fullName") == Str(b.fullName) && Prop(v, "email") == Str(b.email)
    ensures Prop(v, "count") == Num(b.count) && Prop(v, "attendees").Arr?
    ensures Prop(v, "phone") == Str(b.phone)
    ensures Prop(v, "consentPhoto") == Bool(b.consentPhoto)
    ensures Prop(v, "agreeTerms") == Bool(b.agreeTerms)
    ensures |Prop(v, "attendees").items| == |b.attendees|
    ensures forall k :: 0 <= k < |b.attendees| ==> Prop(v, "attendees").items[k] == SlotJson(b.attendees[k])
  {
    Obj(map[
      "fullName" := Str(b.fullName),
      "phone" := Str(b.phone),
      "email" := Str(b.email),
      "count" := Num(b.count),
      "attendees" := Arr(seq(|b.attendees|, k requires 0 <= k < |b.attendees| => SlotJson(b.attendees[k]))),
      "consentPhoto" := Bool(b.consentPhoto),
      "agreeTerms" := Bool(b.agreeTerms)])
  }

  /** What the relay receives when the form in state `st` is submitted. */
  function Posted(st: FormState): Request {
    Body(ToJson(BodyOf(st)))
  }

  /** A body the client-side gate lets through passes the relay's first two checks: the name
      and email are non-empty strings, the count is a number in [1, 10], the attendees an array. */
  lemma GatePassesShapeChecks(st: FormState)
    requires CanSubmit(st) == Ok(true)
    ensures ShapeOk(Fields(ToJson(BodyOf(st)))) && TicketCountOk(Fields(ToJson(BodyOf(st))))
  {
    CanSubmitUnfold(st);
    var e := Trim(st.email);
    assert |e| > 0 by {
      var i, j :| 0 <= i < j < |e| && EmailShapeAt(e, i, j);
    }
    BodyPassesShapeChecks(BodyOf(st));
  }

  /** A posted body with a non-empty name and email and a count in [1, 10] passes the
      relay's first two checks. */
  lemma BodyPassesShapeChecks(b: SubmitBody)
    requires b.fullName != [] && b.email != [] && 1 <= b.count <= 10
    ensures ShapeOk(Fields(ToJson(b))) && TicketCountOk(Fields(ToJson(b)))
  {
    var v := ToJson(b);
    assert Fields(v) == v;
  }

  /** So the relay never answers such a submission with "Invalid payload" or "Invalid ticket
      count"; only the UW rule, the upstream or a thrown error can refuse it. */
  lemma GatedSubmissionNotMalformed(st: FormState, env: Env, u: Upstream)
    requires CanSubmit(st) == Ok(true)
    ensures Post(Posted(st), env, u).envelope != Refused(InvalidPayload)
    ensures Post(Posted(st), env, u).envelope != Refused(InvalidTicketCount)
  {
    var body := ToJson(BodyOf(st));
    GatePassesShapeChecks(st);
    InvalidPayloadIff(body, env, u);
    InvalidTicketCountIff(body, env, u);
  }

  /** The form has no UW check of its own: a gated submission whose address ends in `@uw.edu`
      (in any case, with any surrounding whitespace) reaches the relay and is refused with 400. */
  lemma GatedUwEmailRefused(st: FormState, env: Env, u: Upstream)
    requires CanSubmit(st) == Ok(true) && EndsWith(ToLower(Trim(st.email)), UwSuffix)
    ensures Post(Posted(st), env, u) == Outcome(400, Refused(UwEmail), None)
  {
    GatePassesShapeChecks(st);
  }

  lemma ExampleName(n: string)
    requires n == "Al"
    ensures Utf16Length(Trim(n)) > 1
  {
    TrimUnpadded(n);
  }

  lemma ExamplePhone(p: string)
    requires p == "5555555"
    ensures PhoneOk(Trim(p))
  {
    TrimUnpadded(p);
    assert PhoneRunAt(p, 0);
  }

  lemma ExampleEmail(e: string)
    requires e == "a@uw.edu"
    ensures EmailOk(Trim(e)) && EndsWith(ToLower(Trim(e)), UwSuffix)
  {
    TrimUnpadded(e);
    assert EmailShapeAt(e, 1, 4);
    assert ToLower(e) == e;
  }

  lemma ExampleCount(c: string)
    requires c == "1"
    ensures Count(c) == 1
  {
    assert DecimalString(1) == c;
    ParseDecimalString(1);
  }

  /** The gate admits a UW address, which the relay then refuses: for instance the state
      with name "Al", phone "5555555", email "a@uw.edu", count "1", one attendee "Al" and
      both boxes ticked. */
  lemma UwEmailPassesGateOnly(st: FormState, env: Env, u: Upstream)
    requires st.fullName == "Al" && st.phone == "5555555" && st.email == "a@uw.edu"
    requires st.countInput == "1" && st.attendees == [Name(st.fullName)]
    requires st.consentPhoto && st.agreeTerms
    ensures CanSubmit(st) == Ok(true)
    ensures Post(Posted(st), env, u) == Outcome(400, Refused(UwEmail), None)
  {
    ExampleGate(st);
    ExampleEmail(st.email);
    GatedUwEmailRefused(st, env, u);
  }

  lemma ExampleGate(st: FormState)
    requires st.fullName == "Al" && st.phone == "5555555" && st.email == "a@uw.edu"
    requires st.countInput == "1" && st.attendees == [Name(st.fullName)]
    requires st.consentPhoto && st.agreeTerms
    ensures CanSubmit(st) == Ok(true)
  {
    ExampleName(st.fullName);
    ExamplePhone(st.phone);
    ExampleEmail(st.email);
    ExampleCount(st.countInput);
    GateForOneAttendee(st);
  }

  /** With a count of 1 and the name repeated as the only attendee, the gate reduces to the
      name, phone, email and consent conditions. */
  lemma GateForOneAttendee(st: FormState)
    requires Count(st.countInput) == 1 && st.attendees == [Name(st.fullName)]
    ensures CanSubmit(st) == Ok(true) <==>
      Utf16Length(Trim(st.fullName)) > 1 && PhoneOk(Trim(st.phone)) && EmailOk(Trim(st.email))
      && st.consentPhoto && st.agreeTerms
  {
    assert Inspected(st) == [Name(st.fullName)] by {
      assert st.attendees[..1] == st.attendees;
    }
    EveryOneName(st.fullName);
    CanSubmitUnfold(st);
  }

  /** A single attendee name passes the scan exactly when it is longer than one code unit
      once trimmed. */
  lemma EveryOneName(name: string)
    ensures Every([Name(name)]) == Ok(true) <==> Utf16Length(Trim(name)) > 1
  {
    assert [Name(name)][0] == Name(name);
  }

  /** The client's reaction to the relay's reply. */
  datatype Reaction = Alert | Confirmation

  /** `if (!res.ok || !data?.ok) alert(...)`, else the confirmation overlay. */
  function React(status: int, envelope: Envelope): (r: Reaction)
    ensures r == Confirmation <==> 200 <= status < 300 && envelope.Ok()
  {
    if !(200 <= status < 300) || !envelope.Ok() then Alert else Confirmation
  }

  /** The client confirms exactly the replies whose envelope says `ok: true`. */
  lemma ConfirmedIffOk(req: Request, env: Env, u: Upstream)
    ensures var r := Post(req, env, u);
      React(r.status, r.envelope) == Confirmation <==> r.envelope.Ok()
  {
  }

  /** With no upstream configured, a gated submission with a non-UW address is confirmed. */
  lemma GatedSubmissionConfirmedOffline(st: FormState, env: Env, u: Upstream)
    requires CanSubmit(st) == Ok(true) && !Configured(env.url)
    requires !IsUwEmail(Fields(ToJson(BodyOf(st))))
    ensures Post(Posted(st), env, u) == Outcome(200, Simulated, None)
    ensures React(200, Simulated) == Confirmation
  {
    GatePassesShapeChecks(st);
  }
}
