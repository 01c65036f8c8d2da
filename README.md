# Booking form and submission relay, modelled in Dafny

This project models the two pieces of logic in the event-registration site that decide
anything:

- **The booking form** (`web/src/components/Form.tsx`). The `BookingForm` component holds
  seven pieces of state: full name, phone, email, the text of the count field, the attendee
  names, and two consent boxes. From these it derives a ticket `count` clamped to [1, 10] and
  the `canSubmit` gate. When the count field loses focus, `normalizeCountAndAttendees` clamps
  the count, rewrites the field and resizes the attendee list. Typing into attendee input `i`
  replaces entry `i`. The submit button does nothing unless the gate holds.
- **The relay** (`web/src/app/api/submit/route.ts`). `POST /api/submit` runs three checks
  with early returns ("Invalid payload", "Invalid ticket count", UW address). It simulates
  success when no upstream URL is configured. Otherwise it forwards a renamed payload to the
  configured form processor, adding the API key as a query parameter and a header, and maps
  the processor's answer to a `{ ok, ... }` envelope with the HTTP status.

Modules, one per concern:

| file | module | what |
|---|---|---|
| `wrappers.dfy` | `Wrappers` | `Option`, and `Result` for a computation that may throw |
| `strings.dfy` | `Strings` | `trim` over ECMAScript's whitespace and line terminators, ASCII `toLowerCase`, `endsWith`, `String(n)`, `Number(s)` for integer literals |
| `patterns.dfy` | `Patterns` | the phone and email regular expressions: the literal meaning of the unanchored `test` and an equivalent direct check |
| `uri_component.dfy` | `UriComponent` | `encodeURIComponent` (UTF-8, percent-encoding per section 2.1 of RFC 3986) and a decoder |
| `js_value.dfy` | `JsValue` | JavaScript values a parsed JSON body holds, truthiness, property reads |
| `booking.dfy` | `Booking` | Form.tsx: the pure gate, the normalisation and edit functions, and the `BookingForm` class |
| `relay.dfy` | `Relay` | route.ts: the handler as a pure function `Post` |
| `submission.dfy` | `Submission` | the two together: what the form posts, and how the client reacts |

The relay's effects are inputs. `Post(req, env, upstream)` takes three of them. `req` is what
`req.json()` produced, or what it threw. `env` holds the two environment variables.
`upstream` is the outcome of the single `fetch`: a thrown error, or `ok`, the status, the
text, and whether the text parsed as JSON. `Post` returns the status, the envelope and the
forwarded request (none when nothing is forwarded).

The attendee list is a JavaScript array and may be sparse, and the model keeps that. Writing
past the end (`arr[i] = v`) leaves holes. The spread `[...prev]` turns holes into `undefined`
entries. `every` skips holes, but it calls `trim` on `undefined`, and that throws. So
`CanSubmit` returns a `Result`. It throws exactly when the scan reaches an `undefined` entry
before any entry that fails.

Lengths are JavaScript's: `s.length` counts UTF-16 code units, so a character outside the
Basic Multilingual Plane (an emoji, say) counts twice. `Strings.Utf16Length` computes this,
and the name and attendee checks use it.

The form has no UW-address check of its own, and it does not copy the full name into the
only attendee field. `Submission.UwEmailPassesGateOnly` exhibits a state that passes the gate
with a UW address and that the relay refuses with 400.

## Model

| member | source | states |
|---|---|---|
| `Strings.Trim` | web/src/components/Form.tsx:40 | the trimmed string has no whitespace at either end, is no longer than the input, and is empty exactly when the input is all whitespace |
| `Strings.TrimStart` | web/src/components/Form.tsx:40 | leading-whitespace removal: the result is a suffix of the input that is empty or starts with a non-whitespace character |
| `Strings.TrimStartStrips` | web/src/components/Form.tsx:40 | everything leading-whitespace removal drops is whitespace |
| `Strings.TrimEnd` | web/src/components/Form.tsx:40 | trailing-whitespace removal: the result is a prefix of the input, everything removed is whitespace, and it ends with a non-whitespace character |
| `Strings.TrimPadded` | web/src/app/api/submit/route.ts:25 | trimming whitespace-padded text with non-whitespace ends gives back exactly that text |
| `Strings.TrimIdempotent` | web/src/components/Form.tsx:40 | trimming twice is the same as trimming once |
| `Strings.TrimKeepsTail` | web/src/app/api/submit/route.ts:25 | trimming `x + pad` keeps the tail of `x` from a non-whitespace character to its non-whitespace end |
| `Strings.ToLower` | web/src/app/api/submit/route.ts:25 | lower-casing keeps the length, leaves no ASCII capital, and keeps every character that is not one |
| `Strings.ToLowerIdempotent` | web/src/app/api/submit/route.ts:25 | lower-casing twice is lower-casing once |
| `Strings.EndsWithSplit` | web/src/app/api/submit/route.ts:25 | a string for which `endsWith(suffix)` holds is a prefix followed by `suffix` |
| `Strings.EndsWithAppend` | web/src/app/api/submit/route.ts:25 | any string followed by `suffix` satisfies `endsWith(suffix)` |
| `Strings.Utf16Length` | web/src/components/Form.tsx:40 | `s.length` lies between the number of characters and twice it, and equals it when every character is in the Basic Multilingual Plane |
| `Strings.Utf16LengthAstral` | web/src/components/Form.tsx:40 | one character outside the Basic Multilingual Plane has length 2, so a one-emoji name passes the `> 1` test |
| `Strings.DecimalString` | web/src/components/Form.tsx:51 | `String(n)` is a non-empty string of decimal digits |
| `Strings.ParseNumber` | web/src/components/Form.tsx:34 | `Number(s)` of an all-whitespace string (including the empty one) is 0 |
| `Strings.ParseDecimalString` | web/src/components/Form.tsx:51 | `Number(String(n)) == n`: the text normalisation writes into the count field reads back as the same count |
| `Patterns.PhoneOkIsRegexTest` | web/src/components/Form.tsx:41 | the phone check holds iff some substring matches `\+?\d[\d\s-]{6,}`, that is a digit followed by six or more digits, whitespace or dashes |
| `Patterns.EmailOkIsRegexTest` | web/src/components/Form.tsx:42 | the email check holds iff some substring matches `.+@.+\..+` with no line terminator inside the match |
| `Patterns.PhoneOk` | web/src/components/Form.tsx:41 | a phone the check accepts has at least seven characters |
| `Patterns.EmailOk` | web/src/components/Form.tsx:42 | an email the check accepts has at least five characters, among them an `@` and a `.` |
| `UriComponent.EncodeURIComponent` | web/src/app/api/submit/route.ts:47 | the encoded key holds only unreserved characters, `%` and hex digits, and is at least as long as the key |
| `UriComponent.DecodeEncode` | web/src/app/api/submit/route.ts:47 | decoding the encoded key gives back the key, so distinct keys give distinct parameters |
| `UriComponent.DecodeOneEncodeChar` | web/src/app/api/submit/route.ts:47 | each character's percent-encoded UTF-8 form (one to four bytes) decodes back to that character, whatever follows |
| `UriComponent.EncodedHasNoDelimiters` | web/src/app/api/submit/route.ts:47 | an encoded key contains no `&`, `=`, `#`, `?` or `/` |
| `JsValue.Prop` | web/src/app/api/submit/route.ts:6-13 | destructuring yields the property's value when the body is an object that has it, and `undefined` otherwise |
| `JsValue.Truthy` | web/src/app/api/submit/route.ts:15 | `!v` holds exactly for `undefined`, `null`, `false`, `0` and `''`; `!!agreeTerms` at route.ts:43 is this test's result |
| `Booking.Clamp` | web/src/components/Form.tsx:34 | `Math.max(1, Math.min(10, n))` lies in [1, 10], is `n` inside the range and the nearer bound outside it; the same clamp is at Form.tsx:50 |
| `Booking.Count` | web/src/components/Form.tsx:34 | the derived count is in [1, 10]: 1 when the field is not a number or is 0, the typed value when that is in range, 10 above the range and 1 below it |
| `Booking.NormalizedCount` | web/src/components/Form.tsx:50 | the normalised count is in [1, 10]: 1 for `NaN` and 0, `v` itself when `v` is in range, 10 above the range and 1 below it |
| `Booking.NormalizedCountAgrees` | web/src/components/Form.tsx:207 | normalising with the number typed in the count field gives the derived count |
| `Booking.Spread` | web/src/components/Form.tsx:53 | the spread copy has the same length and no holes; each hole becomes `undefined` and every other entry is kept |
| `Booking.Resized` | web/src/components/Form.tsx:52-56 | the resized list has exactly `n` entries; the first `min(old length, n)` are the old ones (holes read as `undefined`); every appended entry is `''`; none is a hole |
| `Booking.Normalized` | web/src/components/Form.tsx:49-57 | normalising changes only the count field and the attendee list; the field reads back as the clamped value, which is the list's new length |
| `Booking.NormalizeTracksCount` | web/src/components/Form.tsx:49-57 | after normalising, the count field reads back as the clamped value, which is both the derived count and the attendee list's length |
| `Booking.NormalizeIdempotent` | web/src/components/Form.tsx:49-57 | normalising twice with the same value leaves the same state as normalising once |
| `Booking.Edited` | web/src/components/Form.tsx:125-128 | the edit puts the text at index `i` and keeps every other existing entry; writing past the end leaves holes between the old end and `i` |
| `Booking.AttendeeOk` | web/src/components/Form.tsx:44 | an entry the callback accepts is never `undefined`, and a name it accepts has at least one non-whitespace character |
| `Booking.AstralNameAccepted` | web/src/components/Form.tsx:44 | an attendee name of one character outside the Basic Multilingual Plane passes, as its `length` is 2 |
| `Booking.Inspected` | web/src/components/Form.tsx:44 | `slice(0, count)` keeps the first `min(count, length)` entries unchanged |
| `Booking.Every` | web/src/components/Form.tsx:44 | `every` yields true iff each entry is a hole or a name longer than one UTF-16 code unit once trimmed; it throws, with the `trim` TypeError message, iff an `undefined` entry comes before any failing entry |
| `Booking.EveryInspected` | web/src/components/Form.tsx:44 | scanning `attendees.slice(0, count)` succeeds iff each of the first `count` entries passes |
| `Booking.CanSubmit` | web/src/components/Form.tsx:39-47 | when the gate throws, it throws the `trim` TypeError; when it is true, the name, phone and email are non-empty and both boxes are ticked |
| `Booking.CanSubmitIff` | web/src/components/Form.tsx:39-47 | the gate is true iff: trimmed name longer than one UTF-16 code unit; the phone and email regular expressions match the trimmed fields; count in [1, 10]; each of the first `count` attendees a hole or a trimmed name longer than one code unit; both boxes ticked |
| `Booking.CanSubmitThrowsIff` | web/src/components/Form.tsx:44 | the gate throws exactly when the attendee scan reaches an `undefined` entry |
| `Booking.BookingForm.constructor` | web/src/components/Form.tsx:29-37 | a new form has empty fields, count text "1", one empty attendee name and both boxes unticked |
| `Booking.BookingForm.SetFullName` | web/src/components/Form.tsx:67 | typing the name changes the name and nothing else |
| `Booking.BookingForm.SetPhone` | web/src/components/Form.tsx:80 | typing the phone changes the phone and nothing else |
| `Booking.BookingForm.SetEmail` | web/src/components/Form.tsx:93 | typing the email changes the email and nothing else |
| `Booking.BookingForm.SetCountInput` | web/src/components/Form.tsx:108 | typing in the count field changes only its text; the list is resized only on blur |
| `Booking.BookingForm.SetConsentPhoto` | web/src/components/Form.tsx:146 | ticking the photo box changes that box and nothing else |
| `Booking.BookingForm.SetAgreeTerms` | web/src/components/Form.tsx:157 | ticking the terms box changes that box and nothing else |
| `Booking.BookingForm.NormalizeCountAndAttendees` | web/src/components/Form.tsx:49-57 | the new state is the normalised old state: count text set to the clamped value, list resized to it, every other field unchanged; the list's length equals the derived count |
| `Booking.BookingForm.EditAttendee` | web/src/components/Form.tsx:125-128 | only the attendee list changes, and it becomes the edited list: index `i` replaced, other entries kept |
| `Booking.BodyOf` | web/src/components/Form.tsx:212-220 | the posted body carries the render's name, phone, email, attendee list and boxes unchanged, and a count in [1, 10] equal to the number of entries the click's normalisation leaves |
| `Booking.BookingForm.Submit` | web/src/components/Form.tsx:204-221 | when the gate is not true nothing is sent and nothing changes; otherwise the form normalises with the typed count and posts the field values of the state the click was handled in |
| `Booking.SubmitNormalizesToCount` | web/src/components/Form.tsx:207 | normalising on submit keeps the derived count and leaves exactly that many attendee entries |
| `Relay.BuildPayload` | web/src/app/api/submit/route.ts:37-44 | `fullName` and `phone` are copied; `email`, `count` and `attendees` become `payerEmail`, `numTickets` and `attendeeNames` unchanged; `agreeTerms` is coerced to its truthiness |
| `Relay.Fields` | web/src/app/api/submit/route.ts:13 | the body, or an empty object in its place, is truthy; it is the body when the body is truthy, and otherwise has no properties |
| `Relay.ShapeOk` | web/src/app/api/submit/route.ts:15 | a body that passes the first check is an object with `fullName`, `email`, `count` and `attendees` |
| `Relay.TicketCountOk` | web/src/app/api/submit/route.ts:20 | a body that passes the count check is an object whose `count` is a number |
| `Relay.IsUwEmail` | web/src/app/api/submit/route.ts:25 | a body the UW check catches is an object whose `email` is a string at least as long as `@uw.edu` |
| `Relay.MessageOf` | web/src/app/api/submit/route.ts:75 | an `Error` gives its message; any other thrown value gives "Unknown error" |
| `Relay.UwTail` | web/src/app/api/submit/route.ts:25 | an address ending in `@uw.edu` in any case has a last seven characters that lower-case to `@uw.edu`, with no whitespace at either end of them |
| `Relay.Configured` | web/src/app/api/submit/route.ts:33 | a variable counts as set exactly when it is present and not `''`, as `!APPS_SCRIPT_URL` and the key tests at route.ts:46 and :54 read it |
| `Relay.Refusal.Message` | web/src/app/api/submit/route.ts:16-26 | each of the three refusals carries its own non-empty error text |
| `Relay.RefusalMessagesDistinct` | web/src/app/api/submit/route.ts:16-26 | two refusals carry the same text exactly when they are the same refusal |
| `Relay.KeyedUrl` | web/src/app/api/submit/route.ts:46-48 | with no key (unset or empty) the URL is the base; with a key, the base is a prefix of a longer URL |
| `Relay.MapUpstream` | web/src/app/api/submit/route.ts:63-77 | the status agrees with the envelope: 200 exactly for `ok: true`, 502 for an upstream failure, 500 for a thrown error |
| `Relay.Validate` | web/src/app/api/submit/route.ts:15-27 | the validation chain finds no refusal exactly when all three checks pass |
| `Relay.Post` | web/src/app/api/submit/route.ts:3-78 | the status agrees with the envelope (200 iff `ok`, 400 iff a refusal, 500 iff a thrown error, 502 iff an upstream failure); a request is forwarded only when the answer is neither a refusal nor simulated |
| `Relay.InvalidPayloadIff` | web/src/app/api/submit/route.ts:15-17 | the answer is "Invalid payload" iff `fullName`, `email` or `count` is falsy or `attendees` is not an array |
| `Relay.ZeroCountIsInvalidPayload` | web/src/app/api/submit/route.ts:15-22 | a count of 0 gets "Invalid payload" with 400, because the first check runs before the count check |
| `Relay.InvalidTicketCountIff` | web/src/app/api/submit/route.ts:20-22 | the answer is "Invalid ticket count" iff the first check passes and `count` is not a number in [1, 10] |
| `Relay.UwEmailIff` | web/src/app/api/submit/route.ts:25-27 | the UW refusal fires iff the first two checks pass and the email is a string whose trimmed, lower-cased form ends with `@uw.edu` |
| `Relay.UwEmailAnyCaseOrPadding` | web/src/app/api/submit/route.ts:25 | an address ending in `@uw.edu` in any mix of cases, followed by any whitespace, is caught by the UW check |
| `Relay.UwEmailRejected` | web/src/app/api/submit/route.ts:25-27 | such an address, in a body that passes the first two checks, gets 400 and nothing is forwarded |
| `Relay.SimulatedWithoutUrl` | web/src/app/api/submit/route.ts:29-35 | with no URL configured, every accepted body gets 200 `{ ok: true, simulated: true }` and nothing is forwarded; a forward happens iff the body is accepted and a URL is set |
| `Relay.ForwardedRequest` | web/src/app/api/submit/route.ts:37-59 | an accepted body is forwarded to the keyed URL with the renamed payload, carrying the `X-API-Key` header iff a key is set, and the answer is the mapping of the upstream outcome |
| `Relay.KeyedUrlParameter` | web/src/app/api/submit/route.ts:46-48 | the keyed URL is base, then `&` if the base has a `?` and `?` otherwise, then `key=` and the encoded key, which decodes back to the key and contains no `&` or `#` |
| `Relay.UpstreamMapping` | web/src/app/api/submit/route.ts:63-77 | a non-ok answer gives 502 with the upstream status and text verbatim; an ok one gives `upstream` set to the parsed JSON, or to the text when it does not parse; a thrown error gives 500 with its message, or "Unknown error" for a non-`Error` |
| `Relay.UnparsableBody` | web/src/app/api/submit/route.ts:4-5 | a body `req.json()` cannot parse gets 500 with the parse error's message and is not forwarded |
| `Submission.SlotJson` | web/src/components/Form.tsx:217 | after the JSON round trip an attendee entry is a string or `null` |
| `Submission.ToJson` | web/src/components/Form.tsx:212-220 | the posted body carries `fullName`, `phone` and `email` as strings, `count` as a number, both boxes as booleans, and `attendees` as an array whose every entry is the posted entry after the JSON round trip |
| `Submission.GatePassesShapeChecks` | web/src/components/Form.tsx:39-47 | a body the client-side gate lets through passes the relay's first two checks |
| `Submission.GatedSubmissionNotMalformed` | web/src/app/api/submit/route.ts:15-22 | the relay never answers a gated submission with "Invalid payload" or "Invalid ticket count" |
| `Submission.GatedUwEmailRefused` | web/src/app/api/submit/route.ts:25-27 | a gated submission with a UW address reaches the relay and is refused with 400 |
| `Submission.GateForOneAttendee` | web/src/components/Form.tsx:39-47 | with count 1 and the name as the only attendee, the gate is true iff the name, phone, email and consent conditions hold |
| `Submission.EveryOneName` | web/src/components/Form.tsx:44 | a single attendee name passes the scan iff it is longer than one UTF-16 code unit once trimmed |
| `Submission.UwEmailPassesGateOnly` | web/src/components/Form.tsx:39-47 | a concrete state with a UW address passes the gate, and the relay refuses it |
| `Submission.ConfirmedIffOk` | web/src/components/Form.tsx:222-228 | the client shows the confirmation exactly when the relay's envelope says `ok: true` |
| `Submission.React` | web/src/components/Form.tsx:222-228 | the client shows the confirmation iff the status is 2xx and the envelope says `ok: true`, and alerts otherwise |
| `Submission.GatedSubmissionConfirmedOffline` | web/src/app/api/submit/route.ts:33-35 | with no upstream configured, a gated submission with a non-UW address gets 200 `{ ok: true, simulated: true }` and is confirmed |

## Left out

- Rendering, CSS classes, animation variants, the post-submit overlay and its timers, and the
  splash screen. They have no behaviour to state.
- The network and the runtime. The `fetch` calls, `req.json()`, `res.text()`,
  `JSON.parse(text)` and `process.env` are inputs of `Relay.Post`. `JSON.stringify` and the
  relay's parse of the posted body are given by `Submission.ToJson` as a structure, not as text.
- The request's fixed parts: the `POST` method, `Content-Type: application/json` and
  `cache: 'no-store'`. They are constants and are not fields of `Relay.Forward`.
- `Strings.ParseNumber`: handles decimal integer literals only. `Number()` also reads
  fractions (`"2.5"`), exponents (`"1e1"`), `"Infinity"` and `0x`/`0o`/`0b` forms; the model
  reads all of these as `NaN`. Fractions and exponents can come from a number input.
- `Booking.Count`: counts are integers, so a fractional count such as 2.5 is not modelled.
- `Booking.NormalizedCount`: the same; its argument is an integer or `NaN`.
- `JsValue.Prop`: numbers in a parsed body are integers. The relay also lets a fractional
  count such as 2.5 through its count check; the model cannot express one.
- `Strings.ToLower`: lower-cases ASCII letters only. Full Unicode lower-casing is not
  modelled. No non-ASCII character lower-cases to one of the characters of `@uw.edu`, so the
  UW check's outcome depends only on the ASCII part.
- `Strings.IsWhitespace` is a fixed list: ECMAScript's WhiteSpace and LineTerminator code
  points, with the Unicode space separators as currently assigned.
- `UriComponent.EncodeURIComponent`: Dafny characters are Unicode scalar values, so a key with
  a lone surrogate cannot be expressed. The `URIError` that `encodeURIComponent` throws for
  one, answered with 500, is not modelled.
- React scheduling. The model takes the state of the render that handles an event and applies
  each update before the next event; how React batches state updates is not modelled. The
  stale read in the submit handler is modelled: `Booking.BookingForm.Submit` posts the values
  of the render that handled the click, not the normalised ones.
- A throwing gate. The exception escapes `useMemo` during rendering, so the form does not
  render at all. The model keeps a live form, and `Booking.BookingForm.Submit` sends nothing.
- A rejected client `fetch` (web/src/components/Form.tsx:209). The user then sees neither the
  alert nor the overlay; `Submission.React` covers only replies that arrive.
- The thrown text. `Booking.TrimOfUndefined` is the message of V8, the engine in Chrome and
  Node; other engines word the `TypeError` differently.
- The client's `alert` text and the overlay it opens are reduced to `Submission.React`'s two
  outcomes.
- `web/src/app/layout.tsx`, `web/src/app/terms/page.tsx` and `web/src/app/page.tsx` hold no
  logic and are not part of this model; neither is `web/src/components/SplashScreen.tsx`.
