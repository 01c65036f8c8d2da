/**
 * The booking form's state and its submit gate.
 *
 * The component keeps seven pieces of state; `count` and `canSubmit` are derived from them on
 * every render. `attendees` is a JavaScript array and may be sparse: writing past its end
 * leaves holes, spreading it turns holes into `undefined` entries, and `every` skips holes
 * but calls `trim` on `undefined`, which throws.
 */
module Booking {
  import opened Wrappers
  import opened Strings
  import opened Patterns

  /** One entry of the `attendees` array. */
  datatype Slot = Hole | Undefined | Name(text: string)

  /** A snapshot of the component's state. */
  datatype FormState = FormState(
    fullName: string, phone: string, email: string, countInput: string,
    attendees: seq<Slot>, consentPhoto: bool, agreeTerms: bool)

  /** The state of a freshly mounted form. */
  const Initial := FormState("", "", "", "1", [Name("")], false, false)

  const MinCount := 1
  const MaxCount := 10

  /** `Math.max(1, Math.min(10, n))`. */
  function Clamp(n: int): (r: int)
    ensures MinCount <= r <= MaxCount
    ensures MinCount <= n <= MaxCount ==> r == n
    ensures n < MinCount ==> r == MinCount
    ensures n > MaxCount ==> r == MaxCount
  {
    if n < MinCount then MinCount else if n > MaxCount then MaxCount else n
  }

  /** The derived `count`: `Number(countInput) || 0`, clamped to [1, 10]. */
  function Count(countInput: string): (c: int)
    ensures MinCount <= c <= MaxCount
    ensures ParseNumber(countInput) == None || ParseNumber(countInput) == Some(0) ==> c == 1
    ensures ParseNumber(countInput).Some? && MinCount <= ParseNumber(countInput).value <= MaxCount
      ==> c == ParseNumber(countInput).value
    ensures ParseNumber(countInput).Some? && ParseNumber(countInput).value > MaxCount ==> c == MaxCount
    ensures ParseNumber(countInput).Some? && ParseNumber(countInput).value < MinCount ==> c == MinCount
  {
    match ParseNumber(countInput)
    case None => Clamp(0)
    case Some(n) => Clamp(if n == 0 then 0 else n)
  }

  /** The count `normalizeCountAndAttendees(v)` settles on: `v || 1`, clamped to [1, 10]. */
  function NormalizedCount(v: Option<int>): (c: int)
    ensures MinCount <= c <= MaxCount
    ensures v == None || v == Some(0) ==> c == 1
    ensures v.Some? && MinCount <= v.value <= MaxCount ==> c == v.value
    ensures v.Some? && v.value > MaxCount ==> c == MaxCount
    ensures v.Some? && v.value < MinCount ==> c == MinCount
  {
    match v
    case None => Clamp(1)
    case Some(n) => Clamp(if n == 0 then 1 else n)
  }

  /** Normalising with the number typed into the count field keeps the derived count: the
      `|| 0` of the one and the `|| 1` of the other both end at 1. */
  lemma NormalizedCountAgrees(countInput: string)
    ensures NormalizedCount(ParseNumber(countInput)) == Count(countInput)
  {
  }

  /** `[...prev]`: holes read as `undefined` and are copied as such. */
  function Spread(slots: seq<Slot>): (r: seq<Slot>)
    ensures |r| == |slots|
    ensures forall k :: 0 <= k < |r| ==> r[k] == (if slots[k] == Hole then Undefined else slots[k])
    ensures forall k :: 0 <= k < |r| ==> r[k] != Hole
  {
    seq(|slots|, k requires 0 <= k < |slots| => if slots[k] == Hole then Undefined else slots[k])
  }

  /** The attendee list resized to `n` entries, padded with `''` or truncated. */
  function Resized(prev: seq<Slot>, n: nat): (r: seq<Slot>)
    ensures |r| == n
    ensures forall k :: 0 <= k < |prev| && k < n ==> r[k] == Spread(prev)[k]
    ensures forall k :: |prev| <= k < n ==> r[k] == Name("")
    ensures forall k :: 0 <= k < n ==> r[k] != Hole
  {
    var arr := Spread(prev);
    if n > |arr| then arr + seq(n - |arr|, _ => Name("")) else arr[..n]
  }

  /** `normalizeCountAndAttendees(v)` applied to a state: only the count field and the
      attendee list change; the field reads back as the clamped value, which is the list's
      new length. */
  function Normalized(st: FormState, v: Option<int>): (r: FormState)
    ensures r.(countInput := st.countInput, attendees := st.attendees) == st
    ensures ParseNumber(r.countInput) == Some(NormalizedCount(v))
    ensures |r.attendees| == NormalizedCount(v)
  {
    var c := NormalizedCount(v);
    ParseDecimalString(c);
    st.(countInput := DecimalString(c), attendees := Resized(st.attendees, c))
  }

  /** After normalising, `countInput` reads back as the clamped value, which is both the
      derived count and the length of the attendee list. */
  lemma NormalizeTracksCount(st: FormState, v: Option<int>)
    ensures var st' := Normalized(st, v);
      Count(st'.countInput) == NormalizedCount(v) == |st'.attendees|
      && ParseNumber(st'.countInput) == Some(NormalizedCount(v))
  {
    ParseDecimalString(NormalizedCount(v));
  }

  /** Normalising the same value twice changes nothing the second time. */
  lemma NormalizeIdempotent(st: FormState, v: Option<int>)
    ensures Normalized(Normalized(st, v), v) == Normalized(st, v)
  {
    var c := NormalizedCount(v);
    var once := Resized(st.attendees, c);
    var twice := Resized(once, c);
    assert forall k :: 0 <= k < c ==> twice[k] == once[k];
    assert twice == once;
  }

  /** `arr = attendees.slice(); arr[i] = text`: holes up to `i` when writing past the end. */
  function Edited(slots: seq<Slot>, i: nat, text: string): (r: seq<Slot>)
    ensures |r| == if i < |slots| then |slots| else i + 1
    ensures r[i] == Name(text)
    ensures forall k :: 0 <= k < |slots| && k != i ==> r[k] == slots[k]
    ensures forall k :: |slots| <= k < i ==> r[k] == Hole
  {
    if i < |slots| then slots[i := Name(text)]
    else slots + seq(i - |slots|, _ => Hole) + [Name(text)]
  }

  /** An attendee entry `every` accepts: a hole (skipped) or a name longer than one UTF-16 code
      unit once trimmed. */
  predicate AttendeeOk(slot: Slot)
    ensures AttendeeOk(slot) ==> slot != Undefined
    ensures AttendeeOk(slot) && slot.Name? ==> |Trim(slot.text)| >= 1
  {
    slot == Hole || (slot.Name? && Utf16Length(Trim(slot.text)) > 1)
  }

  /** A name of one character outside the Basic Multilingual Plane, such as an emoji, is two
      code units long and so passes. */
  lemma AstralNameAccepted(c: char)
    requires c as int >= 0x10000
    ensures AttendeeOk(Name([c]))
  {
    assert !IsWhitespace(c);
    TrimUnpadded([c]);
    Utf16LengthAstral(c);
  }

  /** The message V8 (Chrome, Node) gives the `TypeError`; other engines word it differently. */
  const TrimOfUndefined := "Cannot read properties of undefined (reading 'trim')"

  /** `every` reaches an `undefined` entry at `j`: all entries before it pass. */
  predicate UndefinedReachedAt(slots: seq<Slot>, j: int) {
    0 <= j < |slots| && slots[j] == Undefined && forall k :: 0 <= k < j ==> AttendeeOk(slots[k])
  }

  /** `slots.every(a => a.trim().length > 1)`: stops at the first failing entry, skips
      holes, throws on `undefined`. */
  function Every(slots: seq<Slot>): (r: Result<bool>)
    ensures r == Ok(true) <==> forall k :: 0 <= k < |slots| ==> AttendeeOk(slots[k])
    ensures r.Throws? <==> exists j :: UndefinedReachedAt(slots, j)
    ensures r.Throws? ==> r == Throws(TrimOfUndefined)
  {
    if slots == [] then Ok(true)
    else if slots[0] == Undefined then
      assert UndefinedReachedAt(slots, 0);
      Throws(TrimOfUndefined)
    else if !AttendeeOk(slots[0]) then
      assert forall j :: !UndefinedReachedAt(slots, j) by {
        forall j ensures !UndefinedReachedAt(slots, j) {
          if 0 < j < |slots| && slots[j] == Undefined {
            assert !AttendeeOk(slots[0]);
          }
        }
      }
      Ok(false)
    else
      EveryShift(slots);
      Every(slots[1..])
  }

  lemma EveryShift(slots: seq<Slot>)
    requires |slots| > 0 && AttendeeOk(slots[0])
    ensures (forall k :: 0 <= k < |slots| ==> AttendeeOk(slots[k]))
      <==> (forall k :: 0 <= k < |slots[1..]| ==> AttendeeOk(slots[1..][k]))
    ensures (exists j :: UndefinedReachedAt(slots, j)) <==> (exists j :: UndefinedReachedAt(slots[1..], j))
  {
    var tail := slots[1..];
    if exists j :: UndefinedReachedAt(tail, j) {
      var j :| UndefinedReachedAt(tail, j);
      UndefinedReachedShift(slots, j + 1);
    }
    if exists j :: UndefinedReachedAt(slots, j) {
      var j :| UndefinedReachedAt(slots, j);
      assert j > 0;
      UndefinedReachedShift(slots, j);
    }
  }

  /** Past a passing first entry, reaching `undefined` at `j` in `slots` is reaching it at
      `j - 1` in the rest. */
  lemma UndefinedReachedShift(slots: seq<Slot>, j: int)
    requires |slots| > 0 && AttendeeOk(slots[0]) && 0 < j
    ensures UndefinedReachedAt(slots, j) <==> UndefinedReachedAt(slots[1..], j - 1)
  {
    var tail := slots[1..];
    if j < |slots| {
      assert slots[j] == tail[j - 1];
      assert (forall k :: 0 <= k < j ==> AttendeeOk(slots[k]))
        <==> (forall k :: 0 <= k < j - 1 ==> AttendeeOk(tail[k])) by {
        assert forall k :: 0 < k < j ==> slots[k] == tail[k - 1];
      }
    }
  }

  /** The attendees `canSubmit` inspects: `attendees.slice(0, count)`. */
  function Inspected(st: FormState): (r: seq<Slot>)
    ensures |r| == if Count(st.countInput) <= |st.attendees| then Count(st.countInput) else |st.attendees|
    ensures forall k :: 0 <= k < |r| ==> r[k] == st.attendees[k]
  {
    var c := Count(st.countInput);
    if c <= |st.attendees| then st.attendees[..c] else st.attendees
  }

  /** `canSubmit`; it throws when the attendee scan reaches an `undefined` entry. */
  function CanSubmit(st: FormState): (r: Result<bool>)
    ensures r.Throws? ==> r == Throws(TrimOfUndefined)
    ensures r == Ok(true) ==> st.fullName != [] && st.phone != [] && st.email != []
    ensures r == Ok(true) ==> st.consentPhoto && st.agreeTerms
  {
    var nameOk := Utf16Length(Trim(st.fullName)) > 1;
    var phoneOk := PhoneOk(Trim(st.phone));
    var emailOk := EmailOk(Trim(st.email));
    var count := Count(st.countInput);
    var countOk := count >= 1 && count <= 10;
    match Every(Inspected(st))
    case Throws(m) => Throws(m)
    case Ok(attendeesOk) =>
      Ok(nameOk && phoneOk && emailOk && countOk && attendeesOk && st.consentPhoto && st.agreeTerms)
  }

  /** Every condition of the gate, written out. */
  ghost predicate GateConditions(st: FormState) {
    var c := Count(st.countInput);
    Utf16Length(Trim(st.fullName)) > 1
    && PhoneRegexTest(Trim(st.phone))
    && EmailRegexTest(Trim(st.email))
    && 1 <= c <= 10
    && AttendeesOk(st.attendees, c)
    && st.consentPhoto && st.agreeTerms
  }

  /** Every one of the first `c` attendee entries is a hole or a name of two UTF-16 code units or
      more. */
  predicate AttendeesOk(slots: seq<Slot>, c: int) {
    forall k :: 0 <= k < |slots| && k < c ==> AttendeeOk(slots[k])
  }

  lemma EveryInspected(st: FormState)
    ensures Every(Inspected(st)) == Ok(true) <==> AttendeesOk(st.attendees, Count(st.countInput))
  {
    var ins := Inspected(st);
    assert forall k :: 0 <= k < |ins| ==> ins[k] == st.attendees[k];
  }

  lemma CanSubmitUnfold(st: FormState)
    ensures CanSubmit(st) == Ok(true) <==>
      Utf16Length(Trim(st.fullName)) > 1 && PhoneOk(Trim(st.phone)) && EmailOk(Trim(st.email))
      && Every(Inspected(st)) == Ok(true) && st.consentPhoto && st.agreeTerms
  {
  }

  /** The form may be submitted exactly when every condition holds: a name of at least two
      UTF-16 code units, a phone and an email the two regular expressions match, a count in
      [1, 10], each inspected attendee a hole or a name of at least two code units, both boxes
      ticked. */
  lemma CanSubmitIff(st: FormState)
    ensures CanSubmit(st) == Ok(true) <==> GateConditions(st)
  {
    PhoneOkIsRegexTest(Trim(st.phone));
    EmailOkIsRegexTest(Trim(st.email));
    EveryInspected(st);
    CanSubmitUnfold(st);
  }

  /** The gate throws exactly when an `undefined` entry among the inspected attendees comes
      before any entry that fails; in every other case it yields a boolean. */
  lemma CanSubmitThrowsIff(st: FormState)
    ensures CanSubmit(st).Throws? <==> exists j :: UndefinedReachedAt(Inspected(st), j)
  {
  }

  /** What the submit button posts: the field values of the state the click was handled in,
      with the derived count. */
  datatype SubmitBody = SubmitBody(
    fullName: string, phone: string, email: string, count: int,
    attendees: seq<Slot>, consentPhoto: bool, agreeTerms: bool)

  function BodyOf(st: FormState): (b: SubmitBody)
    ensures b.fullName == st.fullName && b.phone == st.phone && b.email == st.email
    ensures b.attendees == st.attendees
    ensures b.consentPhoto == st.consentPhoto && b.agreeTerms == st.agreeTerms
    ensures MinCount <= b.count <= MaxCount
    ensures b.count == |Normalized(st, ParseNumber(st.countInput)).attendees|
  {
    NormalizedCountAgrees(st.countInput);
    SubmitBody(st.fullName, st.phone, st.email, Count(st.countInput), st.attendees,
               st.consentPhoto, st.agreeTerms)
  }

  /** The `BookingForm` component's state and its update handlers. */
  class BookingForm {
    var fullName: string
    var phone: string
    var email: string
    var countInput: string
    var attendees: seq<Slot>
    var consentPhoto: bool
    var agreeTerms: bool

    function State(): FormState
      reads this
    {
      FormState(fullName, phone, email, countInput, attendees, consentPhoto, agreeTerms)
    }

    constructor ()
      ensures State() == Initial
    {
      fullName, phone, email := "", "", "";
      countInput := "1";
      attendees := [Name("")];
      consentPhoto, agreeTerms := false, false;
    }

    method SetFullName(v: string)
      modifies this
      ensures State() == old(State()).(fullName := v)
    {
      fullName := v;
    }

    method SetPhone(v: string)
      modifies this
      ensures State() == old(State()).(phone := v)
    {
      phone := v;
    }

    method SetEmail(v: string)
      modifies this
      ensures State() == old(State()).(email := v)
    {
      email := v;
    }

    /** Free typing in the count field: nothing else follows until the field loses focus. */
    method SetCountInput(v: string)
      modifies this
      ensures State() == old(State()).(countInput := v)
    {
      countInput := v;
    }

    method SetConsentPhoto(v: bool)
      modifies this
      ensures State() == old(State()).(consentPhoto := v)
    {
      consentPhoto := v;
    }

    method SetAgreeTerms(v: bool)
      modifies this
      ensures State() == old(State()).(agreeTerms := v)
    {
      agreeTerms := v;
    }

    /** `normalizeCountAndAttendees(v)`, run when the count field loses focus; `v` is the
        field's value as a number (None for `NaN`). */
    method NormalizeCountAndAttendees(v: Option<int>)
      modifies this
      ensures State() == Normalized(old(State()), v)
      ensures |attendees| == Count(countInput) == NormalizedCount(v)
    {
      var clamped := NormalizedCount(v);
      countInput := DecimalString(clamped);
      var arr := Spread(attendees);
      if clamped > |arr| {
        attendees := arr + seq(clamped - |arr|, _ => Name(""));
      } else {
        attendees := arr[..clamped];
      }
      assert attendees == Resized(old(attendees), clamped);
      assert State() == old(State()).(countInput := DecimalString(clamped), attendees := Resized(old(attendees), clamped));
      NormalizeTracksCount(old(State()), v);
    }

    /** Typing into the input of attendee `i`; an input exists only for `i < count`. */
    method EditAttendee(i: nat, text: string)
      requires i < Count(countInput)
      modifies this
      ensures State() == old(State()).(attendees := Edited(old(attendees), i, text))
    {
      var arr := attendees;
      if i < |arr| {
        arr := arr[i := Name(text)];
      } else {
        arr := arr + seq(i - |arr|, _ => Hole) + [Name(text)];
      }
      attendees := arr;
    }

    /** The submit button: nothing happens unless the gate holds; otherwise the count and the
        attendee list are normalised and the state of this render is posted. */
    method Submit() returns (sent: Option<SubmitBody>)
      modifies this
      ensures CanSubmit(old(State())) != Ok(true) ==> sent == None && State() == old(State())
      ensures CanSubmit(old(State())) == Ok(true) ==>
        sent == Some(BodyOf(old(State()))) && State() == Normalized(old(State()), ParseNumber(old(countInput)))
    {
      if CanSubmit(State()) != Ok(true) {
        return None;
      }
      var body := BodyOf(State());
      NormalizeCountAndAttendees(ParseNumber(countInput));
      sent := Some(body);
    }
  }

  /** Submitting keeps the derived count and leaves an attendee list of exactly that length. */
  lemma SubmitNormalizesToCount(st: FormState)
    ensures var st' := Normalized(st, ParseNumber(st.countInput));
      Count(st'.countInput) == Count(st.countInput) == |st'.attendees|
  {
    NormalizedCountAgrees(st.countInput);
    NormalizeTracksCount(st, ParseNumber(st.countInput));
  }
}
