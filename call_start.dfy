/**
 * `/api/call/start`: the phone-number check and the outbound call payload.
 * The two server revisions carry the same text for this handler, so this
 * module models both.
 */
module CallStart {
  import opened Wrappers

  /** `\d` in a JavaScript regular expression without the `u` flag. */
  predicate IsDigit(c: char) {
    '0' <= c <= '9'
  }

  /** Digit count bounds of `\d{10,15}`; 15 is the E.164 maximum (ITU-T E.164, section 6). */
  const MinDigits: nat := 10
  const MaxDigits: nat := 15

  const FormatError := "Phone number must be in E.164 format (e.g., +15551234567)"

  /** The language of `^\+\d{10,15}$`, stated declaratively. */
  predicate IsE164Format(s: string) {
    && |s| >= 1
    && s[0] == '+'
    && MinDigits <= |s| - 1 <= MaxDigits
    && forall i :: 1 <= i < |s| ==> IsDigit(s[i])
  }

  /**
   * A left-to-right reading of the anchored pattern: `^` starts in AtStart,
   * `\+` moves to InDigits(0), each `\d` counts up to 15, and `$` accepts a
   * count of at least 10 at the end of the input.
   */
  datatype MatchState = AtStart | InDigits(count: nat) | Failed

  function Step(st: MatchState, c: char): MatchState {
    match st
    case AtStart => if c == '+' then InDigits(0) else Failed
    case InDigits(n) => if IsDigit(c) && n < MaxDigits then InDigits(n + 1) else Failed
    case Failed => Failed
  }

  function Run(st: MatchState, s: string): MatchState
    decreases |s|
  {
    if s == [] then st else Run(Step(st, s[0]), s[1..])
  }

  /** `s.match(/^\+\d{10,15}$/)` is non-null. */
  predicate Matches(s: string) {
    var end := Run(AtStart, s);
    end.InDigits? && MinDigits <= end.count
  }

  predicate AllDigits(t: string) {
    forall i :: 0 <= i < |t| ==> IsDigit(t[i])
  }

  lemma {:induction false} RunFailed(t: string)
    ensures Run(Failed, t) == Failed
    decreases |t|
  {
    if t != [] {
      RunFailed(t[1..]);
    }
  }

  /** From InDigits(n), the rest of the input is read as digits up to the bound. */
  lemma {:induction false} RunInDigits(n: nat, t: string)
    requires n <= MaxDigits
    ensures Run(InDigits(n), t) ==
      if AllDigits(t) && n + |t| <= MaxDigits then InDigits(n + |t|) else Failed
    decreases |t|
  {
    if t != [] {
      if IsDigit(t[0]) && n < MaxDigits {
        RunInDigits(n + 1, t[1..]);
        assert AllDigits(t) <==> AllDigits(t[1..]) by {
          if AllDigits(t[1..]) {
            forall i | 0 <= i < |t| ensures IsDigit(t[i]) {
              if i > 0 { assert t[i] == t[1..][i - 1]; }
            }
          }
        }
      } else {
        RunFailed(t[1..]);
        if IsDigit(t[0]) {
          assert n + |t| > MaxDigits;
        }
      }
    }
  }

  /** The matcher accepts exactly the strings of the declarative format. */
  lemma MatchesIffE164Format(s: string)
    ensures Matches(s) <==> IsE164Format(s)
  {
    if s == [] {
    } else if s[0] != '+' {
      RunFailed(s[1..]);
    } else {
      RunInDigits(0, s[1..]);
      assert AllDigits(s[1..]) <==> forall i :: 1 <= i < |s| ==> IsDigit(s[i]) by {
        forall i | 1 <= i < |s| ensures s[i] == s[1..][i - 1] { }
      }
    }
  }

  /** `!phoneNumber || !phoneNumber.match(...)` is false: the number is accepted. */
  predicate Accepts(phoneNumber: Option<string>) {
    phoneNumber.Some? && phoneNumber.value != "" && Matches(phoneNumber.value)
  }

  /** A phone number is accepted iff it is present and in the format `+` then 10 to 15 digits. */
  lemma AcceptsIffE164(phoneNumber: Option<string>)
    ensures Accepts(phoneNumber) <==> phoneNumber.Some? && IsE164Format(phoneNumber.value)
  {
    if phoneNumber.Some? {
      MatchesIffE164Format(phoneNumber.value);
    }
  }

  /** Acceptance is anchored: one leading `+`, no `+` (or anything but digits) afterwards. */
  lemma AcceptedIsAnchored(s: string)
    requires Accepts(Some(s))
    ensures s[0] == '+' && 11 <= |s| <= 16
    ensures forall i :: 1 <= i < |s| ==> s[i] != '+' && IsDigit(s[i])
  {
    AcceptsIffE164(Some(s));
  }

  /** Every `+` followed by 10 to 15 digits is accepted. */
  lemma DigitStringAccepted(digits: string)
    requires AllDigits(digits) && MinDigits <= |digits| <= MaxDigits
    ensures Accepts(Some(['+'] + digits))
  {
    var s := ['+'] + digits;
    forall i | 1 <= i < |s| ensures IsDigit(s[i]) {
      assert s[i] == digits[i - 1];
    }
    AcceptsIffE164(Some(s));
  }

  /** `process.env.VAPI_PHONE_NUMBER_ID` is truthy: set and non-empty. */
  predicate Configured(phoneNumberId: Option<string>) {
    phoneNumberId.Some? && phoneNumberId.value != ""
  }

  datatype Customer = Customer(number: string)

  /** The body sent to the voice platform's call endpoint. */
  datatype CallPayload = CallPayload(
    assistantId: Option<string>,
    customer: Customer,
    phoneNumberId: Option<string>)

  /** The handler's answer before the outbound request is made. */
  datatype StartResponse =
    | BadRequest(status: int, success: bool, error: string)
    | Send(payload: CallPayload)

  /** Builds the payload, then adds `phoneNumberId` only when it is configured. */
  method BuildPayload(assistantId: Option<string>, number: string, phoneNumberId: Option<string>)
    returns (p: CallPayload)
    ensures p.assistantId == assistantId && p.customer.number == number
    ensures p.phoneNumberId.Some? <==> Configured(phoneNumberId)
    ensures p.phoneNumberId.Some? ==> p.phoneNumberId == phoneNumberId
  {
    p := CallPayload(assistantId, Customer(number), None);
    if Configured(phoneNumberId) {
      p := p.(phoneNumberId := phoneNumberId);
    }
  }

  /**
   * The handler up to the outbound request: a rejected number returns 400
   * before any payload is built; an accepted one yields the payload.
   */
  method StartCall(assistantId: Option<string>, phoneNumber: Option<string>, phoneNumberId: Option<string>)
    returns (r: StartResponse)
    ensures r.BadRequest? <==> !(phoneNumber.Some? && IsE164Format(phoneNumber.value))
    ensures r.BadRequest? ==> r == BadRequest(400, false, FormatError)
    ensures r.Send? ==> r.payload.customer.number == phoneNumber.value
    ensures r.Send? ==> r.payload.assistantId == assistantId
    ensures r.Send? ==> (r.payload.phoneNumberId.Some? <==> Configured(phoneNumberId))
    ensures r.Send? && r.payload.phoneNumberId.Some? ==> r.payload.phoneNumberId == phoneNumberId
  {
    AcceptsIffE164(phoneNumber);
    if !Accepts(phoneNumber) {
      return BadRequest(400, false, FormatError);
    }
    var payload := BuildPayload(assistantId, phoneNumber.value, phoneNumberId);
    r := Send(payload);
  }
}
