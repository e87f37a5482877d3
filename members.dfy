/** The parts of the `members` package the core uses: the application error value of
    `internal/app/members/errors.go`, and the tri-state `Optional` with the patch inputs the
    profile update is given. The member service itself is not part of this model. */
module Members {
  import opened Wrappers
  import opened Text

  // ---------------------------------------------------------------------------------------
  // Tri-state patch fields

  /** `members.Optional[T]`: leave the field alone, clear it, or set it to a value. */
  datatype Optional<T> = Unspecified | Null | Some(value: T)

  datatype VehicleProfilePatch = VehicleProfilePatch(
    make: Optional<string>,
    model: Optional<string>,
    tireSize: Optional<string>,
    liftLockers: Optional<string>,
    fuelRange: Optional<string>,
    recoveryGear: Optional<string>,
    hamRadioCallSign: Optional<string>,
    notes: Optional<string>)

  /** The input of the partial profile update. */
  datatype UpdateMyMemberProfileInput = UpdateMyMemberProfileInput(
    displayName: Optional<string>,
    email: Optional<string>,
    groupAliasEmail: Optional<string>,
    vehicleProfile: Optional<VehicleProfilePatch>)

  /** The input of member creation; here an absent alias is simply nil. */
  datatype CreateMyMemberInput = CreateMyMemberInput(
    displayName: string,
    email: string,
    groupAliasEmail: Option<string>,
    vehicleProfile: Option<VehicleProfilePatch>)

  // ---------------------------------------------------------------------------------------
  // Application errors

  /** The values held in an error's details map (Go's `any`). */
  type DetailValue(==)

  /** `members.Error`. A nil `*Error` is `None` wherever the pointer may be nil, and a nil
      details map is `None` as well. */
  datatype Error = Error(
    status: int,
    code: string,
    message: string,
    details: Option<map<string, DetailValue>>)

  /** An `error` returned by the member service: either a `*members.Error` or something else. */
  datatype Failure = AppFailure(err: Error) | OtherFailure(text: string)

  const StatusPrefix: string := "app error (status="

  /** The text before the first occurrence of `c` (all of `s` if there is none). */
  function TakeUntil(s: string, c: char): (r: string)
    ensures |r| <= |s| && r == s[..|r|] && c !in r
  {
    if s == [] || s[0] == c then [] else [s[0]] + TakeUntil(s[1..], c)
  }

  lemma {:induction false} TakeUntilDelimited(x: string, c: char, y: string)
    requires c !in x
    ensures TakeUntil(x + [c] + y, c) == x
  {
    if x != [] {
      assert (x + [c] + y)[1..] == x[1..] + [c] + y;
      TakeUntilDelimited(x[1..], c, y);
    }
  }

  /** Reads the status back out of the text of an error without a code. */
  function StatusOf(text: string): int {
    if |text| < |StatusPrefix| then 0 else ParseInt(TakeUntil(text[|StatusPrefix|..], ')'))
  }

  /** The status written by `%d` into the code-less format reads back exactly, whatever the
      message says. */
  lemma StatusReadable(status: int, message: string)
    ensures StatusOf(StatusPrefix + IntToString(status) + "): " + message) == status
  {
    var digits := IntToString(status);
    var text := StatusPrefix + digits + "): " + message;
    assert ')' !in digits;
    assert text[|StatusPrefix|..] == digits + [')'] + (": " + message);
    TakeUntilDelimited(digits, ')', ": " + message);
    IntToStringRoundTrip(status);
  }

  /** Where the pieces of `prefix + digits + "): " + message` sit in it. */
  lemma StatusTextPieces(prefix: string, digits: string, message: string)
    ensures var text := prefix + digits + "): " + message;
      && HasPrefix(text, prefix)
      && |text| == |prefix| + |digits| + 3 + |message|
      && text[|prefix|..|prefix| + |digits|] == digits
      && EndsWith(text, "): " + message)
  {
    var text := prefix + digits + "): " + message;
    assert text[..|prefix|] == prefix;
    assert text[|prefix|..|prefix| + |digits|] == digits;
    assert text[|text| - |"): " + message|..] == "): " + message;
  }

  /** The code-less text: its prefix, digits, length and suffix, and it is not "<nil>". */
  lemma StatusTextShape(status: int, message: string)
    ensures var text := StatusPrefix + IntToString(status) + "): " + message;
      && text != "<nil>"
      && HasPrefix(text, StatusPrefix)
      && |text| == |StatusPrefix| + |IntToString(status)| + 3 + |message|
      && text[|StatusPrefix|..|StatusPrefix| + |IntToString(status)|] == IntToString(status)
      && StatusOf(text) == status
      && EndsWith(text, "): " + message)
  {
    StatusTextPieces(StatusPrefix, IntToString(status), message);
    StatusReadable(status, message);
  }

  /** The text of an error with a code: its prefix, length and suffix, and it is not "<nil>". */
  lemma CodeTextShape(code: string, message: string)
    requires code != ""
    ensures var text := code + ": " + message;
      && text != "<nil>"
      && HasPrefix(text, code + ": ")
      && |text| == |code| + 2 + |message|
      && EndsWith(text, message)
  {
    var text := code + ": " + message;
    assert ':' in text[..|code| + 2];
    assert text[..|code| + 2] == code + ": ";
    assert text[|text| - |message|..] == message;
  }

  /** `(*Error).Error()`. The three forms cannot be confused: only a nil error reads "<nil>"; an
      error without a code reads "app error (status=<Status>): <Message>", with the status in
      decimal so that it reads back; any other error reads "<Code>: <Message>". Prefix, length
      and suffix together pin the whole text. */
  function ErrorString(e: Option<Error>): (r: string)
    ensures r == "<nil>" <==> e.None?
    ensures e.Some? && e.value.code == "" ==>
      && HasPrefix(r, StatusPrefix)
      && |r| == |StatusPrefix| + |IntToString(e.value.status)| + 3 + |e.value.message|
      && r[|StatusPrefix|..|StatusPrefix| + |IntToString(e.value.status)|] == IntToString(e.value.status)
      && StatusOf(r) == e.value.status
      && EndsWith(r, "): " + e.value.message)
    ensures e.Some? && e.value.code != "" ==>
      && HasPrefix(r, e.value.code + ": ")
      && |r| == |e.value.code| + 2 + |e.value.message|
      && EndsWith(r, e.value.message)
  {
    match e
    case None => "<nil>"
    case Some(err) =>
      if err.code == "" then
        StatusTextShape(err.status, err.message);
        StatusPrefix + IntToString(err.status) + "): " + err.message
      else
        CodeTextShape(err.code, err.message);
        err.code + ": " + err.message
  }

  /** `(*Error).WithDetails`: a copy of the error whose details are a fresh copy of `details`
      (empty, not nil, when `details` is nil); nil for a nil receiver. The receiver is a value
      here, so it cannot be changed. */
  method WithDetails(e: Option<Error>, details: Option<map<string, DetailValue>>)
    returns (r: Option<Error>)
    ensures r.None? <==> e.None?
    ensures r.Some? ==>
      && r.value.status == e.value.status
      && r.value.code == e.value.code
      && r.value.message == e.value.message
      && r.value.details.Some?
      && r.value.details.value.Keys == (if details.Some? then details.value.Keys else {})
      && forall k :: k in r.value.details.value ==> r.value.details.value[k] == details.value[k]
  {
    if e.None? {
      return None;
    }
    var source := if details.Some? then details.value else map[];
    var cp: map<string, DetailValue> := map[];
    var pending := source.Keys;
    while pending != {}
      invariant pending <= source.Keys
      invariant cp.Keys == source.Keys - pending
      invariant forall k :: k in cp ==> cp[k] == source[k]
      decreases pending
    {
      var k :| k in pending;
      cp := cp[k := source[k]];
      pending := pending - {k};
    }
    r := Option.Some(e.value.(details := Option.Some(cp)));
  }
}
