/** The pure parts of the HTTP adapter (`internal/adapters/httpapi/server.go`): the generated
    request and response shapes with their tri-state nullable fields, the mappers between them
    and the member inputs, and the canonical hash of a profile update body. JSON encoding,
    SHA-256 and `domain.NormalizeHumanName` are foreign code; they reach the model as the
    function values of a `Foreign`. */
module HttpApi {
  import opened Wrappers
  import opened Text
  import opened Domain
  import opened Members

  // ---------------------------------------------------------------------------------------
  // Generated types

  datatype NullableError = ValueNotSpecified | ValueIsNull

  /** `nullable.Nullable[T]`: a field left out of the JSON, sent as `null`, or sent with a
      value. */
  datatype Nullable<T> = NotSpecified | ExplicitNull | Present(value: T)
  {
    predicate IsSpecified() {
      !NotSpecified?
    }

    predicate IsNull() {
      ExplicitNull?
    }

    /** The value, or why there is none. */
    function Get(): Result<T, NullableError> {
      match this
      case NotSpecified => Err(ValueNotSpecified)
      case ExplicitNull => Err(ValueIsNull)
      case Present(v) => Ok(v)
    }
  }

  /** `oas.VehicleProfile`. */
  datatype OasVehicleProfile = OasVehicleProfile(
    make: Nullable<string>,
    model: Nullable<string>,
    tireSize: Nullable<string>,
    liftLockers: Nullable<string>,
    fuelRange: Nullable<string>,
    recoveryGear: Nullable<string>,
    hamRadioCallSign: Nullable<string>,
    notes: Nullable<string>)

  /** `oas.UpdateMyMemberProfileRequest`: the email may be left out but not sent as null, the
      vehicle profile likewise. */
  datatype UpdateMyMemberProfileRequest = UpdateMyMemberProfileRequest(
    displayName: Nullable<string>,
    email: Option<string>,
    groupAliasEmail: Nullable<string>,
    vehicleProfile: Option<OasVehicleProfile>)

  /** `oas.CreateMyMemberRequest`. */
  datatype CreateMyMemberRequest = CreateMyMemberRequest(
    displayName: string,
    email: string,
    groupAliasEmail: Nullable<string>,
    vehicleProfile: Option<OasVehicleProfile>)

  /** `oas.MemberProfile`. */
  datatype MemberProfile = MemberProfile(
    memberId: string,
    displayName: string,
    email: string,
    groupAliasEmail: Nullable<string>,
    vehicleProfile: Option<OasVehicleProfile>)

  datatype UpdateMyMemberProfileResponse = UpdateMyMemberProfileResponse(member: MemberProfile)

  /** The `error` object of `oas.ErrorResponse`. */
  datatype ErrorBody = ErrorBody(
    code: string,
    message: string,
    details: Nullable<map<string, DetailValue>>,
    requestId: Nullable<string>)

  /** A SHA-256 digest. */
  type Digest = s: seq<byte> | |s| == 32 witness seq(32, i => 0)

  /** The foreign code the adapter calls: `domain.NormalizeHumanName`, `json.Marshal` of a
      request and of a response (`None` when it fails), `sha256.Sum256` and `json.Unmarshal`
      of a response (`None` when it fails). */
  datatype Foreign = Foreign(
    normalizeHumanName: string -> string,
    marshalRequest: UpdateMyMemberProfileRequest -> Option<seq<byte>>,
    sha256: seq<byte> -> Digest,
    marshalResponse: UpdateMyMemberProfileResponse -> Option<seq<byte>>,
    unmarshalResponse: seq<byte> -> Option<UpdateMyMemberProfileResponse>)

  // ---------------------------------------------------------------------------------------
  // Canonical body hash

  /** The canonical form of an update body: a display name sent with a value is normalised,
      an email and an alias sent with a value are trimmed, and everything else is left as
      sent. */
  function Canonicalize(normalize: string -> string, b: UpdateMyMemberProfileRequest): (r: UpdateMyMemberProfileRequest)
    ensures b.displayName.Present? ==> r.displayName == Present(normalize(b.displayName.value))
    ensures !b.displayName.Present? ==> r.displayName == b.displayName
    ensures b.email.Some? ==> r.email == Option.Some(TrimSpace(b.email.value))
    ensures b.email.None? ==> r.email.None?
    ensures b.groupAliasEmail.Present? ==> r.groupAliasEmail == Present(TrimSpace(b.groupAliasEmail.value))
    ensures !b.groupAliasEmail.Present? ==> r.groupAliasEmail == b.groupAliasEmail
    ensures r.vehicleProfile == b.vehicleProfile
  {
    var displayName :=
      if b.displayName.IsSpecified() && !b.displayName.IsNull() then
        match b.displayName.Get()
        case Ok(v) => Present(normalize(v))
        case Err(_) => b.displayName
      else b.displayName;
    var email := if b.email.Some? then Option.Some(TrimSpace(b.email.value)) else b.email;
    var alias :=
      if b.groupAliasEmail.IsSpecified() && !b.groupAliasEmail.IsNull() then
        match b.groupAliasEmail.Get()
        case Ok(v) => Present(TrimSpace(v))
        case Err(_) => b.groupAliasEmail
      else b.groupAliasEmail;
    b.(displayName := displayName, email := email, groupAliasEmail := alias)
  }

  /** `hashUpdateMyMemberProfileBody`: lower-case hex of the SHA-256 of the JSON of the
      canonical form: 64 hex digits, never empty. Fails only when the JSON encoding fails. */
  function HashUpdateMyMemberProfileBody(f: Foreign, b: UpdateMyMemberProfileRequest): (r: Option<string>)
    ensures r.Some? <==> f.marshalRequest(Canonicalize(f.normalizeHumanName, b)).Some?
    ensures r.Some? ==> |r.value| == 64 && forall i :: 0 <= i < 64 ==> IsHexDigit(r.value[i])
  {
    match f.marshalRequest(Canonicalize(f.normalizeHumanName, b))
    case None => None
    case Some(raw) => Option.Some(HexEncode(f.sha256(raw)))
  }

  /** The hex text of a body hash determines the SHA-256 digest it encodes, so two bodies have
      the same hash exactly when their canonical JSON has the same digest. */
  lemma HashDeterminesDigest(f: Foreign, b1: UpdateMyMemberProfileRequest, b2: UpdateMyMemberProfileRequest)
    requires HashUpdateMyMemberProfileBody(f, b1).Some? && HashUpdateMyMemberProfileBody(f, b2).Some?
    ensures
      var d1 := f.sha256(f.marshalRequest(Canonicalize(f.normalizeHumanName, b1)).value);
      var d2 := f.sha256(f.marshalRequest(Canonicalize(f.normalizeHumanName, b2)).value);
      HashUpdateMyMemberProfileBody(f, b1) == HashUpdateMyMemberProfileBody(f, b2) <==> d1 == d2
  {
    var d1 := f.sha256(f.marshalRequest(Canonicalize(f.normalizeHumanName, b1)).value);
    var d2 := f.sha256(f.marshalRequest(Canonicalize(f.normalizeHumanName, b2)).value);
    if HexEncode(d1) == HexEncode(d2) {
      HexEncodeInjective(d1, d2);
    }
  }

  /** Canonicalising twice is canonicalising once, provided the name normalisation is itself
      idempotent on the name sent. */
  lemma CanonicalizeIdempotent(normalize: string -> string, b: UpdateMyMemberProfileRequest)
    requires b.displayName.Present? ==>
      normalize(normalize(b.displayName.value)) == normalize(b.displayName.value)
    ensures Canonicalize(normalize, Canonicalize(normalize, b)) == Canonicalize(normalize, b)
  {
    if b.email.Some? {
      TrimSpaceIdempotent(b.email.value);
    }
    if b.groupAliasEmail.Present? {
      TrimSpaceIdempotent(b.groupAliasEmail.value);
    }
  }

  /** So the canonical form of a body hashes like the body itself. */
  lemma HashOfCanonicalForm(f: Foreign, b: UpdateMyMemberProfileRequest)
    requires b.displayName.Present? ==>
      f.normalizeHumanName(f.normalizeHumanName(b.displayName.value)) == f.normalizeHumanName(b.displayName.value)
    ensures HashUpdateMyMemberProfileBody(f, Canonicalize(f.normalizeHumanName, b)) == HashUpdateMyMemberProfileBody(f, b)
  {
    CanonicalizeIdempotent(f.normalizeHumanName, b);
  }

  /** Bodies that differ only in white space around the email hash the same. */
  lemma EmailPaddingHashesEqual(f: Foreign, b: UpdateMyMemberProfileRequest, pre: string, post: string)
    requires b.email.Some? && AllSpace(pre) && AllSpace(post)
    ensures HashUpdateMyMemberProfileBody(f, b.(email := Option.Some(pre + b.email.value + post))) ==
      HashUpdateMyMemberProfileBody(f, b)
  {
    TrimSpaceIgnoresPadding(pre, b.email.value, post);
    var padded := b.(email := Option.Some(pre + b.email.value + post));
    assert Canonicalize(f.normalizeHumanName, padded) == Canonicalize(f.normalizeHumanName, b);
  }

  /** Bodies that differ only in white space around the group alias hash the same. */
  lemma GroupAliasPaddingHashesEqual(f: Foreign, b: UpdateMyMemberProfileRequest, pre: string, post: string)
    requires b.groupAliasEmail.Present? && AllSpace(pre) && AllSpace(post)
    ensures HashUpdateMyMemberProfileBody(f, b.(groupAliasEmail := Present(pre + b.groupAliasEmail.value + post))) ==
      HashUpdateMyMemberProfileBody(f, b)
  {
    TrimSpaceIgnoresPadding(pre, b.groupAliasEmail.value, post);
    var padded := b.(groupAliasEmail := Present(pre + b.groupAliasEmail.value + post));
    assert Canonicalize(f.normalizeHumanName, padded) == Canonicalize(f.normalizeHumanName, b);
  }

  // ---------------------------------------------------------------------------------------
  // Request to member input

  /** `optionalStringFromNullable`: left out stays unspecified, null clears, a value sets. */
  function OptionalStringFromNullable(n: Nullable<string>): (r: Optional<string>)
    ensures r.Unspecified? <==> n.NotSpecified?
    ensures r.Null? <==> n.ExplicitNull?
    ensures r.Some? <==> n.Present?
    ensures r.Some? ==> r.value == n.value
  {
    if !n.IsSpecified() then Unspecified
    else if n.IsNull() then Null
    else
      match n.Get()
      case Err(_) => Unspecified
      case Ok(v) => Optional.Some(v)
  }

  /** The mapping loses nothing: different fields give different instructions. */
  lemma OptionalStringFromNullableInjective(a: Nullable<string>, b: Nullable<string>)
    requires OptionalStringFromNullable(a) == OptionalStringFromNullable(b)
    ensures a == b
  {
    match a
    case NotSpecified =>
    case ExplicitNull =>
    case Present(v) => assert OptionalStringFromNullable(b).value == v;
  }

  /** How one nullable field of a request becomes a patch instruction: left out leaves the
      field alone, null clears it, a value sets it. */
  predicate PatchesField(n: Nullable<string>, o: Optional<string>) {
    && (o.Unspecified? <==> n.NotSpecified?)
    && (o.Null? <==> n.ExplicitNull?)
    && (o.Some? <==> n.Present?)
    && (o.Some? ==> o.value == n.value)
  }

  /** `vehicleProfilePatchFromOAS`: each of the eight fields is patched as sent. */
  function VehicleProfilePatchFromOAS(vp: OasVehicleProfile): (r: VehicleProfilePatch)
    ensures PatchesField(vp.make, r.make) && PatchesField(vp.model, r.model)
    ensures PatchesField(vp.tireSize, r.tireSize) && PatchesField(vp.liftLockers, r.liftLockers)
    ensures PatchesField(vp.fuelRange, r.fuelRange) && PatchesField(vp.recoveryGear, r.recoveryGear)
    ensures PatchesField(vp.hamRadioCallSign, r.hamRadioCallSign) && PatchesField(vp.notes, r.notes)
  {
    VehicleProfilePatch(
      OptionalStringFromNullable(vp.make),
      OptionalStringFromNullable(vp.model),
      OptionalStringFromNullable(vp.tireSize),
      OptionalStringFromNullable(vp.liftLockers),
      OptionalStringFromNullable(vp.fuelRange),
      OptionalStringFromNullable(vp.recoveryGear),
      OptionalStringFromNullable(vp.hamRadioCallSign),
      OptionalStringFromNullable(vp.notes))
  }

  /** `updateMyMemberProfileInputFromOAS`. The email is trimmed and never cleared; the alias
      is trimmed, cleared by null; the vehicle profile is never cleared. */
  function UpdateMyMemberProfileInputFromOAS(b: UpdateMyMemberProfileRequest): (r: UpdateMyMemberProfileInput)
    ensures r.displayName == OptionalStringFromNullable(b.displayName)
    ensures !r.email.Null?
    ensures r.email.Some? <==> b.email.Some?
    ensures r.email.Some? ==> r.email.value == TrimSpace(b.email.value)
    ensures r.groupAliasEmail.Unspecified? <==> b.groupAliasEmail.NotSpecified?
    ensures r.groupAliasEmail.Null? <==> b.groupAliasEmail.ExplicitNull?
    ensures r.groupAliasEmail.Some? ==> r.groupAliasEmail.value == TrimSpace(b.groupAliasEmail.value)
    ensures !r.vehicleProfile.Null?
    ensures r.vehicleProfile.Some? <==> b.vehicleProfile.Some?
    ensures r.vehicleProfile.Some? ==> r.vehicleProfile.value == VehicleProfilePatchFromOAS(b.vehicleProfile.value)
  {
    var displayName := OptionalStringFromNullable(b.displayName);
    var email := if b.email.Some? then Optional.Some(TrimSpace(b.email.value)) else Unspecified;
    var alias :=
      if b.groupAliasEmail.IsSpecified() then
        if b.groupAliasEmail.IsNull() then Null
        else
          match b.groupAliasEmail.Get()
          case Ok(v) => Optional.Some(TrimSpace(v))
          case Err(_) => Unspecified
      else Unspecified;
    var vehicle :=
      if b.vehicleProfile.Some? then Optional.Some(VehicleProfilePatchFromOAS(b.vehicleProfile.value))
      else Unspecified;
    UpdateMyMemberProfileInput(displayName, email, alias, vehicle)
  }

  /** Two bodies with the same canonical form, hence the same hash, ask the member service for
      the same email, alias and vehicle changes, and for display names that normalise alike. */
  lemma SameCanonicalFormSameUpdate(normalize: string -> string, b1: UpdateMyMemberProfileRequest, b2: UpdateMyMemberProfileRequest)
    requires Canonicalize(normalize, b1) == Canonicalize(normalize, b2)
    ensures
      var in1, in2 := UpdateMyMemberProfileInputFromOAS(b1), UpdateMyMemberProfileInputFromOAS(b2);
      && in1.email == in2.email
      && in1.groupAliasEmail == in2.groupAliasEmail
      && in1.vehicleProfile == in2.vehicleProfile
      && (in1.displayName.Some? <==> in2.displayName.Some?)
      && (in1.displayName.Some? ==> normalize(in1.displayName.value) == normalize(in2.displayName.value))
      && (!in1.displayName.Some? ==> in1.displayName == in2.displayName)
  {
    var c1, c2 := Canonicalize(normalize, b1), Canonicalize(normalize, b2);
    assert b1.email.Some? <==> c1.email.Some?;
    assert b1.groupAliasEmail.Present? <==> c1.groupAliasEmail.Present?;
    assert b1.displayName.Present? <==> c1.displayName.Present?;
  }

  /** The `CreateMyMember` input: the alias is kept as sent, without trimming, and an alias
      left out or sent as null are both "no alias". */
  function CreateMyMemberInputFromOAS(b: CreateMyMemberRequest): (r: CreateMyMemberInput)
    ensures r.displayName == b.displayName && r.email == b.email
    ensures r.groupAliasEmail.Some? <==> b.groupAliasEmail.Present?
    ensures r.groupAliasEmail.Some? ==> r.groupAliasEmail.value == b.groupAliasEmail.value
    ensures r.vehicleProfile.Some? <==> b.vehicleProfile.Some?
    ensures r.vehicleProfile.Some? ==> r.vehicleProfile.value == VehicleProfilePatchFromOAS(b.vehicleProfile.value)
  {
    var alias :=
      if b.groupAliasEmail.IsSpecified() then
        if b.groupAliasEmail.IsNull() then None
        else
          match b.groupAliasEmail.Get()
          case Ok(v) => Option.Some(v)
          case Err(_) => None
      else None;
    var vehicle :=
      if b.vehicleProfile.Some? then Option.Some(VehicleProfilePatchFromOAS(b.vehicleProfile.value)) else None;
    CreateMyMemberInput(b.displayName, b.email, alias, vehicle)
  }

  // ---------------------------------------------------------------------------------------
  // Domain to response

  /** How one optional field of a stored profile is sent: a present value is sent, an absent
      one is left out, and none is sent as null. */
  predicate SendsField(o: Option<string>, n: Nullable<string>) {
    && (n.Present? <==> o.Some?)
    && (n.Present? ==> n.value == o.value)
    && !n.ExplicitNull?
  }

  /** `vehicleProfileFromDomain`: every field the profile has is sent; the others are left out. */
  function VehicleProfileFromDomain(vp: VehicleProfile): (r: OasVehicleProfile)
    ensures SendsField(vp.make, r.make) && SendsField(vp.model, r.model)
    ensures SendsField(vp.tireSize, r.tireSize) && SendsField(vp.liftLockers, r.liftLockers)
    ensures SendsField(vp.fuelRange, r.fuelRange) && SendsField(vp.recoveryGear, r.recoveryGear)
    ensures SendsField(vp.hamRadioCallSign, r.hamRadioCallSign) && SendsField(vp.notes, r.notes)
  {
    OasVehicleProfile(
      NullableOf(vp.make), NullableOf(vp.model), NullableOf(vp.tireSize), NullableOf(vp.liftLockers),
      NullableOf(vp.fuelRange), NullableOf(vp.recoveryGear), NullableOf(vp.hamRadioCallSign),
      NullableOf(vp.notes))
  }

  /** A present value is sent, an absent one left out. */
  function NullableOf<T>(o: Option<T>): (r: Nullable<T>)
    ensures r.Present? <==> o.Some?
    ensures r.Present? ==> r.value == o.value
    ensures !r.ExplicitNull?
  {
    if o.Some? then Present(o.value) else NotSpecified
  }

  /** A vehicle profile read from the server and sent back as a patch sets every field the
      profile has and leaves the others alone: it never clears anything. */
  lemma ProfileAsPatchClearsNothing(vp: VehicleProfile)
    ensures
      var p := VehicleProfilePatchFromOAS(VehicleProfileFromDomain(vp));
      && p == VehicleProfilePatch(
        PatchOf(vp.make), PatchOf(vp.model), PatchOf(vp.tireSize), PatchOf(vp.liftLockers),
        PatchOf(vp.fuelRange), PatchOf(vp.recoveryGear), PatchOf(vp.hamRadioCallSign), PatchOf(vp.notes))
      && !p.make.Null? && !p.model.Null? && !p.tireSize.Null? && !p.liftLockers.Null?
      && !p.fuelRange.Null? && !p.recoveryGear.Null? && !p.hamRadioCallSign.Null? && !p.notes.Null?
  {
    PatchOfNullable(vp.make);
    PatchOfNullable(vp.model);
    PatchOfNullable(vp.tireSize);
    PatchOfNullable(vp.liftLockers);
    PatchOfNullable(vp.fuelRange);
    PatchOfNullable(vp.recoveryGear);
    PatchOfNullable(vp.hamRadioCallSign);
    PatchOfNullable(vp.notes);
  }

  /** The patch instruction that sets a present value and leaves an absent one alone. */
  function PatchOf(o: Option<string>): Optional<string> {
    if o.Some? then Optional.Some(o.value) else Unspecified
  }

  lemma PatchOfNullable(o: Option<string>)
    ensures OptionalStringFromNullable(NullableOf(o)) == PatchOf(o)
  {
  }

  /** `memberProfileFromDomain`. */
  function MemberProfileFromDomain(m: Member): (r: MemberProfile)
    ensures r.memberId == m.id && r.displayName == m.displayName && r.email == m.email
    ensures r.groupAliasEmail == NullableOf(m.groupAliasEmail)
    ensures r.vehicleProfile.Some? <==> m.vehicleProfile.Some?
    ensures r.vehicleProfile.Some? ==> r.vehicleProfile.value == VehicleProfileFromDomain(m.vehicleProfile.value)
  {
    MemberProfile(
      m.id, m.displayName, m.email, NullableOf(m.groupAliasEmail),
      if m.vehicleProfile.Some? then Option.Some(VehicleProfileFromDomain(m.vehicleProfile.value)) else None)
  }

  // ---------------------------------------------------------------------------------------
  // Errors

  /** `isMemberNotProvisioned`: whether the failure is a member error with the code
      `MEMBER_NOT_PROVISIONED`. */
  function IsMemberNotProvisioned(err: Failure): (r: bool)
    ensures r ==> err.AppFailure?
    ensures err.AppFailure? ==> (r <==> err.err.code == "MEMBER_NOT_PROVISIONED")
  {
    match err
    case AppFailure(e) => e.code == "MEMBER_NOT_PROVISIONED"
    case OtherFailure(_) => false
  }

  /** `oasError`: the details are sent exactly when there are some, the request ID exactly
      when there is one. */
  function OasError(code: string, message: string, details: Option<map<string, DetailValue>>, requestId: string): (r: ErrorBody)
    ensures r.code == code && r.message == message
    ensures r.details.Present? <==> details.Some?
    ensures r.details.Present? ==> r.details.value == details.value
    ensures !r.details.ExplicitNull? && !r.requestId.ExplicitNull?
    ensures r.requestId.Present? <==> requestId != ""
    ensures r.requestId.Present? ==> r.requestId.value == requestId
  {
    ErrorBody(
      code, message,
      if details.Some? then Present(details.value) else NotSpecified,
      if requestId != "" then Present(requestId) else NotSpecified)
  }
}
