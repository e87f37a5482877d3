/** The idempotent `PATCH /members/me` handler (`UpdateMyMemberProfile` in
    `internal/adapters/httpapi/server.go`). A request is fingerprinted twice: the *meta*
    fingerprint, with an empty body hash, claims the idempotency key for one canonical body;
    the *response* fingerprint, carrying the body hash, caches the successful response. The
    store is read and written with plain gets and puts, one request at a time.

    `Respond` is the specification: what the handler replies, what the store holds afterwards
    and whether the member service ran. `Server.UpdateMyMemberProfile` performs the same steps
    on a `Store` and a `MemberService` and is proved to match it; the lemmas state the
    properties of `Respond`. */
module ProfileHandler {
  import opened Wrappers
  import opened Text
  import opened Domain
  import opened Members
  import opened Idempotency
  import opened HttpApi

  /** The member service's profile update: its outcome for a subject and an input. */
  type UpdateFn = (SubjectID, UpdateMyMemberProfileInput) -> Result<Member, Failure>

  /** `members.Service`, which is not part of this model, as far as the handler uses it: each
      call is logged, so that the proofs can count the updates performed. */
  class MemberService {
    const update: UpdateFn
    var calls: seq<(SubjectID, UpdateMyMemberProfileInput)>

    constructor (update: UpdateFn)
      ensures this.update == update && calls == []
    {
      this.update := update;
      calls := [];
    }

    method UpdateMyMemberProfile(sub: SubjectID, input: UpdateMyMemberProfileInput) returns (r: Result<Member, Failure>)
      modifies this
      ensures r == update(sub, input)
      ensures calls == old(calls) + [(sub, input)]
    {
      r := update(sub, input);
      calls := calls + [(sub, input)];
    }
  }

  /** What the handler is given: the authenticated subject (absent without one), the body
      (absent when none was sent), the `Idempotency-Key` header and the request ID. */
  datatype UpdateRequest = UpdateRequest(
    subject: Option<SubjectID>,
    body: Option<UpdateMyMemberProfileRequest>,
    idempotencyKey: string,
    requestId: string)

  /** Why the handler returned an error instead of a response. */
  datatype Cause = HashFailed | StoreGetFailed | ServiceFailed(failure: Failure)

  datatype Reply =
    | Unauthorized401(err: ErrorBody)
    | NotFound404(err: ErrorBody)
    | Conflict409(err: ErrorBody)
    | Unprocessable422(err: ErrorBody)
    | Ok200(response: UpdateMyMemberProfileResponse)
    | Failed(cause: Cause)

  const StatusOK := 200
  const JSONContentType := "application/json"

  /** The fingerprint that claims a key: the body hash is empty. */
  function MetaFingerprint(key: string, sub: SubjectID): Fingerprint {
    Fingerprint(key, sub, "PATCH", "/members/me", "")
  }

  /** The fingerprint under which the response to one canonical body is cached. */
  function ResponseFingerprint(key: string, sub: SubjectID, hash: string): (fp: Fingerprint)
    ensures hash != "" ==> fp != MetaFingerprint(key, sub)
    ensures fp == MetaFingerprint(key, sub).(bodyHash := hash)
  {
    Fingerprint(key, sub, "PATCH", "/members/me", hash)
  }

  predicate IsHex(s: string) {
    forall i :: 0 <= i < |s| ==> IsHexDigit(s[i])
  }

  /** The record that claims a key: status 0, plain text, the body hash as its body. */
  function MetaRecord(hash: string, now: int): Record
    requires IsHex(hash)
  {
    Record(0, "text/plain", AsciiBytes(hash), now)
  }

  /** The record that caches a successful response. */
  function ResponseRecord(body: seq<byte>, now: int): Record {
    Record(StatusOK, JSONContentType, body, now)
  }

  /** The response a cached record replays: only a 200 JSON record whose body decodes. */
  function ReplayPayload(f: Foreign, rec: Record): (r: Option<UpdateMyMemberProfileResponse>)
    ensures r.Some? ==> rec.statusCode == StatusOK && HasPrefix(rec.contentType, JSONContentType)
    ensures r.Some? ==> f.unmarshalResponse(rec.body) == r
    ensures rec.statusCode == StatusOK && HasPrefix(rec.contentType, JSONContentType) ==>
      r == f.unmarshalResponse(rec.body)
  {
    if rec.statusCode == StatusOK && HasPrefix(rec.contentType, JSONContentType) then
      f.unmarshalResponse(rec.body)
    else None
  }

  /** The reply to a failed update: member errors with status 404, 409 and 422 become those
      responses; any other failure is returned as an error. */
  function ServiceErrorReply(failure: Failure, requestId: string): (r: Reply)
    ensures r.NotFound404? <==> failure.AppFailure? && failure.err.status == 404
    ensures r.Conflict409? <==> failure.AppFailure? && failure.err.status == 409
    ensures r.Unprocessable422? <==> failure.AppFailure? && failure.err.status == 422
    ensures r.Failed? <==> !r.NotFound404? && !r.Conflict409? && !r.Unprocessable422?
    ensures r.Failed? ==> r.cause == ServiceFailed(failure)
    ensures !r.Failed? ==>
      r.err == OasError(failure.err.code, failure.err.message, failure.err.details, requestId)
    ensures !r.Ok200? && !r.Unauthorized401?
  {
    match failure
    case AppFailure(e) =>
      var body := OasError(e.code, e.message, e.details, requestId);
      if e.status == 404 then NotFound404(body)
      else if e.status == 409 then Conflict409(body)
      else if e.status == 422 then Unprocessable422(body)
      else Failed(ServiceFailed(failure))
    case OtherFailure(_) => Failed(ServiceFailed(failure))
  }

  /** The conflict reply for a reused key. */
  function KeyReuseReply(requestId: string): Reply {
    Conflict409(OasError("IDEMPOTENCY_KEY_REUSE", "idempotency key reuse with different payload", None, requestId))
  }

  // ---------------------------------------------------------------------------------------
  // The specification

  /** What a request leads to: the reply, the store's records afterwards (empty when there is
      no store), and whether the member service was called. */
  datatype Outcome = Outcome(reply: Reply, records: map<Fingerprint, Record>, invoked: bool)

  /** A request that gets as far as the idempotency check: it has a subject and a body, and
      its body can be hashed. */
  predicate Admitted(f: Foreign, req: UpdateRequest) {
    req.subject.Some? && req.body.Some? && HashUpdateMyMemberProfileBody(f, req.body.value).Some?
  }

  function HashOf(f: Foreign, req: UpdateRequest): (hash: string)
    requires Admitted(f, req)
    ensures |hash| == 64 && IsHex(hash)
  {
    HashUpdateMyMemberProfileBody(f, req.body.value).value
  }

  function MetaOf(req: UpdateRequest): Fingerprint
    requires req.subject.Some?
  {
    MetaFingerprint(req.idempotencyKey, req.subject.value)
  }

  function ResponseOf(f: Foreign, req: UpdateRequest): Fingerprint
    requires Admitted(f, req)
  {
    ResponseFingerprint(req.idempotencyKey, req.subject.value, HashOf(f, req))
  }

  /** The member input the service is called with. */
  function InputOf(req: UpdateRequest): UpdateMyMemberProfileInput
    requires req.body.Some?
  {
    UpdateMyMemberProfileInputFromOAS(req.body.value)
  }

  /** The handler's whole behaviour. */
  function Respond(f: Foreign, update: UpdateFn, store: Option<Backend>, req: UpdateRequest, now: int): (o: Outcome)
    ensures o.invoked ==> Admitted(f, req)
    ensures !Admitted(f, req) ==> !o.invoked && o.records == (if store.Some? then store.value.records else map[])
    ensures store.None? ==> o.records == map[]
  {
    var records := if store.Some? then store.value.records else map[];
    if req.subject.None? then
      Outcome(Unauthorized401(OasError("UNAUTHORIZED", "missing subject", None, req.requestId)), records, false)
    else if req.body.None? then
      Outcome(Unprocessable422(OasError("VALIDATION_ERROR", "missing request body", None, req.requestId)), records, false)
    else if HashUpdateMyMemberProfileBody(f, req.body.value).None? then
      Outcome(Failed(HashFailed), records, false)
    else if store.None? then
      Execute(f, update, None, req, now)
    else
      Deduplicate(f, update, store.value, req, now)
  }

  /** The idempotency check, with a store. */
  function Deduplicate(f: Foreign, update: UpdateFn, b: Backend, req: UpdateRequest, now: int): Outcome
    requires Admitted(f, req)
  {
    var hash, meta := HashOf(f, req), MetaOf(req);
    if meta in b.failingGets then
      Outcome(Failed(StoreGetFailed), b.records, false)
    else if meta in b.records && b.records[meta].body != AsciiBytes(hash) then
      Outcome(KeyReuseReply(req.requestId), b.records, false)
    else
      var claimed := if meta in b.records then b else b.(records := AfterPut(b, meta, MetaRecord(hash, now)));
      Replay(f, update, claimed, req, now)
  }

  /** With the key claimed for this body: replay a cached response, or run the update. */
  function Replay(f: Foreign, update: UpdateFn, b: Backend, req: UpdateRequest, now: int): Outcome
    requires Admitted(f, req)
  {
    var resp := ResponseOf(f, req);
    if resp in b.failingGets then
      Outcome(Failed(StoreGetFailed), b.records, false)
    else if resp in b.records && ReplayPayload(f, b.records[resp]).Some? then
      Outcome(Ok200(ReplayPayload(f, b.records[resp]).value), b.records, false)
    else
      Execute(f, update, Option.Some(b), req, now)
  }

  /** Run the update; cache a successful response when there is a store and it encodes. */
  function Execute(f: Foreign, update: UpdateFn, store: Option<Backend>, req: UpdateRequest, now: int): (o: Outcome)
    requires Admitted(f, req)
    ensures o.invoked
  {
    var records := if store.Some? then store.value.records else map[];
    match update(req.subject.value, InputOf(req))
    case Err(failure) => Outcome(ServiceErrorReply(failure, req.requestId), records, true)
    case Ok(m) =>
      var response := UpdateMyMemberProfileResponse(MemberProfileFromDomain(m));
      var encoded := f.marshalResponse(response);
      var cached :=
        if store.Some? && encoded.Some? then
          AfterPut(store.value, ResponseOf(f, req), ResponseRecord(encoded.value, now))
        else records;
      Outcome(Ok200(response), cached, true)
  }

  // ---------------------------------------------------------------------------------------
  // The handler

  class Server {
    const members: MemberService
    const idem: Store?
    const foreign: Foreign

    /** `NewServer`; the trip service is not used by this handler. */
    constructor (members: MemberService, idem: Store?, foreign: Foreign)
      ensures this.members == members && this.idem == idem && this.foreign == foreign
    {
      this.members := members;
      this.idem := idem;
      this.foreign := foreign;
    }

    /** `UpdateMyMemberProfile`, step by step: the reply, the store and the service's call log
        end up as `Respond` says. */
    method UpdateMyMemberProfile(req: UpdateRequest, now: int) returns (reply: Reply)
      modifies members, idem
      ensures
        var o := Respond(foreign, members.update, if idem == null then None else Option.Some(old(idem.State())), req, now);
        && reply == o.reply
        && (idem != null ==> idem.records == o.records)
        && members.calls == old(members.calls) + (if o.invoked then [(req.subject.value, InputOf(req))] else [])
    {
      ghost var store := if idem == null then None else Option.Some(idem.State());
      if req.subject.None? {
        return Unauthorized401(OasError("UNAUTHORIZED", "missing subject", None, req.requestId));
      }
      if req.body.None? {
        return Unprocessable422(OasError("VALIDATION_ERROR", "missing request body", None, req.requestId));
      }
      var sub, body := req.subject.value, req.body.value;
      var bodyHash := HashUpdateMyMemberProfileBody(foreign, body);
      if bodyHash.None? {
        return Failed(HashFailed);
      }
      var hash := bodyHash.value;
      var meta := MetaFingerprint(req.idempotencyKey, sub);
      assert Admitted(foreign, req) && hash == HashOf(foreign, req) && meta == MetaOf(req);
      // What is left to do once the store has had its say: the update, against this store.
      ghost var rest: Option<Backend> := None;
      if idem != null {
        ghost var b := idem.State();
        assert Respond(foreign, members.update, store, req, now) == Deduplicate(foreign, members.update, b, req, now);
        var metaRecord := idem.Get(meta);
        if metaRecord.Err? {
          return Failed(StoreGetFailed);
        }
        if metaRecord.value.Some? {
          if metaRecord.value.value.body != AsciiBytes(hash) {
            return KeyReuseReply(req.requestId);
          }
        } else {
          var ignored := idem.Put(meta, MetaRecord(hash, now));
        }
        ghost var claimed := idem.State();
        assert Respond(foreign, members.update, store, req, now) == Replay(foreign, members.update, claimed, req, now);
        var respFP := ResponseFingerprint(req.idempotencyKey, sub, hash);
        var cached := idem.Get(respFP);
        if cached.Err? {
          return Failed(StoreGetFailed);
        }
        if cached.value.Some? && cached.value.value.statusCode == StatusOK
          && HasPrefix(cached.value.value.contentType, JSONContentType)
        {
          var payload := foreign.unmarshalResponse(cached.value.value.body);
          if payload.Some? {
            return Ok200(payload.value);
          }
        }
        rest := Option.Some(claimed);
      }
      assert Respond(foreign, members.update, store, req, now) == Execute(foreign, members.update, rest, req, now);
      assert rest.Some? <==> idem != null;
      assert rest.Some? ==> rest.value == idem.State();

      var input := UpdateMyMemberProfileInputFromOAS(body);
      var updated := members.UpdateMyMemberProfile(sub, input);
      if updated.Err? {
        return ServiceErrorReply(updated.error, req.requestId);
      }
      var response := UpdateMyMemberProfileResponse(MemberProfileFromDomain(updated.value));
      if idem != null {
        var respFP := ResponseFingerprint(req.idempotencyKey, sub, hash);
        var encoded := foreign.marshalResponse(response);
        if encoded.Some? {
          var ignored := idem.Put(respFP, ResponseRecord(encoded.value, now));
        }
      }
      reply := Ok200(response);
    }
  }

  // ---------------------------------------------------------------------------------------
  // Properties

  /** The two fingerprints of a request differ, and only in the body hash: the hash is 64 hex
      digits, never the empty hash of the meta fingerprint. */
  lemma MetaAndResponseFingerprintsDiffer(f: Foreign, req: UpdateRequest)
    requires Admitted(f, req)
    ensures ResponseOf(f, req) != MetaOf(req)
    ensures ResponseOf(f, req) == MetaOf(req).(bodyHash := HashOf(f, req))
  {
  }

  /** A key claimed for another body: 409 `IDEMPOTENCY_KEY_REUSE`, the service is not called and
      the store is not written. */
  lemma KeyReuseIsRejected(f: Foreign, update: UpdateFn, b: Backend, req: UpdateRequest, now: int)
    requires Admitted(f, req)
    requires MetaOf(req) !in b.failingGets && MetaOf(req) in b.records
    requires b.records[MetaOf(req)].body != AsciiBytes(HashOf(f, req))
    ensures var o := Respond(f, update, Option.Some(b), req, now);
      o.reply == KeyReuseReply(req.requestId) && o.reply.err.code == "IDEMPOTENCY_KEY_REUSE" &&
      o.records == b.records && !o.invoked
  {
  }

  /** The first use of a key claims it: exactly one record is put under the meta fingerprint,
      with status 0, plain text and the body hash as its body; whatever follows leaves it so. */
  lemma FirstUseClaimsKey(f: Foreign, update: UpdateFn, b: Backend, req: UpdateRequest, now: int)
    requires Admitted(f, req)
    requires MetaOf(req) !in b.records && MetaOf(req) !in b.failingGets && MetaOf(req) !in b.failingPuts
    ensures var o := Respond(f, update, Option.Some(b), req, now);
      && MetaOf(req) in o.records
      && o.records[MetaOf(req)] == Record(0, "text/plain", AsciiBytes(HashOf(f, req)), now)
  {
    MetaAndResponseFingerprintsDiffer(f, req);
  }

  /** A cached 200 JSON response that decodes is replayed: the decoded response is returned,
      the service is not called, and nothing is written but the claim of a fresh key. */
  lemma ReplayServesCachedResponse(f: Foreign, update: UpdateFn, b: Backend, req: UpdateRequest, now: int)
    requires Admitted(f, req)
    requires MetaOf(req) !in b.failingGets && ResponseOf(f, req) !in b.failingGets
    requires MetaOf(req) in b.records ==> b.records[MetaOf(req)].body == AsciiBytes(HashOf(f, req))
    requires ResponseOf(f, req) in b.records
    requires ReplayPayload(f, b.records[ResponseOf(f, req)]).Some?
    ensures var o := Respond(f, update, Option.Some(b), req, now);
      && o.reply == Ok200(f.unmarshalResponse(b.records[ResponseOf(f, req)].body).value)
      && !o.invoked
      && o.records == (if MetaOf(req) in b.records then b.records
                       else AfterPut(b, MetaOf(req), MetaRecord(HashOf(f, req), now)))
  {
    MetaAndResponseFingerprintsDiffer(f, req);
  }

  /** What `Execute` writes with a store: nothing, or the encoded response of a successful
      update under the response fingerprint. */
  lemma ExecuteCachesOnlySuccess(f: Foreign, update: UpdateFn, b: Backend, req: UpdateRequest, now: int)
    requires Admitted(f, req)
    ensures var o := Execute(f, update, Option.Some(b), req, now);
      var resp := ResponseOf(f, req);
      && (forall k :: k != resp ==> (k in o.records <==> k in b.records) && (k in o.records ==> o.records[k] == b.records[k]))
      && (o.records != b.records ==>
            && o.reply.Ok200?
            && f.marshalResponse(o.reply.response).Some?
            && resp in o.records
            && o.records[resp] == ResponseRecord(f.marshalResponse(o.reply.response).value, now))
  {
  }

  /** Only success is cached. A request writes at most its two fingerprints; the response
      fingerprint only after a successful update, with the encoded response that is returned;
      a request that does not succeed writes at most the claim of its key. */
  lemma OnlySuccessIsCached(f: Foreign, update: UpdateFn, b: Backend, req: UpdateRequest, now: int)
    requires Admitted(f, req)
    ensures var o := Respond(f, update, Option.Some(b), req, now);
      var resp := ResponseOf(f, req);
      && (forall k :: k != MetaOf(req) && k != resp ==>
            (k in o.records <==> k in b.records) && (k in o.records ==> o.records[k] == b.records[k]))
      && (resp in o.records && (resp !in b.records || o.records[resp] != b.records[resp]) ==>
            && o.reply.Ok200?
            && o.invoked
            && f.marshalResponse(o.reply.response).Some?
            && o.records[resp] == ResponseRecord(f.marshalResponse(o.reply.response).value, now))
      && (!o.reply.Ok200? ==>
            (resp in o.records <==> resp in b.records) && (resp in o.records ==> o.records[resp] == b.records[resp]))
  {
    var hash, meta, resp := HashOf(f, req), MetaOf(req), ResponseOf(f, req);
    MetaAndResponseFingerprintsDiffer(f, req);
    var o := Respond(f, update, Option.Some(b), req, now);
    assert o == Deduplicate(f, update, b, req, now);
    if meta !in b.failingGets && !(meta in b.records && b.records[meta].body != AsciiBytes(hash)) {
      var claimed := if meta in b.records then b else b.(records := AfterPut(b, meta, MetaRecord(hash, now)));
      assert o == Replay(f, update, claimed, req, now);
      assert resp in claimed.records <==> resp in b.records;
      assert resp in claimed.records ==> claimed.records[resp] == b.records[resp];
      if resp !in claimed.failingGets && !(resp in claimed.records && ReplayPayload(f, claimed.records[resp]).Some?) {
        assert o == Execute(f, update, Option.Some(claimed), req, now);
        ExecuteCachesOnlySuccess(f, update, claimed, req, now);
      }
    }
  }

  /** A claim is written once: a record already stored under a fingerprint with an empty body
      hash (a meta fingerprint) survives every request unchanged. The handler claims a key only
      when no record is stored for it, and it caches responses under fingerprints whose body
      hash is never empty. */
  lemma ClaimsAreNeverOverwritten(f: Foreign, update: UpdateFn, b: Backend, req: UpdateRequest, now: int, fp: Fingerprint)
    requires fp in b.records && fp.bodyHash == ""
    ensures var o := Respond(f, update, Option.Some(b), req, now);
      fp in o.records && o.records[fp] == b.records[fp]
  {
    if Admitted(f, req) {
      MetaAndResponseFingerprintsDiffer(f, req);
      assert fp != ResponseOf(f, req);
      OnlySuccessIsCached(f, update, b, req, now);
      if fp == MetaOf(req) {
        var o := Respond(f, update, Option.Some(b), req, now);
        assert o == Deduplicate(f, update, b, req, now);
        if MetaOf(req) !in b.failingGets && b.records[fp].body == AsciiBytes(HashOf(f, req)) {
          assert o == Replay(f, update, b, req, now);
          var resp := ResponseOf(f, req);
          if resp !in b.failingGets && !(resp in b.records && ReplayPayload(f, b.records[resp]).Some?) {
            ExecuteCachesOnlySuccess(f, update, b, req, now);
          }
        }
      }
    }
  }

  /** A failing read aborts the request before the service is called. */
  lemma GetFailureAborts(f: Foreign, update: UpdateFn, b: Backend, req: UpdateRequest, now: int)
    requires Admitted(f, req)
    requires MetaOf(req) in b.failingGets || ResponseOf(f, req) in b.failingGets
    ensures var o := Respond(f, update, Option.Some(b), req, now);
      && !o.invoked
      && (o.reply == Failed(StoreGetFailed) || o.reply == KeyReuseReply(req.requestId))
      && (MetaOf(req) in b.failingGets ==> o.reply == Failed(StoreGetFailed) && o.records == b.records)
  {
  }

  /** The replay step looks only at the failing gets and the record under the response
      fingerprint: two stores that agree on those give the same reply and the same call. */
  lemma ReplayReadsOnlyResponseRecord(f: Foreign, update: UpdateFn, c1: Backend, c2: Backend, req: UpdateRequest, now: int)
    requires Admitted(f, req)
    requires c1.failingGets == c2.failingGets
    requires ResponseOf(f, req) in c1.records <==> ResponseOf(f, req) in c2.records
    requires ResponseOf(f, req) in c1.records ==> c1.records[ResponseOf(f, req)] == c2.records[ResponseOf(f, req)]
    ensures var o1, o2 := Replay(f, update, c1, req, now), Replay(f, update, c2, req, now);
      o1.reply == o2.reply && o1.invoked == o2.invoked
  {
  }

  /** Failing writes are ignored: whichever writes fail, the reply and whether the service runs
      stay the same. */
  lemma PutFailuresDoNotChangeReply(f: Foreign, update: UpdateFn, b: Backend, puts: set<Fingerprint>, req: UpdateRequest, now: int)
    ensures var o1, o2 := Respond(f, update, Option.Some(b), req, now), Respond(f, update, Option.Some(b.(failingPuts := puts)), req, now);
      o1.reply == o2.reply && o1.invoked == o2.invoked
  {
    if Admitted(f, req) {
      var hash, meta, resp := HashOf(f, req), MetaOf(req), ResponseOf(f, req);
      MetaAndResponseFingerprintsDiffer(f, req);
      var b2 := b.(failingPuts := puts);
      if meta !in b.failingGets && !(meta in b.records && b.records[meta].body != AsciiBytes(hash)) {
        var c1 := if meta in b.records then b else b.(records := AfterPut(b, meta, MetaRecord(hash, now)));
        var c2 := if meta in b2.records then b2 else b2.(records := AfterPut(b2, meta, MetaRecord(hash, now)));
        assert (resp in c1.records <==> resp in c2.records) && (resp in c1.records ==> c1.records[resp] == c2.records[resp]);
        ReplayReadsOnlyResponseRecord(f, update, c1, c2, req, now);
        assert Deduplicate(f, update, b, req, now) == Replay(f, update, c1, req, now);
        assert Deduplicate(f, update, b2, req, now) == Replay(f, update, c2, req, now);
      }
    }
  }

  /** Without a store every admitted request runs the update, and nothing is cached. */
  lemma NoStoreAlwaysExecutes(f: Foreign, update: UpdateFn, req: UpdateRequest, now: int)
    requires Admitted(f, req)
    ensures var o := Respond(f, update, None, req, now);
      && o.invoked
      && o.records == map[]
      && (update(req.subject.value, InputOf(req)).Ok? ==>
            o.reply == Ok200(UpdateMyMemberProfileResponse(MemberProfileFromDomain(update(req.subject.value, InputOf(req)).value))))
      && (update(req.subject.value, InputOf(req)).Err? ==>
            o.reply == ServiceErrorReply(update(req.subject.value, InputOf(req)).error, req.requestId))
  {
  }

  /** After a request that got past the key check and whose update succeeded, the store holds
      its claim and a cached response that replays as the reply it got, provided the store
      works and responses decode back to themselves. */
  lemma SuccessLeavesReplayableResponse(f: Foreign, update: UpdateFn, b: Backend, req: UpdateRequest, now: int)
    requires Admitted(f, req)
    requires b.failingGets == {} && b.failingPuts == {}
    requires MetaOf(req) in b.records ==> b.records[MetaOf(req)].body == AsciiBytes(HashOf(f, req))
    requires update(req.subject.value, InputOf(req)).Ok?
    requires forall r :: f.marshalResponse(r).Some? && f.unmarshalResponse(f.marshalResponse(r).value) == Option.Some(r)
    ensures var o := Respond(f, update, Option.Some(b), req, now);
      && o.reply.Ok200?
      && MetaOf(req) in o.records && o.records[MetaOf(req)].body == AsciiBytes(HashOf(f, req))
      && ResponseOf(f, req) in o.records
      && ReplayPayload(f, o.records[ResponseOf(f, req)]) == Option.Some(o.reply.response)
  {
    var hash, meta, resp := HashOf(f, req), MetaOf(req), ResponseOf(f, req);
    MetaAndResponseFingerprintsDiffer(f, req);
    var o := Respond(f, update, Option.Some(b), req, now);
    assert o == Deduplicate(f, update, b, req, now);
    var claimed := if meta in b.records then b else b.(records := AfterPut(b, meta, MetaRecord(hash, now)));
    assert o == Replay(f, update, claimed, req, now);
    assert meta in claimed.records && claimed.records[meta].body == AsciiBytes(hash);
    if !(resp in claimed.records && ReplayPayload(f, claimed.records[resp]).Some?) {
      assert o == Execute(f, update, Option.Some(claimed), req, now);
      var response := UpdateMyMemberProfileResponse(MemberProfileFromDomain(update(req.subject.value, InputOf(req)).value));
      assert o.reply == Ok200(response);
      assert o.records == AfterPut(claimed, resp, ResponseRecord(f.marshalResponse(response).value, now));
    }
  }

  /** A retry replays. After a request that got past the key check and whose update succeeded,
      a second request with the same key and subject and a body with the same canonical hash is
      answered with the same response, without calling the service and without writing,
      provided the store works and the cached response decodes back to itself. */
  lemma RetryReplays(f: Foreign, update: UpdateFn, b: Backend, req1: UpdateRequest, req2: UpdateRequest, now1: int, now2: int)
    requires Admitted(f, req1) && Admitted(f, req2)
    requires req2.subject == req1.subject && req2.idempotencyKey == req1.idempotencyKey
    requires HashOf(f, req2) == HashOf(f, req1)
    requires b.failingGets == {} && b.failingPuts == {}
    requires MetaOf(req1) in b.records ==> b.records[MetaOf(req1)].body == AsciiBytes(HashOf(f, req1))
    requires update(req1.subject.value, InputOf(req1)).Ok?
    requires forall r :: f.marshalResponse(r).Some? && f.unmarshalResponse(f.marshalResponse(r).value) == Option.Some(r)
    ensures
      var o1 := Respond(f, update, Option.Some(b), req1, now1);
      var o2 := Respond(f, update, Option.Some(b.(records := o1.records)), req2, now2);
      o2.reply == o1.reply && !o2.invoked && o2.records == o1.records
  {
    var o1 := Respond(f, update, Option.Some(b), req1, now1);
    SuccessLeavesReplayableResponse(f, update, b, req1, now1);
    assert MetaOf(req2) == MetaOf(req1) && ResponseOf(f, req2) == ResponseOf(f, req1);
    ReplayServesCachedResponse(f, update, b.(records := o1.records), req2, now2);
  }

  /** Once a request has claimed a key, a request with the same key and subject and a body with
      a different canonical hash is rejected with `IDEMPOTENCY_KEY_REUSE`, whatever the first
      request's outcome, and changes nothing. */
  lemma ConflictingRetryRejected(f: Foreign, update: UpdateFn, b: Backend, req1: UpdateRequest, req2: UpdateRequest, now1: int, now2: int)
    requires Admitted(f, req1) && Admitted(f, req2)
    requires req2.subject == req1.subject && req2.idempotencyKey == req1.idempotencyKey
    requires HashOf(f, req2) != HashOf(f, req1)
    requires MetaOf(req1) !in b.records && MetaOf(req1) !in b.failingGets && MetaOf(req1) !in b.failingPuts
    ensures
      var o1 := Respond(f, update, Option.Some(b), req1, now1);
      var o2 := Respond(f, update, Option.Some(b.(records := o1.records)), req2, now2);
      o2.reply == KeyReuseReply(req2.requestId) && !o2.invoked && o2.records == o1.records
  {
    var h1, h2 := HashOf(f, req1), HashOf(f, req2);
    FirstUseClaimsKey(f, update, b, req1, now1);
    assert AsciiBytes(h1) != AsciiBytes(h2) by {
      var i :| 0 <= i < 64 && h1[i] != h2[i];
      assert AsciiBytes(h1)[i] != AsciiBytes(h2)[i];
    }
  }

  /** So a retry that differs from the first request only in white space around the email is
      not a conflict: it replays the first response. */
  lemma EmailPaddingRetryReplays(f: Foreign, update: UpdateFn, b: Backend, req: UpdateRequest, pre: string, post: string, now1: int, now2: int)
    requires Admitted(f, req) && req.body.value.email.Some? && AllSpace(pre) && AllSpace(post)
    requires b.failingGets == {} && b.failingPuts == {}
    requires MetaOf(req) in b.records ==> b.records[MetaOf(req)].body == AsciiBytes(HashOf(f, req))
    requires update(req.subject.value, InputOf(req)).Ok?
    requires forall r :: f.marshalResponse(r).Some? && f.unmarshalResponse(f.marshalResponse(r).value) == Option.Some(r)
    ensures
      var body := req.body.value;
      var retry := req.(body := Option.Some(body.(email := Option.Some(pre + body.email.value + post))));
      var o1 := Respond(f, update, Option.Some(b), req, now1);
      var o2 := Respond(f, update, Option.Some(b.(records := o1.records)), retry, now2);
      o2.reply == o1.reply && !o2.invoked
  {
    var body := req.body.value;
    var retry := req.(body := Option.Some(body.(email := Option.Some(pre + body.email.value + post))));
    EmailPaddingHashesEqual(f, body, pre, post);
    RetryReplays(f, update, b, req, retry, now1, now2);
  }
}
