# East Bay Overland rally planner — verified model of the core

This project models, in Dafny, five parts of the rally planner's Go back end and proves
properties of them:

- **The idempotent `PATCH /members/me` handler** (`UpdateMyMemberProfile` in the HTTP adapter).
  A client may retry a profile update under the same `Idempotency-Key`. The handler hashes a
  canonical form of the body and reads a *meta* fingerprint (key, subject, `PATCH`,
  `/members/me`, empty body hash) from the idempotency store. If the key was claimed for
  another hash, it answers 409 `IDEMPOTENCY_KEY_REUSE`. On first use it claims the key. It
  then replays a cached 200 JSON response stored under the *response* fingerprint (the same
  fingerprint with the body hash), or runs the member update and caches the response only on
  success. `ProfileHandler.Respond` specifies this flow.
  `ProfileHandler.Server.UpdateMyMemberProfile` runs it step by step against a `Store` class
  (a map from fingerprint to record) and a member service that logs its calls. It is proved
  to match `Respond`, and the lemmas prove the properties of `Respond`: reuse is rejected,
  the first use claims the key, identical retries replay, only success is cached, read
  failures abort, write failures are ignored, and with no store the update always runs.
- **The canonicaliser and the tri-state mappers** (`HttpApi`). A display name sent with a
  value is normalised. An email and a group alias sent with a value are trimmed. A field that
  is left out or sent as null passes through as sent. Nullable fields become the member
  service's `Optional` patch instructions.
- **Trip visibility and projection** (`Trips`): who may see a trip, the single 404 for a trip
  that is missing or hidden, summaries and details, and the organizer lookup.
- **The in-memory trip repository** (`TripRepo`): a class over a map from trip ID to trip.
  The listings walk the map in an arbitrary order and sort the trips in place. They are
  proved to return exactly the specified listing `Listing(Selected(filter, byID))`. A
  uniqueness lemma shows that any order of visiting the map gives the same result.
- **The manual clock** (`Clock`) and **the application error value** (`Members`).

Go's `strings.TrimSpace`, `hex.EncodeToString`, `%d` formatting and string `<` are modelled
in `Text`. Go pointers that may be nil are `Option`s. Times are integers (nanoseconds).

How the handler's idempotency works, as the code does it:

- A failing store `Put` is ignored; the request goes on and can still succeed.
- Only a record with status 200, a JSON content type and a body that decodes is replayed.
  Any other cached record makes the handler run the update again.
- A key is claimed with a plain get followed by a put. There is no atomic insert-if-absent.
- An empty idempotency key is accepted like any other.

## Model

| member | source | states |
|---|---|---|
| Members.ErrorString | internal/app/members/errors.go:15-23 | the text is "<nil>" exactly for a nil error; without a code it is exactly "app error (status=", the status in decimal (which reads back), "): " and the message; with a code it is exactly the code, ": " and the message (prefix, length and suffix pin the whole text) |
| Members.WithDetails | internal/app/members/errors.go:25-37 | nil for a nil receiver; otherwise status, code and message are kept, and the details are a non-nil map holding exactly the argument's entries (empty for a nil argument) |
| Clock.ManualClock.constructor | internal/adapters/memory/clock/manual_clock.go:15-17 | a new clock reads the start time |
| Clock.ManualClock.Now | internal/adapters/memory/clock/manual_clock.go:19-23 | returns the current time and changes nothing |
| Clock.ManualClock.Set | internal/adapters/memory/clock/manual_clock.go:25-29 | afterwards the clock reads the given time |
| Clock.ManualClock.Add | internal/adapters/memory/clock/manual_clock.go:31-35 | afterwards the clock reads the previous time plus the duration |
| TripRepo.ContainsMember | internal/adapters/memory/triprepo/repo.go:107-112 | the search finds the caller exactly when the caller is in the organizer list |
| TripRepo.DraftVisibleTo | internal/adapters/memory/triprepo/repo.go:104-118 | a public draft is visible to its organizers, a private draft to its creator, any other draft to nobody |
| TripRepo.Keeps | internal/adapters/memory/triprepo/repo.go:66-69 | the loop keeps a trip exactly when the listing's filter selects it (published or canceled; or a draft visible to the caller) |
| TripRepo.BeforeIrreflexive | internal/adapters/memory/triprepo/repo.go:122-148 | no trip sorts before itself |
| TripRepo.BeforeTransitive | internal/adapters/memory/triprepo/repo.go:122-148 | the sort order is transitive |
| TripRepo.BeforeTotal | internal/adapters/memory/triprepo/repo.go:122-148 | two trips with different IDs are always ordered one way or the other |
| TripRepo.BeforeAsymmetric | internal/adapters/memory/triprepo/repo.go:122-148 | two trips are never each before the other |
| TripRepo.NotBeforeTransitive | internal/adapters/memory/triprepo/repo.go:122-148 | "not after" is transitive, which lets sortedness be extended one element at a time |
| TripRepo.Listing | internal/adapters/memory/triprepo/repo.go:120-149 | the listing of a set of trips is sorted and holds each trip of the set exactly once |
| TripRepo.SortedListingUnique | internal/adapters/memory/triprepo/repo.go:120-149 | with distinct IDs there is only one sorted arrangement, so listing output does not depend on map iteration order |
| TripRepo.SortTrips | internal/adapters/memory/triprepo/repo.go:120-149 | the array ends up sorted by start date (dated first), then creation time, then ID, and is a permutation of its input |
| TripRepo.Repo.constructor | internal/adapters/memory/triprepo/repo.go:19-23 | a new repository is empty |
| TripRepo.Repo.Create | internal/adapters/memory/triprepo/repo.go:25-37 | an empty or taken ID gives `ErrAlreadyExists` and changes nothing; otherwise exactly that key is added |
| TripRepo.Repo.Save | internal/adapters/memory/triprepo/repo.go:39-48 | an empty ID gives `ErrNotFound` and changes nothing; otherwise the trip is stored under its ID, replacing any earlier one |
| TripRepo.Repo.GetByID | internal/adapters/memory/triprepo/repo.go:50-59 | the stored trip when the ID is known, `ErrNotFound` otherwise |
| TripRepo.Repo.Collect | internal/adapters/memory/triprepo/repo.go:61-90 | walking the map in any order, filtering and sorting yields exactly the listing of the selected trips |
| TripRepo.Repo.ListPublishedAndCanceled | internal/adapters/memory/triprepo/repo.go:61-73 | exactly the published and canceled trips, each once, in listing order |
| TripRepo.Repo.ListDraftsVisibleTo | internal/adapters/memory/triprepo/repo.go:75-90 | exactly the drafts visible to the caller, each once, in listing order |
| TripRepo.ListingContents | internal/adapters/memory/triprepo/repo.go:61-90 | a trip is in a listing exactly when it is stored and selected, and then it occurs once |
| TripRepo.ListingOfDatedAndUndated | internal/adapters/httpapi/trips_handlers_test.go:113-156 | two dated trips by start date, then an undated one, whatever the creation times |
| TripRepo.ScenarioListing | internal/adapters/httpapi/trips_handlers_test.go:113-156 | the repository of the listing test lists t1, t2, t3 and leaves the draft out |
| Trips.TripVisibleToCaller | internal/app/trips/service.go:100-121 | a caller sees a trip exactly when the public listing or that caller's draft listing would show it |
| Trips.ListedTripsVisibleToAll | internal/app/trips/service.go:101-103 | published and canceled trips are visible to every caller |
| Trips.DraftVisibilityAgrees | internal/app/trips/service.go:104-117 | on drafts the service's rule equals the repository's draft rule: organizers of a public draft, the creator of a private one |
| Trips.VisibleIffListed | internal/app/trips/service.go:100-121 | a stored trip is visible to a caller exactly when it appears in one of the two listings |
| Trips.ToDomainSummary | internal/app/trips/service.go:123-142 | the summary copies the trip's fields and carries a draft visibility exactly when the trip is a draft |
| Trips.ToDomainDetails | internal/app/trips/service.go:144-158 | the details hold the summary and descriptive fields, no organizers, no artifacts, RSVP actions off and no RSVP data |
| Trips.MemberSummaryOf | internal/app/trips/service.go:90-95 | an organizer's summary copies ID, name, email and alias |
| Trips.Service.constructor | internal/app/trips/service.go:18-23 | the service holds the two repositories it is given |
| Trips.Service.LoadOrganizerSummaries | internal/app/trips/service.go:80-98 | succeeds exactly when every ID is known, with one summary per ID in input order; otherwise fails on the first unknown ID |
| Trips.Service.GetTripDetails | internal/app/trips/service.go:49-78 | the same 404 `TRIP_NOT_FOUND` for a missing and for a hidden trip; a visible trip whose organizers are all known always succeeds, with the details, organizers in order, artifacts copied, RSVP actions enabled exactly for published trips and no RSVP data; any other failure is the lookup failure of that trip's first unknown organizer |
| Trips.Service.ListVisibleTripsForMember | internal/app/trips/service.go:25-35 | one summary per listed trip, same length and order; all published or canceled and without a draft visibility |
| Trips.Service.ListMyDraftTrips | internal/app/trips/service.go:37-47 | one summary per listed draft, same length and order; all drafts carrying their draft visibility |
| Trips.Summaries | internal/app/trips/service.go:30-34 | the loop maps each trip to its summary, keeping length and order |
| Idempotency.Store.Get | internal/adapters/httpapi/server.go:201-202 | a failing read is an error; otherwise the record stored under the fingerprint, if any |
| Idempotency.Store.Put | internal/adapters/httpapi/server.go:208-213 | a failing write is an error and changes nothing; otherwise the record is stored under the fingerprint and nothing else changes |
| HttpApi.Canonicalize | internal/adapters/httpapi/server.go:599-619 | a display name with a value is normalised, an email and an alias with a value are trimmed, null and left-out fields and the vehicle profile are left as sent |
| HttpApi.HashUpdateMyMemberProfileBody | internal/adapters/httpapi/server.go:599-627 | fails exactly when the JSON encoding fails; otherwise 64 lower-case hex digits, never empty |
| HttpApi.HashDeterminesDigest | internal/adapters/httpapi/server.go:621-626 | two hashable bodies have the same hash exactly when the SHA-256 digests of their canonical JSON are equal (hex encoding loses nothing) |
| HttpApi.CanonicalizeIdempotent | internal/adapters/httpapi/server.go:599-619 | canonicalising a canonical body changes nothing (given an idempotent name normalisation) |
| HttpApi.HashOfCanonicalForm | internal/adapters/httpapi/server.go:599-627 | the canonical form of a body hashes like the body |
| HttpApi.EmailPaddingHashesEqual | internal/adapters/httpapi/server.go:609-612 | bodies differing only in white space around the email hash equal |
| HttpApi.GroupAliasPaddingHashesEqual | internal/adapters/httpapi/server.go:613-619 | bodies differing only in white space around the group alias hash equal |
| HttpApi.OptionalStringFromNullable | internal/adapters/httpapi/server.go:585-597 | left out gives Unspecified, null gives Null, a value v gives Some(v) |
| HttpApi.OptionalStringFromNullableInjective | internal/adapters/httpapi/server.go:585-597 | different nullable fields give different patch instructions |
| HttpApi.VehicleProfilePatchFromOAS | internal/adapters/httpapi/server.go:547-558 | each of the eight fields is patched as sent: left out leaves it alone, null clears it, a value sets it |
| HttpApi.UpdateMyMemberProfileInputFromOAS | internal/adapters/httpapi/server.go:560-583 | the email is Some(trimmed) when sent and Unspecified otherwise, never Null; the alias is trimmed, cleared by null; the vehicle profile is never cleared |
| HttpApi.SameCanonicalFormSameUpdate | internal/adapters/httpapi/server.go:560-619 | two bodies with the same canonical form ask for the same email, alias and vehicle changes and for names that normalise alike |
| HttpApi.CreateMyMemberInputFromOAS | internal/adapters/httpapi/server.go:117-134 | the alias is kept untrimmed when sent with a value, and is absent when left out or null |
| HttpApi.VehicleProfileFromDomain | internal/adapters/httpapi/server.go:518-545 | each of the eight fields is sent exactly when the profile has it, with its value, and never as null |
| HttpApi.ProfileAsPatchClearsNothing | internal/adapters/httpapi/server.go:518-558 | a vehicle profile sent back as a patch sets each field it has and clears none |
| HttpApi.NullableOf | internal/adapters/httpapi/server.go:479-485 | a present value is sent, an absent one is left out, never null |
| HttpApi.MemberProfileFromDomain | internal/adapters/httpapi/server.go:503-516 | the profile copies ID, name and email; the alias and the vehicle profile are sent exactly when present |
| HttpApi.IsMemberNotProvisioned | internal/adapters/httpapi/server.go:362-368 | true exactly for a member error with code `MEMBER_NOT_PROVISIONED` |
| HttpApi.OasError | internal/adapters/httpapi/server.go:370-381 | code and message copied; details sent exactly when given; request ID sent exactly when non-empty |
| ProfileHandler.MemberService.UpdateMyMemberProfile | internal/adapters/httpapi/server.go:228-229 | the update's outcome, with the call logged |
| ProfileHandler.ResponseFingerprint | internal/adapters/httpapi/server.go:216-217 | the meta fingerprint with the body hash set; different from it for a non-empty hash |
| ProfileHandler.ReplayPayload | internal/adapters/httpapi/server.go:220-224 | a record with status 200 and a JSON content type replays exactly what its body decodes to; any other record replays nothing |
| ProfileHandler.ServiceErrorReply | internal/adapters/httpapi/server.go:230-244 | member errors with status 404, 409, 422 become those replies with the error's code, message and details; every other failure is returned as an error |
| ProfileHandler.HashOf | internal/adapters/httpapi/server.go:188-191 | the hash of an admitted request is 64 hex digits |
| ProfileHandler.Respond | internal/adapters/httpapi/server.go:176-270 | the service runs only for a request with subject, body and a hashable body; a request stopped before that writes nothing |
| ProfileHandler.Execute | internal/adapters/httpapi/server.go:228-269 | the update always runs |
| ProfileHandler.Server.constructor | internal/adapters/httpapi/server.go:34-40 | the server holds the service, the store and the foreign code it is given |
| ProfileHandler.Server.UpdateMyMemberProfile | internal/adapters/httpapi/server.go:176-270 | the reply, the store's new records and the service's call log are those `Respond` gives for the old store |
| ProfileHandler.MetaAndResponseFingerprintsDiffer | internal/adapters/httpapi/server.go:193-217 | the two fingerprints differ, and only in the body hash |
| ProfileHandler.KeyReuseIsRejected | internal/adapters/httpapi/server.go:203-206 | a key claimed for another hash gets 409 `IDEMPOTENCY_KEY_REUSE`; the service is not called and the store not written |
| ProfileHandler.FirstUseClaimsKey | internal/adapters/httpapi/server.go:207-214 | on first use the meta fingerprint holds (0, "text/plain", the hash) afterwards |
| ProfileHandler.ReplayServesCachedResponse | internal/adapters/httpapi/server.go:218-225 | a cached 200 JSON record that decodes is returned decoded; the service is not called; nothing but the claim is written |
| ProfileHandler.ExecuteCachesOnlySuccess | internal/adapters/httpapi/server.go:228-267 | running the update writes nothing, or the encoded successful response under the response fingerprint |
| ProfileHandler.OnlySuccessIsCached | internal/adapters/httpapi/server.go:229-269 | a request writes at most its two fingerprints; the response fingerprint only after success, with the encoded response returned; a failed request leaves it untouched |
| ProfileHandler.ClaimsAreNeverOverwritten | internal/adapters/httpapi/server.go:200-214 | a record already stored under a meta fingerprint (empty body hash) survives every request unchanged |
| ProfileHandler.GetFailureAborts | internal/adapters/httpapi/server.go:200-202 | a failing read aborts before the service is called; a failing meta read also writes nothing |
| ProfileHandler.PutFailuresDoNotChangeReply | internal/adapters/httpapi/server.go:208-265 | whichever writes fail, the reply and whether the service runs are the same |
| ProfileHandler.NoStoreAlwaysExecutes | internal/adapters/httpapi/server.go:228-269 | without a store every admitted request runs the update, replies with its outcome and caches nothing |
| ProfileHandler.SuccessLeavesReplayableResponse | internal/adapters/httpapi/server.go:200-267 | after a successful request the store holds its claim and a cached response that replays as the reply it got |
| ProfileHandler.RetryReplays | internal/adapters/httpapi/server.go:185-267 | after a successful request, a retry with the same key, subject and canonical hash gets the same reply without calling the service or writing |
| ProfileHandler.ConflictingRetryRejected | internal/adapters/httpapi/server.go:201-214 | after a request claims a key, a request with the same key and a different hash is rejected and changes nothing |
| ProfileHandler.EmailPaddingRetryReplays | internal/adapters/httpapi/server.go:609-626 | a retry differing only in white space around the email replays the first response |

## Left out

- Locking (`sync.RWMutex`, `sync.Mutex`) and the concurrent clock test: the model is sequential. It makes no claim that claiming a key is atomic; two concurrent first uses of a key can both run the update.
- `time.Now()`: the handler takes the time as a parameter `now`, and both records of one request carry it. Go's two separate clock reads are not distinguished.
- Time values are integers. `time.Time` overflow and time zones are not modelled.
- SHA-256, `json.Marshal`, `json.Unmarshal` and `domain.NormalizeHumanName` are function values in `HttpApi.Foreign`, not definitions. `CanonicalizeIdempotent`, `HashOfCanonicalForm`, `RetryReplays`, `SuccessLeavesReplayableResponse` and `EmailPaddingRetryReplays` assume the properties of these functions that they need as preconditions.
- `middleware.GetReqID` is a `requestId` parameter. `SubjectFromContext` is the request's `subject` field.
- The member service (`members.Service`) is not part of this model. `ProfileHandler.MemberService` stands in for its profile update as a fixed function with a call log. The member repository used by the trip service is a fixed map from ID to member.
- The idempotency store's memory and Postgres backends are not part of this model. `Idempotency.Store` is a map, and its I/O failures are given as sets of fingerprints whose reads or writes fail.
- Trips.Service: the service is built over the in-memory trip repository, whose only error is not-found. The pass-through of other repository errors (internal/app/trips/service.go:26-28, 38-40, 55) therefore cannot happen in this model.
- `errors.As` unwrapping: a failure is either a member error or some other error. Wrapped errors are not modelled.
- `nullable.Nullable.Get` fails only for a field that is unspecified or null. The code calls it only after ruling out both, so its error branches cannot be reached here.
- `cloneTrip`, `cloneStringPtr`, `cloneIntPtr`, `cloneTimePtr` and `cloneLocationPtr` are the identity on values. Pointer aliasing and the protection these copies give are not modelled. The same holds for the receiver of `WithDetails`, which is a value here and so is trivially unchanged.
- `TripRepo.SortTrips`: `sort.Slice`'s algorithm is replaced by insertion sort. The order is total on distinct IDs, so any correct sort gives the same listing (`SortedListingUnique`).
- Latitude and longitude are opaque values that are only copied.
- The rest of the HTTP adapter is not modelled: `ListMembers`, `SearchMembers`, `GetMyMemberProfile`, the trip handlers, the trip response mappers (`tripSummaryFromDomain`, `tripDetailsFromDomain`, `locationFromDomain`, `nullableInt`, `nullableDate`), and the error-status switch and response of `CreateMyMember`. Only its input mapping (`CreateMyMemberInputFromOAS`) is modelled. These parts are routing and mapping around the modelled core.
- Routing, server start-up, Postgres helpers and the contract test wiring: plumbing outside the core.
