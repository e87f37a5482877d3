/** The trip service (`internal/app/trips/service.go`): who may see a trip, how stored trips
    are projected into summaries and details, and the organizer lookup. The member repository
    is not part of this model; it is a table from member ID to member, and a lookup of an ID
    missing from it fails. */
module Trips {
  import opened Wrappers
  import opened Domain
  import opened TripRepo

  /** `trips.Error`, as far as the service builds one, or the failure of a member lookup,
      which the service hands back unchanged. */
  datatype TripsError =
    | AppError(status: int, code: string, message: string)
    | MemberLookupFailed(id: MemberID)

  /** The one error for a trip that is missing and for a trip the caller may not see. */
  const TripNotFound: TripsError := AppError(404, "TRIP_NOT_FOUND", "trip not found")

  /** `isTripVisibleToCaller`: published and canceled trips are visible to everybody; a draft
      as `isDraftVisibleTo` says; a trip with any other status to nobody. */
  predicate IsTripVisibleToCaller(t: Trip, caller: MemberID) {
    match t.status
    case Published => true
    case Canceled => true
    case Draft => IsDraftVisibleTo(t, caller)
    case OtherStatus(_) => false
  }

  /** `isTripVisibleToCaller` as the code runs it, with its own search of the organizer list.
      A caller sees a trip exactly when one of the two listings would show it to them. */
  method TripVisibleToCaller(t: Trip, caller: MemberID) returns (visible: bool)
    ensures visible <==> Selects(PublishedOrCanceled, t) || Selects(DraftsVisibleTo(caller), t)
  {
    match t.status
    case Published => visible := true;
    case Canceled => visible := true;
    case Draft =>
      match t.draftVisibility {
        case Public => visible := ContainsMember(t.organizerMemberIDs, caller);
        case Private => visible := t.creatorMemberID == caller;
        case OtherVisibility(_) => visible := false;
      }
    case OtherStatus(_) => visible := false;
  }

  /** Published and canceled trips are visible to every caller. */
  lemma ListedTripsVisibleToAll(t: Trip, caller: MemberID)
    requires t.status == Published || t.status == Canceled
    ensures IsTripVisibleToCaller(t, caller)
  {
  }

  /** On drafts the service's rule and the repository's draft rule agree, and a draft is
      visible only through it: to the organizers of a public draft or the creator of a
      private one. */
  lemma DraftVisibilityAgrees(t: Trip, caller: MemberID)
    requires t.status == Draft
    ensures IsTripVisibleToCaller(t, caller) <==> IsDraftVisibleTo(t, caller)
    ensures IsTripVisibleToCaller(t, caller) <==>
      (t.draftVisibility == Public && caller in t.organizerMemberIDs) ||
      (t.draftVisibility == Private && t.creatorMemberID == caller)
  {
  }

  /** A stored trip is visible to a caller exactly when it appears in the public listing or in
      that caller's draft listing. */
  lemma VisibleIffListed(m: map<TripID, Trip>, t: Trip, caller: MemberID)
    requires t in m.Values
    ensures IsTripVisibleToCaller(t, caller) <==>
      t in Listing(Selected(PublishedOrCanceled, m)) || t in Listing(Selected(DraftsVisibleTo(caller), m))
  {
    ListingContents(PublishedOrCanceled, m, t);
    ListingContents(DraftsVisibleTo(caller), m, t);
  }

  /** `toDomainSummary`: the summary fields are copied; the draft visibility is present
      exactly on drafts. */
  function ToDomainSummary(t: Trip): (r: TripSummary)
    ensures r.id == t.id && r.status == t.status && r.name == t.name
    ensures r.startDate == t.startDate && r.endDate == t.endDate
    ensures r.capacityRigs == t.capacityRigs && r.attendingRigs == t.attendingRigs
    ensures r.draftVisibility.Some? <==> t.status == Draft
    ensures r.draftVisibility.Some? ==> r.draftVisibility.value == t.draftVisibility
  {
    TripSummary(
      t.id, t.name, t.status, t.startDate, t.endDate, t.capacityRigs, t.attendingRigs,
      if t.status == Draft then Some(t.draftVisibility) else None)
  }

  /** `toDomainDetails`: the summary plus the descriptive fields, with no organizers and no
      artifacts yet. */
  function ToDomainDetails(t: Trip): (r: TripDetails)
    ensures r.summary == ToDomainSummary(t)
    ensures r.description == t.description && r.difficultyText == t.difficultyText
    ensures r.meetingLocation == t.meetingLocation
    ensures r.commsRequirementsText == t.commsRequirementsText
    ensures r.recommendedRequirementsText == t.recommendedRequirementsText
    ensures r.organizers == [] && r.artifacts == []
    ensures !r.rsvpActionsEnabled && r.rsvpSummary.None? && r.myRSVP.None?
  {
    TripDetails(
      ToDomainSummary(t), t.description, t.difficultyText, t.meetingLocation,
      t.commsRequirementsText, t.recommendedRequirementsText, [], [], false, None, None)
  }

  /** The summary of an organizer. */
  function MemberSummaryOf(m: Member): (r: MemberSummary)
    ensures r.id == m.id && r.displayName == m.displayName
    ensures r.email == m.email && r.groupAliasEmail == m.groupAliasEmail
  {
    MemberSummary(m.id, m.displayName, m.email, m.groupAliasEmail)
  }

  /** The trip service with its two repositories. */
  class Service {
    const trips: Repo
    const members: map<MemberID, Member>

    /** `NewService`. */
    constructor (tripsRepo: Repo, membersRepo: map<MemberID, Member>)
      ensures trips == tripsRepo && members == membersRepo
    {
      trips := tripsRepo;
      members := membersRepo;
    }

    /** `loadOrganizerSummaries`: one summary per ID, in the order given, or the failure of the
        first ID the member repository does not know. */
    method LoadOrganizerSummaries(ids: seq<MemberID>) returns (r: Result<seq<MemberSummary>, TripsError>)
      ensures r.Ok? <==> forall i :: 0 <= i < |ids| ==> ids[i] in members
      ensures r.Ok? ==>
        && |r.value| == |ids|
        && forall i :: 0 <= i < |ids| ==> r.value[i] == MemberSummaryOf(members[ids[i]])
      ensures r.Err? ==>
        exists k ::
          && 0 <= k < |ids|
          && ids[k] !in members
          && r.error == MemberLookupFailed(ids[k])
          && forall i :: 0 <= i < k ==> ids[i] in members
    {
      if |ids| == 0 {
        return Ok([]);
      }
      var out: seq<MemberSummary> := [];
      for n := 0 to |ids|
        invariant |out| == n
        invariant forall i :: 0 <= i < n ==> ids[i] in members && out[i] == MemberSummaryOf(members[ids[i]])
      {
        var id := ids[n];
        if id !in members {
          return Err(MemberLookupFailed(id));
        }
        out := out + [MemberSummaryOf(members[id])];
      }
      r := Ok(out);
    }

    /** `GetTripDetails`: the same not-found error for a missing trip and for a trip the caller
        may not see; otherwise the details with the organizers looked up, the artifacts copied,
        RSVP actions enabled exactly on published trips and no RSVP data. */
    method GetTripDetails(caller: MemberID, tripID: TripID) returns (r: Result<TripDetails, TripsError>)
      requires trips.Valid()
      ensures tripID !in trips.byID || !IsTripVisibleToCaller(trips.byID[tripID], caller) ==>
        r == Err(TripNotFound)
      ensures r.Ok? ==> tripID in trips.byID && IsTripVisibleToCaller(trips.byID[tripID], caller)
      ensures r.Ok? ==>
        var t := trips.byID[tripID];
        && r.value.summary == ToDomainSummary(t)
        && r.value.description == t.description
        && r.value.difficultyText == t.difficultyText
        && r.value.meetingLocation == t.meetingLocation
        && r.value.commsRequirementsText == t.commsRequirementsText
        && r.value.recommendedRequirementsText == t.recommendedRequirementsText
        && |r.value.organizers| == |t.organizerMemberIDs|
        && (forall i :: 0 <= i < |t.organizerMemberIDs| ==>
              t.organizerMemberIDs[i] in members &&
              r.value.organizers[i] == MemberSummaryOf(members[t.organizerMemberIDs[i]]))
        && r.value.artifacts == t.artifacts
        && (r.value.rsvpActionsEnabled <==> t.status == Published)
        && r.value.rsvpSummary.None? && r.value.myRSVP.None?
      ensures
        && tripID in trips.byID
        && IsTripVisibleToCaller(trips.byID[tripID], caller)
        && (forall id :: id in trips.byID[tripID].organizerMemberIDs ==> id in members)
        ==> r.Ok?
      ensures r.Err? && r.error != TripNotFound ==>
        && tripID in trips.byID
        && IsTripVisibleToCaller(trips.byID[tripID], caller)
        && var ids := trips.byID[tripID].organizerMemberIDs;
           exists k ::
             && 0 <= k < |ids|
             && ids[k] !in members
             && r.error == MemberLookupFailed(ids[k])
             && forall i :: 0 <= i < k ==> ids[i] in members
    {
      var found := trips.GetByID(tripID);
      if found.Err? {
        return Err(TripNotFound);
      }
      var t := found.value;
      var visible := TripVisibleToCaller(t, caller);
      if !visible {
        return Err(TripNotFound);
      }
      var orgs := LoadOrganizerSummaries(t.organizerMemberIDs);
      if orgs.Err? {
        return Err(orgs.error);
      }
      var d := ToDomainDetails(t);
      d := d.(organizers := orgs.value, artifacts := t.artifacts);
      d := d.(rsvpActionsEnabled := d.summary.status == Published);
      d := d.(rsvpSummary := None, myRSVP := None);
      r := Ok(d);
    }

    /** `ListVisibleTripsForMember`: the public listing, trip by trip, as summaries; none of
        them carries a draft visibility. The caller plays no part. */
    method ListVisibleTripsForMember(caller: MemberID) returns (out: seq<TripSummary>)
      requires trips.Valid()
      ensures var listed := Listing(Selected(PublishedOrCanceled, trips.byID));
        |out| == |listed| && forall i :: 0 <= i < |out| ==> out[i] == ToDomainSummary(listed[i])
      ensures forall i :: 0 <= i < |out| ==>
        (out[i].status == Published || out[i].status == Canceled) && out[i].draftVisibility.None?
    {
      var ts := trips.ListPublishedAndCanceled();
      out := Summaries(ts);
      ListedStatuses(PublishedOrCanceled, trips.byID);
    }

    /** `ListMyDraftTrips`: the caller's draft listing, trip by trip, as summaries; each is a
        draft the caller may see and carries its draft visibility. */
    method ListMyDraftTrips(caller: MemberID) returns (out: seq<TripSummary>)
      requires trips.Valid()
      ensures var listed := Listing(Selected(DraftsVisibleTo(caller), trips.byID));
        |out| == |listed| && forall i :: 0 <= i < |out| ==> out[i] == ToDomainSummary(listed[i])
      ensures forall i :: 0 <= i < |out| ==> out[i].status == Draft && out[i].draftVisibility.Some?
    {
      var ts := trips.ListDraftsVisibleTo(caller);
      out := Summaries(ts);
      ListedStatuses(DraftsVisibleTo(caller), trips.byID);
    }
  }

  /** The loop both listing methods share: one summary per trip, in order. */
  method Summaries(ts: seq<Trip>) returns (out: seq<TripSummary>)
    ensures |out| == |ts| && forall i :: 0 <= i < |ts| ==> out[i] == ToDomainSummary(ts[i])
  {
    out := [];
    for n := 0 to |ts|
      invariant |out| == n && forall i :: 0 <= i < n ==> out[i] == ToDomainSummary(ts[i])
    {
      out := out + [ToDomainSummary(ts[n])];
    }
  }

  /** Every trip in a listing passes the listing's filter. */
  lemma ListedStatuses(f: Filter, m: map<TripID, Trip>)
    ensures forall i :: 0 <= i < |Listing(Selected(f, m))| ==> Selects(f, Listing(Selected(f, m))[i])
  {
    var l := Listing(Selected(f, m));
    forall i | 0 <= i < |l| ensures Selects(f, l[i]) {
      assert l[i] in multiset(l);
    }
  }
}
