/** The domain types the core passes around. Their Go declarations are not part of this model;
    the fields are the ones the core reads and writes. Times are integers (nanoseconds since
    the Unix epoch) and optional Go pointers are `Option`s. */
module Domain {
  import opened Wrappers

  type MemberID = string
  type SubjectID = string
  type TripID = string

  /** A latitude or longitude; copied around, never computed with. */
  type Coordinate(==)

  /** The RSVP parts of a trip's details, which the core always leaves empty. */
  type RSVPSummary(==)
  type MyRSVP(==)

  /** A trip's status. Go stores it as a string, so values other than the three known ones can
      occur and are carried in `OtherStatus`. */
  datatype TripStatus = Draft | Published | Canceled | OtherStatus(raw: string)

  /** Who may see a draft; non-drafts usually carry the empty string, i.e. `OtherVisibility("")`. */
  datatype DraftVisibility = Public | Private | OtherVisibility(raw: string)

  datatype Location = Location(
    labelText: string,
    address: Option<string>,
    latitude: Option<Coordinate>,
    longitude: Option<Coordinate>)

  datatype TripArtifact = TripArtifact(artifactID: string, artifactType: string, title: string, url: string)

  datatype VehicleProfile = VehicleProfile(
    make: Option<string>,
    model: Option<string>,
    tireSize: Option<string>,
    liftLockers: Option<string>,
    fuelRange: Option<string>,
    recoveryGear: Option<string>,
    hamRadioCallSign: Option<string>,
    notes: Option<string>)

  datatype Member = Member(
    id: MemberID,
    subject: SubjectID,
    displayName: string,
    email: string,
    groupAliasEmail: Option<string>,
    vehicleProfile: Option<VehicleProfile>)

  datatype MemberSummary = MemberSummary(
    id: MemberID,
    displayName: string,
    email: string,
    groupAliasEmail: Option<string>)

  datatype TripSummary = TripSummary(
    id: TripID,
    name: Option<string>,
    status: TripStatus,
    startDate: Option<int>,
    endDate: Option<int>,
    capacityRigs: Option<int>,
    attendingRigs: Option<int>,
    draftVisibility: Option<DraftVisibility>)

  datatype TripDetails = TripDetails(
    summary: TripSummary,
    description: Option<string>,
    difficultyText: Option<string>,
    meetingLocation: Option<Location>,
    commsRequirementsText: Option<string>,
    recommendedRequirementsText: Option<string>,
    organizers: seq<MemberSummary>,
    artifacts: seq<TripArtifact>,
    rsvpActionsEnabled: bool,
    rsvpSummary: Option<RSVPSummary>,
    myRSVP: Option<MyRSVP>)
}
