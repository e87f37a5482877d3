/** The in-memory trip repository (`internal/adapters/memory/triprepo/repo.go`) together with
    the stored trip record of its port. The table is a map from trip ID to trip; the listing
    methods walk the map in whatever order it yields its keys and sort what they collect. */
module TripRepo {
  import opened Wrappers
  import opened Text
  import opened Domain

  /** The stored trip record (`triprepo.Trip`). */
  datatype Trip = Trip(
    id: TripID,
    status: TripStatus,
    draftVisibility: DraftVisibility,
    creatorMemberID: MemberID,
    organizerMemberIDs: seq<MemberID>,
    name: Option<string>,
    description: Option<string>,
    startDate: Option<int>,
    endDate: Option<int>,
    capacityRigs: Option<int>,
    attendingRigs: Option<int>,
    difficultyText: Option<string>,
    meetingLocation: Option<Location>,
    commsRequirementsText: Option<string>,
    recommendedRequirementsText: Option<string>,
    artifacts: seq<TripArtifact>,
    createdAt: int)

  datatype RepoError = ErrNotFound | ErrAlreadyExists

  /** `isDraftVisibleTo`: a PUBLIC draft is visible to its organizers, a PRIVATE draft to its
      creator, any other draft to nobody. */
  predicate IsDraftVisibleTo(t: Trip, caller: MemberID) {
    match t.draftVisibility
    case Public => caller in t.organizerMemberIDs
    case Private => t.creatorMemberID == caller
    case OtherVisibility(_) => false
  }

  /** The search `isDraftVisibleTo` runs over the organizer list. */
  method ContainsMember(ids: seq<MemberID>, caller: MemberID) returns (found: bool)
    ensures found <==> caller in ids
  {
    for i := 0 to |ids|
      invariant caller !in ids[..i]
    {
      if ids[i] == caller {
        return true;
      }
    }
    return false;
  }

  /** `isDraftVisibleTo` as the code runs it. */
  method DraftVisibleTo(t: Trip, caller: MemberID) returns (visible: bool)
    ensures visible <==> IsDraftVisibleTo(t, caller)
  {
    match t.draftVisibility
    case Public => visible := ContainsMember(t.organizerMemberIDs, caller);
    case Private => visible := t.creatorMemberID == caller;
    case OtherVisibility(_) => visible := false;
  }

  /** Which trips a listing keeps: the two listing methods differ only in this test. */
  datatype Filter = PublishedOrCanceled | DraftsVisibleTo(caller: MemberID)

  predicate Selects(f: Filter, t: Trip) {
    match f
    case PublishedOrCanceled => t.status == Published || t.status == Canceled
    case DraftsVisibleTo(caller) => t.status == Draft && IsDraftVisibleTo(t, caller)
  }

  /** The test inside the listing loops: `ListPublishedAndCanceled` checks the status,
      `ListDraftsVisibleTo` skips non-drafts and then runs `isDraftVisibleTo`. */
  method Keeps(f: Filter, t: Trip) returns (keep: bool)
    ensures keep <==> Selects(f, t)
  {
    match f
    case PublishedOrCanceled =>
      keep := t.status == Published || t.status == Canceled;
    case DraftsVisibleTo(caller) =>
      if t.status != Draft {
        return false;
      }
      keep := DraftVisibleTo(t, caller);
  }

  // ---------------------------------------------------------------------------------------
  // The order of listings

  /** The tie-breaker: earlier creation first, then the smaller ID. */
  predicate CreatedBefore(a: Trip, b: Trip) {
    if a.createdAt != b.createdAt then a.createdAt < b.createdAt else StrLess(a.id, b.id)
  }

  /** The `less` function `sortTrips` hands to `sort.Slice`: dated trips first, by start date;
      then undated trips; ties broken by creation time and then ID. */
  predicate Before(a: Trip, b: Trip) {
    match (a.startDate, b.startDate)
    case (Some(ad), Some(bd)) => if ad != bd then ad < bd else CreatedBefore(a, b)
    case (Some(_), None) => true
    case (None, Some(_)) => false
    case (None, None) => CreatedBefore(a, b)
  }

  /** No trip comes after a trip that follows it. */
  ghost predicate SortedTrips(s: seq<Trip>) {
    forall i, j :: 0 <= i < j < |s| ==> !Before(s[j], s[i])
  }

  lemma BeforeIrreflexive(a: Trip)
    ensures !Before(a, a)
  {
    StrLessIrreflexive(a.id);
  }

  lemma CreatedBeforeTransitive(a: Trip, b: Trip, c: Trip)
    requires CreatedBefore(a, b) && CreatedBefore(b, c)
    ensures CreatedBefore(a, c)
  {
    if a.createdAt == b.createdAt == c.createdAt {
      StrLessTransitive(a.id, b.id, c.id);
    }
  }

  lemma BeforeTransitive(a: Trip, b: Trip, c: Trip)
    requires Before(a, b) && Before(b, c)
    ensures Before(a, c)
  {
    if CreatedBefore(a, b) && CreatedBefore(b, c) {
      CreatedBeforeTransitive(a, b, c);
    }
  }

  /** Trips with different IDs are always ordered one way or the other. */
  lemma BeforeTotal(a: Trip, b: Trip)
    requires a.id != b.id
    ensures Before(a, b) || Before(b, a)
  {
    StrLessTotal(a.id, b.id);
  }

  lemma BeforeAsymmetric(a: Trip, b: Trip)
    requires Before(a, b)
    ensures !Before(b, a)
  {
    if Before(b, a) {
      BeforeTransitive(a, b, a);
      BeforeIrreflexive(a);
    }
  }

  /** "Not after" is transitive: whatever precedes `a` precedes `b` or follows `b`. */
  lemma NotBeforeTransitive(a: Trip, b: Trip, c: Trip)
    requires !Before(b, a) && !Before(c, b)
    ensures !Before(c, a)
  {
    if Before(c, a) {
      if a.id == b.id {
        StrLessIrreflexive(a.id);
        if b.id == c.id {
          StrLessIrreflexive(c.id);
        } else {
          StrLessTotal(b.id, c.id);
          if StrLess(b.id, c.id) { StrLessAsymmetric(b.id, c.id); }
        }
      } else {
        BeforeTotal(a, b);
        BeforeTransitive(c, a, b);
      }
    }
  }

  // ---------------------------------------------------------------------------------------
  // What a listing returns

  /** No two different trips in `s` share an ID. */
  ghost predicate UniqueIds(s: set<Trip>) {
    forall x, y :: x in s && y in s && x.id == y.id ==> x == y
  }

  lemma {:induction false} MinimalExists(s: set<Trip>)
    requires s != {}
    ensures exists m :: m in s && forall x :: x in s ==> !Before(x, m)
    decreases |s|
  {
    var y :| y in s;
    if s == {y} {
      BeforeIrreflexive(y);
    } else {
      MinimalExists(s - {y});
      var m :| m in s - {y} && forall x :: x in s - {y} ==> !Before(x, m);
      if Before(y, m) {
        forall x | x in s ensures !Before(x, y) {
          if x == y {
            BeforeIrreflexive(y);
          } else if Before(x, y) {
            BeforeTransitive(x, y, m);
          }
        }
      } else {
        assert forall x :: x in s ==> !Before(x, m);
      }
    }
  }

  /** The listing of a set of trips: its trips, each once, in the order of `Before`. */
  ghost function Listing(s: set<Trip>): (r: seq<Trip>)
    ensures SortedTrips(r) && multiset(r) == multiset(s)
    decreases |s|
  {
    if s == {} then []
    else
      MinimalExists(s);
      var m :| m in s && forall x :: x in s ==> !Before(x, m);
      var rest := Listing(s - {m});
      MinimalHeadSorted(m, rest, s - {m});
      assert multiset(s) == multiset{m} + multiset(s - {m});
      [m] + rest
  }

  /** A sorted sequence stays sorted with an element in front that nothing in it precedes. */
  lemma MinimalHeadSorted(m: Trip, rest: seq<Trip>, t: set<Trip>)
    requires SortedTrips(rest) && multiset(rest) == multiset(t)
    requires forall x :: x in t ==> !Before(x, m)
    ensures SortedTrips([m] + rest)
  {
    forall x | x in rest ensures !Before(x, m) {
      assert x in multiset(rest);
    }
  }

  lemma MultisetOfSetRemove(s: set<Trip>, m: Trip)
    requires m in s
    ensures multiset(s - {m}) == multiset(s) - multiset{m}
  {
  }

  /** In a sorted sequence nothing comes before its head. */
  lemma NothingBeforeHead(a: seq<Trip>, x: Trip)
    requires SortedTrips(a) && x in multiset(a) && x != a[0]
    ensures !Before(x, a[0])
  {
    var k :| 0 <= k < |a| && a[k] == x;
  }

  /** Two sorted arrangements of the same trips with distinct IDs start with the same trip. */
  lemma SameHead(a: seq<Trip>, b: seq<Trip>, s: set<Trip>)
    requires UniqueIds(s) && s != {}
    requires SortedTrips(a) && multiset(a) == multiset(s)
    requires SortedTrips(b) && multiset(b) == multiset(s)
    ensures |a| > 0 && |b| > 0 && a[0] == b[0]
  {
    assert |a| == |multiset(s)| == |b|;
    assert |s| > 0;
    assert a[0] in multiset(s) && b[0] in multiset(s);
    if a[0] != b[0] {
      NothingBeforeHead(a, b[0]);
      NothingBeforeHead(b, a[0]);
      BeforeTotal(a[0], b[0]);
      assert false;
    }
  }

  /** The listing of a non-empty set is its first trip followed by the listing of the rest. */
  lemma ListingUnfold(s: set<Trip>)
    requires s != {}
    ensures |Listing(s)| > 0 && Listing(s)[0] in s
    ensures Listing(s) == [Listing(s)[0]] + Listing(s - {Listing(s)[0]})
  {
  }

  /** Taking the head off a sorted arrangement of `s` leaves a sorted arrangement of the rest. */
  lemma SortedTail(a: seq<Trip>, s: set<Trip>)
    requires |a| > 0 && a[0] in s
    requires SortedTrips(a) && multiset(a) == multiset(s)
    ensures SortedTrips(a[1..]) && multiset(a[1..]) == multiset(s - {a[0]})
  {
    assert a == [a[0]] + a[1..];
    MultisetOfSetRemove(s, a[0]);
  }

  /** There is only one sorted arrangement of a set of trips with distinct IDs, so whatever
      order the map is walked in, the listing comes out the same. */
  lemma {:induction false} SortedListingUnique(a: seq<Trip>, s: set<Trip>)
    requires UniqueIds(s)
    requires SortedTrips(a) && multiset(a) == multiset(s)
    ensures a == Listing(s)
    decreases |s|
  {
    if s == {} {
      assert |a| == |multiset(a)| == 0;
    } else {
      var l := Listing(s);
      ListingUnfold(s);
      SameHead(a, l, s);
      var m := a[0];
      SortedTail(a, s);
      SortedListingUnique(a[1..], s - {m});
      assert a == [m] + a[1..];
    }
  }

  // ---------------------------------------------------------------------------------------
  // Sorting in place

  method Swap(a: array<Trip>, i: int, j: int)
    requires 0 <= i < a.Length && 0 <= j < a.Length
    modifies a
    ensures a[..] == old(a[..])[i := old(a[j])][j := old(a[i])]
    ensures multiset(a[..]) == multiset(old(a[..]))
  {
    a[i], a[j] := a[j], a[i];
  }

  /** `sortTrips`: sorts the slice in place by `Before`. The model sorts by insertion; as the
      order is total on distinct IDs, every correct sort gives the same result on a listing. */
  method SortTrips(a: array<Trip>)
    modifies a
    ensures SortedTrips(a[..])
    ensures multiset(a[..]) == multiset(old(a[..]))
  {
    var i := 0;
    while i < a.Length
      invariant 0 <= i <= a.Length
      invariant SortedTrips(a[..i])
      invariant multiset(a[..]) == multiset(old(a[..]))
    {
      var j := i;
      while j > 0 && Before(a[j], a[j - 1])
        invariant 0 <= j <= i
        invariant multiset(a[..]) == multiset(old(a[..]))
        invariant forall p, q :: 0 <= p < q <= i && p != j && q != j ==> !Before(a[q], a[p])
        invariant forall q :: j < q <= i ==> !Before(a[q], a[j])
      {
        BeforeAsymmetric(a[j], a[j - 1]);
        Swap(a, j - 1, j);
        j := j - 1;
      }
      forall p, q | 0 <= p < q <= i ensures !Before(a[q], a[p]) {
        if q == j && p < j - 1 {
          NotBeforeTransitive(a[p], a[j - 1], a[j]);
        }
      }
      i := i + 1;
    }
  }

  // ---------------------------------------------------------------------------------------
  // The repository

  /** The trips of `m` stored under the keys `ks` that the filter keeps. */
  ghost function SelectedAmong(f: Filter, m: map<TripID, Trip>, ks: set<TripID>): set<Trip> {
    set k | k in ks && k in m && Selects(f, m[k]) :: m[k]
  }

  /** The trips of the table that the filter keeps. */
  ghost function Selected(f: Filter, m: map<TripID, Trip>): set<Trip> {
    SelectedAmong(f, m, m.Keys)
  }

  /** Each trip is stored under its own, non-empty ID. */
  ghost predicate WellKeyed(m: map<TripID, Trip>) {
    "" !in m && forall k :: k in m ==> m[k].id == k
  }

  lemma SelectedUniqueIds(f: Filter, m: map<TripID, Trip>)
    requires WellKeyed(m)
    ensures UniqueIds(Selected(f, m))
  {
  }

  lemma SelectedAmongStep(f: Filter, m: map<TripID, Trip>, ks: set<TripID>, k: TripID)
    requires WellKeyed(m) && k in m && k !in ks
    ensures multiset(SelectedAmong(f, m, ks + {k})) ==
      multiset(SelectedAmong(f, m, ks)) + (if Selects(f, m[k]) then multiset{m[k]} else multiset{})
  {
    var before, after := SelectedAmong(f, m, ks), SelectedAmong(f, m, ks + {k});
    assert m[k] !in before;
    if Selects(f, m[k]) {
      assert after == before + {m[k]};
    } else {
      assert after == before;
    }
  }

  class Repo {
    var byID: map<TripID, Trip>

    ghost predicate Valid()
      reads this
    {
      WellKeyed(byID)
    }

    /** `NewRepo`. */
    constructor ()
      ensures Valid() && byID == map[]
    {
      byID := map[];
    }

    /** Adds a trip under a new, non-empty ID; refuses an empty or taken ID. */
    method Create(t: Trip) returns (err: Option<RepoError>)
      requires Valid()
      modifies this
      ensures Valid()
      ensures (t.id == "" || t.id in old(byID)) ==> err == Some(ErrAlreadyExists) && byID == old(byID)
      ensures t.id != "" && t.id !in old(byID) ==> err == None && byID == old(byID)[t.id := t]
    {
      if t.id == "" {
        return Some(ErrAlreadyExists);
      }
      if t.id in byID {
        return Some(ErrAlreadyExists);
      }
      byID := byID[t.id := t];
      err := None;
    }

    /** Stores a trip under its ID, replacing any trip stored there; refuses an empty ID. */
    method Save(t: Trip) returns (err: Option<RepoError>)
      requires Valid()
      modifies this
      ensures Valid()
      ensures t.id == "" ==> err == Some(ErrNotFound) && byID == old(byID)
      ensures t.id != "" ==> err == None && byID == old(byID)[t.id := t]
    {
      if t.id == "" {
        return Some(ErrNotFound);
      }
      byID := byID[t.id := t];
      err := None;
    }

    /** The trip stored under `id`, or `ErrNotFound`. */
    method GetByID(id: TripID) returns (r: Result<Trip, RepoError>)
      requires Valid()
      ensures r.Ok? <==> id in byID
      ensures r.Ok? ==> r.value == byID[id] && r.value.id == id
      ensures r.Err? ==> r.error == ErrNotFound
    {
      if id !in byID {
        return Err(ErrNotFound);
      }
      r := Ok(byID[id]);
    }

    /** The loop both listing methods share: walk the table in an arbitrary order, keep the
        trips the filter selects, then sort them. */
    method Collect(f: Filter) returns (out: seq<Trip>)
      requires Valid()
      ensures out == Listing(Selected(f, byID))
    {
      var acc: seq<Trip> := [];
      var pending := byID.Keys;
      while pending != {}
        invariant pending <= byID.Keys
        invariant multiset(acc) == multiset(SelectedAmong(f, byID, byID.Keys - pending))
        decreases pending
      {
        var k :| k in pending;
        SelectedAmongStep(f, byID, byID.Keys - pending, k);
        assert byID.Keys - (pending - {k}) == (byID.Keys - pending) + {k};
        var keep := Keeps(f, byID[k]);
        if keep {
          acc := acc + [byID[k]];
        }
        pending := pending - {k};
      }
      assert byID.Keys - pending == byID.Keys;
      var a := new Trip[|acc|](i requires 0 <= i < |acc| => acc[i]);
      assert a[..] == acc;
      SortTrips(a);
      out := a[..];
      SelectedUniqueIds(f, byID);
      SortedListingUnique(out, Selected(f, byID));
    }

    /** Every published or canceled trip, each once, in listing order. */
    method ListPublishedAndCanceled() returns (out: seq<Trip>)
      requires Valid()
      ensures out == Listing(Selected(PublishedOrCanceled, byID))
    {
      out := Collect(PublishedOrCanceled);
    }

    /** Every draft visible to `caller`, each once, in listing order. */
    method ListDraftsVisibleTo(caller: MemberID) returns (out: seq<Trip>)
      requires Valid()
      ensures out == Listing(Selected(DraftsVisibleTo(caller), byID))
    {
      out := Collect(DraftsVisibleTo(caller));
    }
  }

  /** A trip is in a listing exactly when it is stored and the filter keeps it, and then it
      occurs once. */
  lemma ListingContents(f: Filter, m: map<TripID, Trip>, t: Trip)
    ensures t in Listing(Selected(f, m)) <==> t in m.Values && Selects(f, t)
    ensures t in Listing(Selected(f, m)) ==> multiset(Listing(Selected(f, m)))[t] == 1
  {
    var l := Listing(Selected(f, m));
    assert t in l <==> t in multiset(l);
    if t in m.Values && Selects(f, t) {
      var k :| k in m && m[k] == t;
      assert t in Selected(f, m);
    }
  }

  /** The order the trip listing test expects: of two dated trips the earlier start comes first,
      and an undated trip comes after both, whatever their creation times. */
  lemma ListingOfDatedAndUndated(t1: Trip, t2: Trip, t3: Trip)
    requires t1.id == "t1" && t2.id == "t2" && t3.id == "t3"
    requires t1.startDate.Some? && t2.startDate.Some? && t1.startDate.value < t2.startDate.value
    requires t3.startDate.None?
    ensures Listing({t1, t2, t3}) == [t1, t2, t3]
  {
    var a := [t1, t2, t3];
    assert "t1" != "t2" && "t2" != "t3" && "t1" != "t3";
    assert multiset(a) == multiset({t1, t2, t3});
    SortedListingUnique(a, {t1, t2, t3});
  }

  lemma ScenarioListing(t1: Trip, t2: Trip, t3: Trip, t4: Trip)
    requires t1.id == "t1" && t2.id == "t2" && t3.id == "t3"
    requires t1.status == Published && t2.status == Canceled && t3.status == Published && t4.status == Draft
    requires t1.startDate.Some? && t2.startDate.Some? && t1.startDate.value < t2.startDate.value
    requires t3.startDate.None?
    ensures Listing(Selected(PublishedOrCanceled, map["t3" := t3, "t2" := t2, "t1" := t1, "t4" := t4])) == [t1, t2, t3]
  {
    var m := map["t3" := t3, "t2" := t2, "t1" := t1, "t4" := t4];
    assert m.Keys == {"t1", "t2", "t3", "t4"};
    assert m["t1"] == t1 && m["t2"] == t2 && m["t3"] == t3 && m["t4"] == t4;
    assert Selected(PublishedOrCanceled, m) == {t1, t2, t3};
    ListingOfDatedAndUndated(t1, t2, t3);
  }

  /** The listing test end to end: three listed trips and a draft stored in some order; the
      listing holds the three non-drafts, dated ones first. */
  method ListingScenario(t1: Trip, t2: Trip, t3: Trip, t4: Trip)
    requires t1.id == "t1" && t2.id == "t2" && t3.id == "t3" && t4.id == "t4"
    requires t1.status == Published && t2.status == Canceled && t3.status == Published && t4.status == Draft
    requires t1.startDate.Some? && t2.startDate.Some? && t1.startDate.value < t2.startDate.value
    requires t3.startDate.None?
  {
    var repo := new Repo();
    var e3 := repo.Create(t3);
    assert e3 == None && repo.byID == map["t3" := t3];
    var e2 := repo.Create(t2);
    assert e2 == None && repo.byID == map["t3" := t3, "t2" := t2];
    var e1 := repo.Create(t1);
    assert e1 == None && repo.byID == map["t3" := t3, "t2" := t2, "t1" := t1];
    var e4 := repo.Create(t4);
    assert e4 == None && repo.byID == map["t3" := t3, "t2" := t2, "t1" := t1, "t4" := t4];
    var out := repo.ListPublishedAndCanceled();
    ScenarioListing(t1, t2, t3, t4);
    assert out == [t1, t2, t3];
  }
}
