// The in-memory complaint table shared by every screen: `addComplaint`
// appends, `updateComplaint` merges a partial record into every entry with
// a given id, `awardCredits` writes a rating; the getters are filters.
// Ids and the current time are parameters (the source reads `Date.now()`
// and `new Date()`), and the great-circle distance is a parameter too.

module ComplaintStore {
  import opened Types
  import opened Lists

  /**
   * The record appended for a draft: its fields plus the id and the two
   * timestamps, each from its own reading of the clock.
   */
  function Stamp(draft: ComplaintDraft, id: string, createdAt: Time, updatedAt: Time): (c: Complaint)
    ensures c.id == id && c.createdAt == createdAt && c.updatedAt == updatedAt
  {
    Complaint(id, draft.title, draft.description, draft.department, draft.category,
              draft.priority, draft.status, draft.citizenId, draft.citizenName,
              draft.location, draft.attachments, createdAt, updatedAt, draft.assignedTo,
              draft.resolutionNotes, draft.creditsAwarded, draft.qualityRating)
  }

  /** The fields of a complaint that a draft supplies (everything but id and timestamps). */
  function DraftOf(c: Complaint): ComplaintDraft
  {
    ComplaintDraft(c.title, c.description, c.department, c.category, c.priority,
                   c.status, c.citizenId, c.citizenName, c.location, c.attachments,
                   c.assignedTo, c.resolutionNotes, c.creditsAwarded, c.qualityRating)
  }

  /** A stamped complaint carries every supplied field unchanged. */
  lemma StampKeepsDraft(draft: ComplaintDraft, id: string, createdAt: Time, updatedAt: Time)
    ensures DraftOf(Stamp(draft, id, createdAt, updatedAt)) == draft
  {
  }

  /** Every complaint is the stamp of its own draft fields, id and timestamps: stamping loses nothing. */
  lemma StampFromDraft(c: Complaint)
    ensures Stamp(DraftOf(c), c.id, c.createdAt, c.updatedAt) == c
  {
  }

  function Pick<T>(update: Option<T>, current: T): T
  {
    if update.Some? then update.value else current
  }

  function PickOptional<T>(update: Option<T>, current: Option<T>): Option<T>
  {
    if update.Some? then update else current
  }

  /** Spreads the partial record over the complaint: present fields of `u` win, `updatedAt` is refreshed. */
  function Merge(c: Complaint, u: ComplaintUpdate, now: Time): (r: Complaint)
    ensures r.updatedAt == now
  {
    Complaint(
      Pick(u.id, c.id), Pick(u.title, c.title), Pick(u.description, c.description),
      Pick(u.department, c.department), Pick(u.category, c.category),
      Pick(u.priority, c.priority), Pick(u.status, c.status),
      Pick(u.citizenId, c.citizenId), Pick(u.citizenName, c.citizenName),
      PickOptional(u.location, c.location), Pick(u.attachments, c.attachments),
      Pick(u.createdAt, c.createdAt), now,
      PickOptional(u.assignedTo, c.assignedTo),
      PickOptional(u.resolutionNotes, c.resolutionNotes),
      PickOptional(u.creditsAwarded, c.creditsAwarded),
      PickOptional(u.qualityRating, c.qualityRating))
  }

  /**
   * The spread field by field: a field present in `u` replaces the
   * complaint's, an absent one keeps it, and `updatedAt` is the merge time
   * even when `u` carries one.
   */
  lemma MergeFields(c: Complaint, u: ComplaintUpdate, now: Time)
    ensures var r := Merge(c, u, now);
            && r.id == (if u.id.Some? then u.id.value else c.id)
            && r.title == (if u.title.Some? then u.title.value else c.title)
            && r.description == (if u.description.Some? then u.description.value else c.description)
            && r.department == (if u.department.Some? then u.department.value else c.department)
            && r.category == (if u.category.Some? then u.category.value else c.category)
            && r.priority == (if u.priority.Some? then u.priority.value else c.priority)
            && r.status == (if u.status.Some? then u.status.value else c.status)
            && r.citizenId == (if u.citizenId.Some? then u.citizenId.value else c.citizenId)
            && r.citizenName == (if u.citizenName.Some? then u.citizenName.value else c.citizenName)
            && r.location == (if u.location.Some? then u.location else c.location)
            && r.attachments == (if u.attachments.Some? then u.attachments.value else c.attachments)
            && r.createdAt == (if u.createdAt.Some? then u.createdAt.value else c.createdAt)
            && r.updatedAt == now
            && r.assignedTo == (if u.assignedTo.Some? then u.assignedTo else c.assignedTo)
            && r.resolutionNotes == (if u.resolutionNotes.Some? then u.resolutionNotes else c.resolutionNotes)
            && r.creditsAwarded == (if u.creditsAwarded.Some? then u.creditsAwarded else c.creditsAwarded)
            && r.qualityRating == (if u.qualityRating.Some? then u.qualityRating else c.qualityRating)
  {
  }

  /** Merging an update with no fields only refreshes `updatedAt`. */
  lemma MergeNoChanges(c: Complaint, now: Time)
    ensures Merge(c, NoChanges, now) == c.(updatedAt := now)
  {
  }

  /** Merging `{ status }` changes the status and `updatedAt`, and nothing else. */
  lemma MergeStatusChange(c: Complaint, s: Status, now: Time)
    ensures Merge(c, StatusChange(s), now) == c.(status := s, updatedAt := now)
  {
  }

  /** Merging `{ creditsAwarded, qualityRating }` changes those two fields and `updatedAt` only. */
  lemma MergeCreditChange(c: Complaint, credits: int, rating: Rating, now: Time)
    ensures Merge(c, CreditChange(credits, rating), now)
            == c.(creditsAwarded := Some(credits), qualityRating := Some(rating), updatedAt := now)
  {
  }

  /** Merging the same partial record twice is merging it once (at the later time). */
  lemma MergeIdempotent(c: Complaint, u: ComplaintUpdate, t1: Time, t2: Time)
    ensures Merge(Merge(c, u, t1), u, t2) == Merge(c, u, t2)
  {
  }

  /** The table with `u` merged into every entry whose id is `id`; other entries are kept. */
  function UpdateById(cs: seq<Complaint>, id: string, u: ComplaintUpdate, now: Time): (r: seq<Complaint>)
    ensures |r| == |cs|
    ensures forall i :: 0 <= i < |cs| && cs[i].id != id ==> r[i] == cs[i]
    ensures forall i :: 0 <= i < |cs| && cs[i].id == id ==> r[i].updatedAt == now
  {
    seq(|cs|, i requires 0 <= i < |cs| => if cs[i].id == id then Merge(cs[i], u, now) else cs[i])
  }

  /**
   * An update keeps the length and order of the table, leaves every entry
   * with another id as it was, and merges into every entry with this id.
   */
  lemma UpdateByIdShape(cs: seq<Complaint>, id: string, u: ComplaintUpdate, now: Time)
    ensures |UpdateById(cs, id, u, now)| == |cs|
    ensures forall i :: 0 <= i < |cs| && cs[i].id != id ==> UpdateById(cs, id, u, now)[i] == cs[i]
    ensures forall i :: 0 <= i < |cs| && cs[i].id == id ==>
              UpdateById(cs, id, u, now)[i] == Merge(cs[i], u, now)
  {
  }

  /** An update for an id that no entry has changes nothing. */
  lemma UpdateByIdMissing(cs: seq<Complaint>, id: string, u: ComplaintUpdate, now: Time)
    requires forall c :: c in cs ==> c.id != id
    ensures UpdateById(cs, id, u, now) == cs
  {
  }

  /** The ids of the table are the same after an update that does not set `id`. */
  lemma UpdateByIdKeepsIds(cs: seq<Complaint>, id: string, u: ComplaintUpdate, now: Time)
    requires u.id.None?
    ensures forall i :: 0 <= i < |cs| ==> UpdateById(cs, id, u, now)[i].id == cs[i].id
  {
  }

  /** The test "this complaint has the id". */
  function HasId(id: string): Complaint -> bool
  {
    (c: Complaint) => c.id == id
  }

  /** The first entry with the id, as an array `find` returns it. */
  function FindById(cs: seq<Complaint>, id: string): (r: Option<Complaint>)
    ensures r.Some? ==> r.value in cs && r.value.id == id
    ensures r.None? <==> forall c :: c in cs ==> c.id != id
    ensures cs != [] && cs[0].id == id ==> r == Some(cs[0])
    ensures r.Some? ==> exists k :: 0 <= k < |cs| && cs[k] == r.value && NoneBefore(cs, HasId(id), k)
  {
    FindFirst(cs, HasId(id))
  }

  /**
   * `find` sees through an id-preserving change applied to every entry with
   * that id: it returns the changed first match.
   */
  lemma {:induction false} FindByIdAfterChange(cs: seq<Complaint>, cs': seq<Complaint>, id: string,
                                               f: Complaint -> Complaint)
    requires forall c :: f(c).id == c.id
    requires |cs'| == |cs|
    requires forall i :: 0 <= i < |cs| ==> cs'[i] == if cs[i].id == id then f(cs[i]) else cs[i]
    ensures FindById(cs', id) == if FindById(cs, id).Some? then Some(f(FindById(cs, id).value)) else None
    decreases |cs|
  {
    if cs != [] && cs[0].id != id {
      FindByIdAfterChange(cs[1..], cs'[1..], id, f);
    }
  }

  /** The complaints filed under a department name. */
  function ByDepartment(cs: seq<Complaint>, department: string): (r: seq<Complaint>)
    ensures IsFilterOf(r, cs, (c: Complaint) => c.department == department)
  {
    FilterSpec(cs, (c: Complaint) => c.department == department);
    Filter(cs, (c: Complaint) => c.department == department)
  }

  /** The complaints whose status has the given name. */
  function ByStatus(cs: seq<Complaint>, status: string): (r: seq<Complaint>)
    ensures IsFilterOf(r, cs, (c: Complaint) => StatusName(c.status) == status)
  {
    FilterSpec(cs, (c: Complaint) => StatusName(c.status) == status);
    Filter(cs, (c: Complaint) => StatusName(c.status) == status)
  }

  /** Radius of the proximity query when the caller gives none, in kilometres. */
  const DefaultRadiusKm: real := 5.0

  /**
   * The proximity test: the complaint has coordinates and the distance from
   * the user's point to them is at most the radius (inclusive).
   */
  predicate IsNearby(c: Complaint, distance: (real, real, real, real) -> real,
                     userLat: real, userLng: real, radiusKm: real)
    ensures IsNearby(c, distance, userLat, userLng, radiusKm) ==>
              c.location.Some? && c.location.value.coordinates.Some?
  {
    && c.location.Some?
    && c.location.value.coordinates.Some?
    && distance(userLat, userLng, c.location.value.coordinates.value.lat,
                c.location.value.coordinates.value.lng) <= radiusKm
  }

  /**
   * `getNearbyComplaints(userLat, userLng, radiusKm = 5)`, with the haversine
   * distance replaced by the parameter `distance`.
   */
  function Nearby(cs: seq<Complaint>, distance: (real, real, real, real) -> real,
                  userLat: real, userLng: real, radiusKm: real := DefaultRadiusKm): (r: seq<Complaint>)
    ensures IsFilterOf(r, cs, (c: Complaint) => IsNearby(c, distance, userLat, userLng, radiusKm))
    ensures forall c :: c in r ==> c.location.Some? && c.location.value.coordinates.Some?
  {
    FilterSpec(cs, (c: Complaint) => IsNearby(c, distance, userLat, userLng, radiusKm));
    Filter(cs, (c: Complaint) => IsNearby(c, distance, userLat, userLng, radiusKm))
  }

  /** A larger radius never drops a complaint, and keeps the smaller result's order. */
  lemma NearbyMonotone(cs: seq<Complaint>, distance: (real, real, real, real) -> real,
                       userLat: real, userLng: real, r1: real, r2: real)
    requires r1 <= r2
    ensures Subseq(Nearby(cs, distance, userLat, userLng, r1), Nearby(cs, distance, userLat, userLng, r2))
  {
    FilterMonotone(cs, (c: Complaint) => IsNearby(c, distance, userLat, userLng, r1),
                       (c: Complaint) => IsNearby(c, distance, userLat, userLng, r2));
  }

  /** A complaint exactly at the radius is included (the comparison is `<=`). */
  lemma NearbyRadiusInclusive(cs: seq<Complaint>, distance: (real, real, real, real) -> real,
                              userLat: real, userLng: real, c: Complaint)
    requires c in cs && c.location.Some? && c.location.value.coordinates.Some?
    ensures c in Nearby(cs, distance, userLat, userLng,
                        distance(userLat, userLng, c.location.value.coordinates.value.lat,
                                 c.location.value.coordinates.value.lng))
  {
  }

  /** The demonstration records the table starts with. */
  const MockComplaints: seq<Complaint> := [
    Complaint("1", "Pothole on Main Street", "Large pothole causing damage to vehicles",
              "Transportation", "Road Maintenance", High, InProgress, "1", "John Doe",
              Some(Location("123 Main St, Springfield", None)), [],
              1736467200000, 1736640000000, Some("Mike Johnson"), None, Some(25), Some(Good)),
    Complaint("2", "Broken Streetlight", "Streetlight not working for 3 days",
              "Utilities", "Lighting", Medium, Submitted, "2", "Jane Smith",
              Some(Location("456 Oak Ave, Springfield", None)), [],
              1736553600000, 1736553600000, None, None, Some(15), Some(Good)),
    Complaint("3", "Graffiti on Public Building", "Vandalism on city hall building needs cleaning",
              "Infrastructure", "Buildings", Low, Submitted, "3", "Alice Johnson",
              Some(Location("789 City Hall Plaza, Springfield", Some(Coordinates(39.7392, -104.9903)))), [],
              1736726400000, 1736726400000, None, None, None, None),
    Complaint("4", "Park Bench Needs Repair", "Broken bench in Central Park",
              "Environment", "Parks", Medium, InProgress, "4", "Bob Wilson",
              Some(Location("Central Park, Springfield", Some(Coordinates(39.7412, -104.9923)))), [],
              1736640000000, 1736726400000, None, None, Some(20), Some(Good))
  ]

  /** The complaint table: a list of records replaced wholesale by each operation. */
  class Store {
    var complaints: seq<Complaint>

    constructor ()
      ensures complaints == MockComplaints
    {
      complaints := MockComplaints;
    }

    /** Appends a complaint; the new id and the two clock readings are parameters. */
    method AddComplaint(draft: ComplaintDraft, id: string, createdAt: Time, updatedAt: Time)
      modifies this
      ensures complaints == old(complaints) + [Stamp(draft, id, createdAt, updatedAt)]
      ensures |complaints| == |old(complaints)| + 1
      ensures complaints[..|old(complaints)|] == old(complaints)
    {
      complaints := complaints + [Stamp(draft, id, createdAt, updatedAt)];
    }

    /** Merges a partial record into every entry with the id; the current time is a parameter. */
    method UpdateComplaint(id: string, updates: ComplaintUpdate, now: Time)
      modifies this
      ensures complaints == UpdateById(old(complaints), id, updates, now)
    {
      complaints := UpdateById(complaints, id, updates, now);
    }

    /**
     * `awardCredits(citizenId, credits, complaintId, rating)`: writes the
     * rating and the credits onto every entry with that id (without checking
     * for an earlier rating); no user's credit total is touched.
     */
    method AwardCredits(citizenId: string, credits: int, complaintId: string, rating: Rating, now: Time)
      modifies this
      ensures complaints == UpdateById(old(complaints), complaintId, CreditChange(credits, rating), now)
      ensures |complaints| == |old(complaints)|
      ensures forall i :: 0 <= i < |complaints| ==>
                complaints[i] == if old(complaints)[i].id == complaintId
                                 then old(complaints)[i].(creditsAwarded := Some(credits),
                                                          qualityRating := Some(rating),
                                                          updatedAt := now)
                                 else old(complaints)[i]
    {
      UpdateComplaint(complaintId, CreditChange(credits, rating), now);
    }
  }
}
