// The records shared by every screen: users, complaints, departments, and
// the partial record that `updateComplaint` merges into a complaint.

module Types {

  /** An optional value: `None` stands for an absent (undefined) field. */
  datatype Option<+T> = None | Some(value: T)

  /** Milliseconds since the epoch, as `Date` values carry them. */
  type Time = int

  datatype Role = Citizen | Admin

  datatype Priority = Low | Medium | High | Urgent

  datatype Status = Submitted | InReview | InProgress | Resolved | Closed

  datatype Rating = Excellent | Good | Poor | Fake

  /** The string each status value has in the source (and in the status filter). */
  function StatusName(s: Status): string
  {
    match s
    case Submitted => "submitted"
    case InReview => "in-review"
    case InProgress => "in-progress"
    case Resolved => "resolved"
    case Closed => "closed"
  }

  datatype Coordinates = Coordinates(lat: real, lng: real)

  datatype Location = Location(address: string, coordinates: Option<Coordinates>)

  datatype User = User(
    id: string,
    name: string,
    email: string,
    role: Role,
    department: Option<string>,
    credits: int)

  datatype Complaint = Complaint(
    id: string,
    title: string,
    description: string,
    department: string,
    category: string,
    priority: Priority,
    status: Status,
    citizenId: string,
    citizenName: string,
    location: Option<Location>,
    attachments: seq<string>,
    createdAt: Time,
    updatedAt: Time,
    assignedTo: Option<string>,
    resolutionNotes: Option<string>,
    creditsAwarded: Option<int>,
    qualityRating: Option<Rating>)

  /** What `addComplaint` receives: a complaint without id and timestamps. */
  datatype ComplaintDraft = ComplaintDraft(
    title: string,
    description: string,
    department: string,
    category: string,
    priority: Priority,
    status: Status,
    citizenId: string,
    citizenName: string,
    location: Option<Location>,
    attachments: seq<string>,
    assignedTo: Option<string>,
    resolutionNotes: Option<string>,
    creditsAwarded: Option<int>,
    qualityRating: Option<Rating>)

  /** A partial complaint: every field may be absent (`None`). */
  datatype ComplaintUpdate = ComplaintUpdate(
    id: Option<string>,
    title: Option<string>,
    description: Option<string>,
    department: Option<string>,
    category: Option<string>,
    priority: Option<Priority>,
    status: Option<Status>,
    citizenId: Option<string>,
    citizenName: Option<string>,
    location: Option<Location>,
    attachments: Option<seq<string>>,
    createdAt: Option<Time>,
    updatedAt: Option<Time>,
    assignedTo: Option<string>,
    resolutionNotes: Option<string>,
    creditsAwarded: Option<int>,
    qualityRating: Option<Rating>)

  /** The update with no field present. */
  const NoChanges: ComplaintUpdate :=
    ComplaintUpdate(None, None, None, None, None, None, None, None, None,
                    None, None, None, None, None, None, None, None)

  /** The partial record that sets only the status. */
  function StatusChange(s: Status): ComplaintUpdate
  {
    NoChanges.(status := Some(s))
  }

  /** The partial record that sets only the credits and the rating. */
  function CreditChange(credits: int, rating: Rating): ComplaintUpdate
  {
    NoChanges.(creditsAwarded := Some(credits), qualityRating := Some(rating))
  }

  /**
   * The JavaScript test `!complaint.creditsAwarded`: true when the field is
   * absent and also when it holds 0.
   */
  predicate NotYetCredited(c: Complaint)
  {
    c.creditsAwarded.None? || c.creditsAwarded.value == 0
  }

  datatype Department = Department(
    id: string,
    name: string,
    icon: string,
    description: string,
    color: string)
}
