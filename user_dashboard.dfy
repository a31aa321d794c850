// The citizen's screen: their own complaints, the first three of them, the
// status summary, and the "view all" link.

module UserDashboard {
  import opened Types
  import opened Lists
  import opened Tally

  /** The signed-in user filed `c` (never true when nobody is signed in). */
  predicate FiledBy(c: Complaint, user: Option<User>)
  {
    user.Some? && c.citizenId == user.value.id
  }

  /** The complaints the signed-in user filed, in order. */
  function UserComplaints(cs: seq<Complaint>, user: Option<User>): (r: seq<Complaint>)
    ensures IsFilterOf(r, cs, (c: Complaint) => FiledBy(c, user))
    ensures user.None? ==> r == []
  {
    var mine := (c: Complaint) => FiledBy(c, user);
    FilterSpec(cs, mine);
    if user.None? then FilterKeepsNone(cs, mine); Filter(cs, mine)
    else Filter(cs, mine)
  }

  /** The number of complaints the recent list shows. */
  const RecentLimit: nat := 3

  /** The first three of the user's complaints (fewer if there are fewer). */
  function RecentComplaints(cs: seq<Complaint>, user: Option<User>): (r: seq<Complaint>)
    ensures r <= UserComplaints(cs, user)
    ensures |r| == if |UserComplaints(cs, user)| < RecentLimit then |UserComplaints(cs, user)| else RecentLimit
  {
    var mine := UserComplaints(cs, user);
    mine[..if |mine| < RecentLimit then |mine| else RecentLimit]
  }

  /** The link to the full list is shown when the user has more than three complaints. */
  predicate ShowsViewAll(cs: seq<Complaint>, user: Option<User>)
    ensures ShowsViewAll(cs, user) ==> user.Some? && |RecentComplaints(cs, user)| == RecentLimit
  {
    |UserComplaints(cs, user)| > 3
  }

  /** The link is shown exactly when the recent list leaves some of the user's complaints out. */
  lemma ViewAllWhenTruncated(cs: seq<Complaint>, user: Option<User>)
    ensures ShowsViewAll(cs, user) <==> |RecentComplaints(cs, user)| < |UserComplaints(cs, user)|
    ensures !ShowsViewAll(cs, user) ==> RecentComplaints(cs, user) == UserComplaints(cs, user)
  {
  }

  /** The status summary over the user's complaints. */
  function UserStatusCounts(cs: seq<Complaint>, user: Option<User>): (t: StatusCounts)
    ensures t.total == |UserComplaints(cs, user)|
    ensures t.pending + t.inProgress + t.resolved == t.total
    ensures user.None? ==> t == StatusCounts(0, 0, 0, 0)
  {
    Count(UserComplaints(cs, user))
  }

  /** A user's counts never exceed the whole table's. */
  lemma UserCountsWithinTable(cs: seq<Complaint>, user: Option<User>)
    ensures UserStatusCounts(cs, user).total <= Count(cs).total
    ensures UserStatusCounts(cs, user).pending <= Count(cs).pending
    ensures UserStatusCounts(cs, user).inProgress <= Count(cs).inProgress
    ensures UserStatusCounts(cs, user).resolved <= Count(cs).resolved
  {
    var mine := UserComplaints(cs, user);
    FilterSpec(cs, (c: Complaint) => FiledBy(c, user));
    SubseqFilterCount(mine, cs, IsPending);
    SubseqFilterCount(mine, cs, IsInProgress);
    SubseqFilterCount(mine, cs, IsDone);
    SubseqLength(mine, cs);
  }
}
