// The status summary both dashboards show: total, pending (submitted or in
// review), in progress, and resolved (resolved or closed).

module Tally {
  import opened Types
  import opened Lists

  predicate IsPending(c: Complaint)
  {
    c.status == Submitted || c.status == InReview
  }

  predicate IsInProgress(c: Complaint)
  {
    c.status == InProgress
  }

  predicate IsDone(c: Complaint)
  {
    c.status == Resolved || c.status == Closed
  }

  datatype StatusCounts = StatusCounts(total: nat, pending: nat, inProgress: nat, resolved: nat)

  /** The three buckets count every complaint exactly once. */
  lemma {:induction false} BucketsPartition(cs: seq<Complaint>)
    ensures |Filter(cs, IsPending)| + |Filter(cs, IsInProgress)| + |Filter(cs, IsDone)| == |cs|
    decreases |cs|
  {
    if cs != [] {
      BucketsPartition(cs[1..]);
    }
  }

  /**
   * The status summary of a list of complaints: its length and the size of
   * each bucket; the buckets add up to the total.
   */
  function Count(cs: seq<Complaint>): (t: StatusCounts)
    ensures t.total == |cs|
    ensures t.pending + t.inProgress + t.resolved == t.total
    ensures t.pending == |Filter(cs, IsPending)|
    ensures t.inProgress == |Filter(cs, IsInProgress)|
    ensures t.resolved == |Filter(cs, IsDone)|
  {
    BucketsPartition(cs);
    StatusCounts(|cs|, |Filter(cs, IsPending)|, |Filter(cs, IsInProgress)|, |Filter(cs, IsDone)|)
  }

  /** Adding a complaint raises the total by one and exactly one bucket by one. */
  lemma CountAppend(cs: seq<Complaint>, c: Complaint)
    ensures Count(cs + [c]).total == Count(cs).total + 1
    ensures Count(cs + [c]).pending == Count(cs).pending + (if IsPending(c) then 1 else 0)
    ensures Count(cs + [c]).inProgress == Count(cs).inProgress + (if IsInProgress(c) then 1 else 0)
    ensures Count(cs + [c]).resolved == Count(cs).resolved + (if IsDone(c) then 1 else 0)
  {
    FilterAppend(cs, [c], IsPending);
    FilterAppend(cs, [c], IsInProgress);
    FilterAppend(cs, [c], IsDone);
  }
}
