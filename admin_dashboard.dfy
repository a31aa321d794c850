// The administrator's screen: the department/status/search filter, the
// status and per-department counts, the status-change handler with its
// automatic award on resolution, the rating picker, and the resolution rate.

module AdminDashboard {
  import opened Types
  import opened Lists
  import opened Text
  import Departments
  import opened ComplaintStore
  import opened Tally

  // ---------------------------------------------------------------------
  // The combined filter
  // ---------------------------------------------------------------------

  /** The search box: the lower-cased term occurs in the lower-cased title or description. */
  predicate MatchesSearch(c: Complaint, searchTerm: string)
    ensures searchTerm == "" ==> MatchesSearch(c, searchTerm)
    ensures MatchesSearch(c, searchTerm) ==> |searchTerm| <= |c.title| || |searchTerm| <= |c.description|
  {
    Contains(ToLower(c.title), ToLower(searchTerm)) ||
    Contains(ToLower(c.description), ToLower(searchTerm))
  }

  /** The three conditions a listed complaint meets; `"all"` switches a selector off. */
  predicate MatchesFilters(c: Complaint, selectedDepartment: string, selectedStatus: string,
                           searchTerm: string)
    ensures selectedDepartment != "all" && MatchesFilters(c, selectedDepartment, selectedStatus, searchTerm) ==>
              c.department == selectedDepartment
    ensures selectedStatus != "all" && MatchesFilters(c, selectedDepartment, selectedStatus, searchTerm) ==>
              StatusName(c.status) == selectedStatus
    ensures selectedDepartment == "all" && selectedStatus == "all" && searchTerm == "" ==>
              MatchesFilters(c, selectedDepartment, selectedStatus, searchTerm)
  {
    && (selectedDepartment == "all" || c.department == selectedDepartment)
    && (selectedStatus == "all" || StatusName(c.status) == selectedStatus)
    && MatchesSearch(c, searchTerm)
  }

  /** The complaint list the administrator sees under the current selection and search. */
  function FilteredComplaints(cs: seq<Complaint>, selectedDepartment: string,
                              selectedStatus: string, searchTerm: string): (r: seq<Complaint>)
    ensures IsFilterOf(r, cs, (c: Complaint) =>
                                MatchesFilters(c, selectedDepartment, selectedStatus, searchTerm))
  {
    var keep := (c: Complaint) => MatchesFilters(c, selectedDepartment, selectedStatus, searchTerm);
    FilterSpec(cs, keep);
    Filter(cs, keep)
  }

  /** The initial selection (all departments, all statuses, no search) lists every complaint. */
  lemma UnfilteredShowsAll(cs: seq<Complaint>)
    ensures FilteredComplaints(cs, "all", "all", "") == cs
  {
    forall c | c in cs
      ensures MatchesFilters(c, "all", "all", "")
    {
      ContainsEmpty(ToLower(c.title));
    }
    FilterKeepsAll(cs, (c: Complaint) => MatchesFilters(c, "all", "all", ""));
  }

  /** The search does not depend on the case of the term. */
  lemma SearchIgnoresCase(c: Complaint, searchTerm: string)
    ensures MatchesSearch(c, searchTerm) == MatchesSearch(c, ToLower(searchTerm))
  {
    ToLowerIdempotent(searchTerm);
  }

  /**
   * The search holds exactly when the lower-cased term occurs at some
   * offset of the lower-cased title or of the lower-cased description.
   */
  lemma SearchMeansOccurrence(c: Complaint, searchTerm: string)
    ensures MatchesSearch(c, searchTerm) <==>
            (exists i :: OccursAt(ToLower(c.title), ToLower(searchTerm), i)) ||
            (exists i :: OccursAt(ToLower(c.description), ToLower(searchTerm), i))
  {
    ContainsAtOffset(ToLower(c.title), ToLower(searchTerm));
    ContainsAtOffset(ToLower(c.description), ToLower(searchTerm));
  }

  // ---------------------------------------------------------------------
  // Per-department counts
  // ---------------------------------------------------------------------

  datatype DepartmentStat = DepartmentStat(department: Department, count: nat)

  /** One entry per department of `ds`, in order, with the number of complaints filed under its name. */
  function CountsFor(cs: seq<Complaint>, ds: seq<Department>): (r: seq<DepartmentStat>)
    ensures |r| == |ds|
    ensures forall i :: 0 <= i < |ds| ==>
              r[i].department == ds[i] &&
              r[i].count == |Filter(cs, (c: Complaint) => c.department == ds[i].name)|
    decreases |ds|
  {
    if ds == [] then []
    else [DepartmentStat(ds[0], |Filter(cs, (c: Complaint) => c.department == ds[0].name)|)]
         + CountsFor(cs, ds[1..])
  }

  /**
   * The department overview: every department of the table, in order, with
   * the number of complaints the department getter returns for its name.
   */
  function DepartmentStats(cs: seq<Complaint>): (r: seq<DepartmentStat>)
    ensures |r| == |Departments.All|
    ensures forall i :: 0 <= i < |r| ==>
              r[i].department == Departments.All[i] &&
              r[i].count == |ByDepartment(cs, Departments.All[i].name)|
  {
    CountsFor(cs, Departments.All)
  }

  function SumCounts(stats: seq<DepartmentStat>): nat
    decreases |stats|
  {
    if stats == [] then 0 else stats[0].count + SumCounts(stats[1..])
  }

  /**
   * For departments with distinct names, the counts add up to the number of
   * complaints filed under one of those names.
   */
  lemma {:induction false} CountsForSum(cs: seq<Complaint>, ds: seq<Department>)
    requires Departments.Distinct(Departments.Names(ds))
    ensures SumCounts(CountsFor(cs, ds)) ==
            |Filter(cs, (c: Complaint) => c.department in Departments.Names(ds))|
    decreases |ds|
  {
    var inAll := (c: Complaint) => c.department in Departments.Names(ds);
    if ds == [] {
      FilterKeepsNone(cs, inAll);
    } else {
      var names, rest := Departments.Names(ds), Departments.Names(ds[1..]);
      assert names == [ds[0].name] + rest;
      assert Departments.Distinct(rest) by {
        forall i, j | 0 <= i < j < |rest| ensures rest[i] != rest[j] {
          assert rest[i] == names[i + 1] && rest[j] == names[j + 1];
        }
      }
      assert ds[0].name !in rest by {
        forall i | 0 <= i < |rest| ensures rest[i] != ds[0].name {
          assert rest[i] == names[i + 1] && ds[0].name == names[0];
        }
      }
      CountsForSum(cs, ds[1..]);
      FilterCountSplit(cs, inAll, (c: Complaint) => c.department == ds[0].name,
                       (c: Complaint) => c.department in rest);
    }
  }

  /**
   * When every complaint is filed under a department of the table (as the
   * complaint form guarantees), the department counts add up to the total.
   */
  lemma DepartmentStatsCoverAll(cs: seq<Complaint>)
    requires forall c :: c in cs ==> c.department in Departments.Names(Departments.All)
    ensures |DepartmentStats(cs)| == |Departments.All|
    ensures SumCounts(DepartmentStats(cs)) == |cs| == Tally.Count(cs).total
  {
    Departments.NamesDistinct();
    CountsForSum(cs, Departments.All);
    FilterKeepsAll(cs, (c: Complaint) => c.department in Departments.Names(Departments.All));
  }

  // ---------------------------------------------------------------------
  // Credits
  // ---------------------------------------------------------------------

  /** The table inside the status-change handler. */
  function StatusHandlerCredits(rating: Rating): (credits: int)
    ensures credits != 0
    ensures credits > 0 <==> rating != Fake
  {
    match rating
    case Excellent => 25
    case Good => 15
    case Poor => 5
    case Fake => -10
  }

  /** The table of the rating picker (and of the credit panel's legend). */
  function PickerCredits(rating: Rating): (credits: int)
    ensures credits != 0
    ensures credits > 0 <==> rating != Fake
  {
    match rating
    case Excellent => 50
    case Good => 25
    case Poor => 5
    case Fake => -100
  }

  /** The handler's table gives excellent 25, good 15, poor 5 and fake -10. */
  lemma StatusHandlerTable()
    ensures StatusHandlerCredits(Excellent) == 25 && StatusHandlerCredits(Good) == 15
    ensures StatusHandlerCredits(Poor) == 5 && StatusHandlerCredits(Fake) == -10
  {
  }

  /** The picker's table gives excellent 50, good 25, poor 5 and fake -100. */
  lemma PickerTable()
    ensures PickerCredits(Excellent) == 50 && PickerCredits(Good) == 25
    ensures PickerCredits(Poor) == 5 && PickerCredits(Fake) == -100
  {
  }

  /** The two tables agree on `poor` only. */
  lemma CreditTablesDisagree(rating: Rating)
    ensures StatusHandlerCredits(rating) == PickerCredits(rating) <==> rating == Poor
  {
  }

  /** Both tables order the ratings the same way, and neither ever gives 0. */
  lemma CreditTablesOrdered()
    ensures StatusHandlerCredits(Excellent) > StatusHandlerCredits(Good) > StatusHandlerCredits(Poor) > 0
    ensures 0 > StatusHandlerCredits(Fake)
    ensures PickerCredits(Excellent) > PickerCredits(Good) > PickerCredits(Poor) > 0
    ensures 0 > PickerCredits(Fake)
  {
  }

  /** The rating the status-change handler always uses. */
  const AutoRating: Rating := Good

  // ---------------------------------------------------------------------
  // The status-change handler
  // ---------------------------------------------------------------------

  /**
   * The handler awards credits when the new status is `resolved` and the
   * complaint `find` returns (in the table as it was before the change) has
   * no credits yet.
   */
  predicate AwardsOnStatusChange(cs: seq<Complaint>, id: string, newStatus: Status)
    ensures AwardsOnStatusChange(cs, id, newStatus) ==>
              newStatus == Resolved && exists c :: c in cs && c.id == id && NotYetCredited(c)
    ensures newStatus == Resolved && cs != [] && cs[0].id == id && NotYetCredited(cs[0]) ==>
              AwardsOnStatusChange(cs, id, newStatus)
  {
    newStatus == Resolved && FindById(cs, id).Some? && NotYetCredited(FindById(cs, id).value)
  }

  /**
   * The award condition in terms of positions: the new status is `resolved`
   * and the first entry with the id, wherever it stands, is uncredited.
   */
  lemma AwardsOnStatusChangeMeaning(cs: seq<Complaint>, id: string, newStatus: Status)
    ensures AwardsOnStatusChange(cs, id, newStatus) <==>
            newStatus == Resolved &&
            exists k :: 0 <= k < |cs| && cs[k].id == id && NoneBefore(cs, HasId(id), k) && NotYetCredited(cs[k])
  {
    var found := FindById(cs, id);
    if found.Some? {
      var k :| 0 <= k < |cs| && cs[k] == found.value && NoneBefore(cs, HasId(id), k);
      forall k' | 0 <= k' < |cs| && cs[k'].id == id && NoneBefore(cs, HasId(id), k')
        ensures cs[k'] == found.value
      {
        FirstIndexUnique(cs, HasId(id), k, k');
      }
    } else {
      forall k' | 0 <= k' < |cs| ensures cs[k'].id != id {
        assert cs[k'] in cs;
      }
    }
  }

  /** What the handler does to one entry with the given id. */
  function StatusEntryEffect(c: Complaint, newStatus: Status, now: Time, award: bool): Complaint
  {
    if award
    then c.(status := newStatus, updatedAt := now,
            creditsAwarded := Some(StatusHandlerCredits(AutoRating)), qualityRating := Some(AutoRating))
    else c.(status := newStatus, updatedAt := now)
  }

  /** The table after the administrator picks a new status for a complaint. */
  function StatusUpdateEffect(cs: seq<Complaint>, id: string, newStatus: Status, now: Time): (r: seq<Complaint>)
    ensures |r| == |cs|
    ensures forall i :: 0 <= i < |cs| ==> r[i].id == cs[i].id
    ensures forall i :: 0 <= i < |cs| && cs[i].id == id ==> r[i].status == newStatus
  {
    var award := AwardsOnStatusChange(cs, id, newStatus);
    seq(|cs|, i requires 0 <= i < |cs| =>
          if cs[i].id == id then StatusEntryEffect(cs[i], newStatus, now, award) else cs[i])
  }

  /**
   * The effect in words: the length and every other entry are kept; every
   * entry with the id gets the new status; and its credits and rating change
   * only on an award, to `good` and 15.
   */
  lemma StatusUpdateEffectMeaning(cs: seq<Complaint>, id: string, newStatus: Status, now: Time)
    ensures |StatusUpdateEffect(cs, id, newStatus, now)| == |cs|
    ensures forall i :: 0 <= i < |cs| && cs[i].id != id ==> StatusUpdateEffect(cs, id, newStatus, now)[i] == cs[i]
    ensures forall i :: 0 <= i < |cs| && cs[i].id == id ==>
              var r := StatusUpdateEffect(cs, id, newStatus, now)[i];
              && r.status == newStatus && r.updatedAt == now
              && (AwardsOnStatusChange(cs, id, newStatus) ==> r.creditsAwarded == Some(15) && r.qualityRating == Some(Good))
              && (!AwardsOnStatusChange(cs, id, newStatus) ==>
                    r.creditsAwarded == cs[i].creditsAwarded && r.qualityRating == cs[i].qualityRating)
  {
  }

  /** A complaint that already holds credits is never credited again by a status change. */
  lemma StatusUpdateNeverRecredits(cs: seq<Complaint>, id: string, newStatus: Status, now: Time)
    requires FindById(cs, id).Some? && !NotYetCredited(FindById(cs, id).value)
    ensures forall i :: 0 <= i < |cs| ==>
              StatusUpdateEffect(cs, id, newStatus, now)[i].creditsAwarded == cs[i].creditsAwarded &&
              StatusUpdateEffect(cs, id, newStatus, now)[i].qualityRating == cs[i].qualityRating
  {
  }

  /** Choosing the same status twice has the effect of choosing it once (at the later time). */
  lemma StatusUpdateIdempotent(cs: seq<Complaint>, id: string, newStatus: Status, t1: Time, t2: Time)
    ensures StatusUpdateEffect(StatusUpdateEffect(cs, id, newStatus, t1), id, newStatus, t2)
            == StatusUpdateEffect(cs, id, newStatus, t2)
  {
    var award := AwardsOnStatusChange(cs, id, newStatus);
    var once := StatusUpdateEffect(cs, id, newStatus, t1);
    FindByIdAfterChange(cs, once, id, (c: Complaint) => StatusEntryEffect(c, newStatus, t1, award));
    assert !AwardsOnStatusChange(once, id, newStatus);
    var twice, direct := StatusUpdateEffect(once, id, newStatus, t2), StatusUpdateEffect(cs, id, newStatus, t2);
    forall i | 0 <= i < |cs| ensures twice[i] == direct[i] {
      if cs[i].id == id {
        assert twice[i] == StatusEntryEffect(once[i], newStatus, t2, false);
        assert direct[i] == StatusEntryEffect(cs[i], newStatus, t2, award);
      }
    }
    assert twice == direct;
  }

  /** The status-change handler, with the current time as a parameter. */
  method HandleStatusUpdate(store: Store, complaintId: string, newStatus: Status, now: Time)
    modifies store
    ensures store.complaints == StatusUpdateEffect(old(store.complaints), complaintId, newStatus, now)
  {
    var snapshot := store.complaints;
    store.UpdateComplaint(complaintId, StatusChange(newStatus), now);
    var award := false;
    if newStatus == Resolved {
      var complaint := FindById(snapshot, complaintId);
      if complaint.Some? && NotYetCredited(complaint.value) {
        var rating := AutoRating;
        var credits := StatusHandlerCredits(rating);
        store.UpdateComplaint(complaintId, CreditChange(credits, rating), now);
        award := true;
      }
    }
    assert award == AwardsOnStatusChange(snapshot, complaintId, newStatus);
    forall i | 0 <= i < |snapshot| && snapshot[i].id == complaintId
      ensures store.complaints[i] == StatusEntryEffect(snapshot[i], newStatus, now, award)
    {
      MergeStatusChange(snapshot[i], newStatus, now);
      if award {
        MergeCreditChange(snapshot[i].(status := newStatus, updatedAt := now),
                          StatusHandlerCredits(AutoRating), AutoRating, now);
      }
    }
  }

  // ---------------------------------------------------------------------
  // The rating picker
  // ---------------------------------------------------------------------

  /** The picker is shown for a resolved complaint that has no credits yet. */
  predicate RatingPickerOffered(c: Complaint)
    ensures RatingPickerOffered(c) ==> c.status == Resolved
    ensures c.creditsAwarded.Some? && c.creditsAwarded.value != 0 ==> !RatingPickerOffered(c)
  {
    c.status == Resolved && NotYetCredited(c)
  }

  /**
   * The picker's change handler for the complaint it is rendered with:
   * writes the rating and the picker's credits together.
   */
  method RateFromPicker(store: Store, complaint: Complaint, rating: Rating, now: Time)
    requires RatingPickerOffered(complaint)
    modifies store
    ensures store.complaints == UpdateById(old(store.complaints), complaint.id,
                                           CreditChange(PickerCredits(rating), rating), now)
  {
    var credits := PickerCredits(rating);
    store.UpdateComplaint(complaint.id, CreditChange(credits, rating), now);
  }

  /** Once rated through the picker, a complaint is no longer offered the picker. */
  lemma PickerClosesAfterRating(c: Complaint, rating: Rating, now: Time)
    ensures !RatingPickerOffered(Merge(c, CreditChange(PickerCredits(rating), rating), now))
    ensures Merge(c, CreditChange(PickerCredits(rating), rating), now).qualityRating == Some(rating)
  {
  }

  /** After an automatic award, the complaint is no longer offered the picker. */
  lemma PickerClosedAfterAward(c: Complaint, newStatus: Status, now: Time)
    ensures !RatingPickerOffered(StatusEntryEffect(c, newStatus, now, true))
  {
  }

  // ---------------------------------------------------------------------
  // Resolution rate
  // ---------------------------------------------------------------------

  /**
   * The share of resolved complaints as a whole percentage, rounded to the
   * nearest integer with ties upward, in exact arithmetic; 0 for no complaints.
   */
  function ResolutionRate(stats: StatusCounts): (rate: int)
    ensures stats.total == 0 ==> rate == 0
    ensures stats.total > 0 ==>
              2 * rate * stats.total <= 200 * stats.resolved + stats.total < 2 * (rate + 1) * stats.total
  {
    if stats.total > 0 then (200 * stats.resolved + stats.total) / (2 * stats.total) else 0
  }

  /** Cancelling a positive factor keeps a strict inequality. */
  lemma CancelFactor(a: int, b: int, t: int)
    requires t > 0 && a * t < b * t
    ensures a < b
  {
  }

  /** Rounding keeps a share of at most the whole between 0 and 100 percent. */
  lemma RoundedShareBounds(rate: int, resolved: nat, total: nat)
    requires 0 < total && resolved <= total
    requires 2 * rate * total <= 200 * resolved + total < 2 * (rate + 1) * total
    ensures 0 <= rate <= 100
    ensures resolved == total ==> rate == 100
    ensures resolved == 0 ==> rate == 0
  {
    var t := 2 * total;
    assert 2 * rate * total == rate * t;
    assert 2 * (rate + 1) * total == (rate + 1) * t;
    CancelFactor(0, rate + 1, t);
    CancelFactor(rate, 101, t);
    if resolved == total {
      CancelFactor(100, rate + 1, t);
    }
    if resolved == 0 {
      CancelFactor(rate, 1, t);
    }
  }

  /** On the table's own counts the rate is a percentage: between 0 and 100. */
  lemma ResolutionRateBounds(cs: seq<Complaint>)
    ensures 0 <= ResolutionRate(Count(cs)) <= 100
    ensures Count(cs).resolved == Count(cs).total > 0 ==> ResolutionRate(Count(cs)) == 100
    ensures Count(cs).resolved == 0 ==> ResolutionRate(Count(cs)) == 0
  {
    var st := Count(cs);
    if st.total > 0 {
      RoundedShareBounds(ResolutionRate(st), st.resolved, st.total);
    }
  }
}
