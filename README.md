# Civic complaint tracker: complaint table and screen rules

This project models the logic of a citizen-complaint web application.
Citizens file complaints with municipal departments. Administrators filter
the complaints, change their status and award "civic credits". Everything
the application decides sits in a small in-memory complaint table and in the
rules its screens apply to that table:

- **Types** (`types.dfy`): the complaint, user and department records. It also
  holds the partial record that an update merges in: each field is an
  `Option`, and `None` means the key is absent.
- **Departments** (`departments.dfy`): the fixed department table and the
  lookup by id.
- **ComplaintStore** (`complaint_store.dfy`): the complaint table.
  - A class `Store` holds a `seq<Complaint>`. `AddComplaint`, `UpdateComplaint`
    and `AwardCredits` replace that sequence, as the React state setter does.
  - The getters are pure filters: by department, by status, and by proximity.
  - The proximity filter takes the distance function as a parameter.
  - New ids and the current time are parameters.
- **AdminDashboard** (`admin_dashboard.dfy`): the administrator's screen.
  - The department/status/search filter.
  - The per-department counts.
  - The status-change handler, with its automatic award when a complaint is resolved.
  - The rating picker.
  - The resolution rate.
  - The two credit tables, kept as two functions exactly as written. They
    disagree: the handler gives 25/15/5/-10 and the picker gives 50/25/5/-100.
- **UserDashboard** (`user_dashboard.dfy`): the citizen's screen.
  - The citizen's own complaints, and the first three of them.
  - The status summary.
  - When the "view all" link is shown.
- **Tally** (`tally.dfy`): the status summary both dashboards compute:
  pending, in progress and resolved. They use the same expression.
- **CreditSystem** (`credit_system.dfy`): the credit tier thresholds, and
  the rule that the panel is shown only to a signed-in citizen.
- **ComplaintForm** (`complaint_form.dfy`): the complaint form.
  - The categories offered for each department.
  - The record built when the form is submitted.
  - The list of captured photos.
- **Lists** (`lists.dfy`) and **Text** (`text.dfy`) are helpers.
  - Lists models `Array.prototype.filter`. Its specification `IsFilterOf`
    says the result is an order-preserving subsequence that keeps every
    accepted element exactly as often as the input has it, and nothing else.
    `FilterSpecUnique` proves that this specification determines the result.
  - Lists also models `Array.prototype.find` as `FindFirst`, the first
    element a predicate accepts. Both lookups by id (of complaints and of
    departments) are built on it.
  - Text models `toLowerCase` and `includes`.

Two facts about the code that the model keeps as written:

- **Re-rating.** `awardCredits` and `updateComplaint` overwrite the credits
  and the rating without any already-rated check. Only the screens hide the
  rating picker once a complaint has non-zero credits.
- **Credit tables.** The status-change handler
  (src/pages/AdminDashboard.tsx:41) and the rating picker
  (src/pages/AdminDashboard.tsx:232) use two different credit tables. Both
  are modelled.

## Model

| member | source | states |
|---|---|---|
| `Lists.Filter` | src/contexts/ComplaintContext.tsx:126 | the filtered list is no longer than its input and holds exactly the input's elements that satisfy the predicate |
| `Lists.FilterSpec` | src/contexts/ComplaintContext.tsx:126 | `filter` returns an order-preserving subsequence keeping each accepted element exactly as often as the input has it, and nothing else |
| `Lists.FilterSpecUnique` | src/contexts/ComplaintContext.tsx:126 | that description admits only one list, so every getter specified by it is fully determined |
| `Lists.FilterMonotone` | src/contexts/ComplaintContext.tsx:134-144 | filtering by a weaker predicate keeps every element the stronger one kept, in the same order |
| `Lists.FindFirst` | src/pages/AdminDashboard.tsx:37 | `find` returns the first element the predicate accepts (none before it does), or nothing exactly when no element is accepted |
| `Lists.FirstIndexUnique` | src/pages/AdminDashboard.tsx:37 | only one position can hold an accepted element with no accepted element before it |
| `Text.ToLower` | src/pages/AdminDashboard.tsx:15-16 | the result has the input's length and lower-cases each character on its own: A-Z map to a-z, everything else is kept |
| `Text.Contains` | src/pages/AdminDashboard.tsx:15-16 | a prefix of the string is contained in it, and a contained needle is never longer than the string |
| `Text.ContainsAtOffset` | src/pages/AdminDashboard.tsx:15-16 | `includes` holds exactly when the needle occurs at some offset of the string |
| `Text.ToLowerIdempotent` | src/pages/AdminDashboard.tsx:15-16 | lower-casing twice equals lower-casing once |
| `Departments.Find` | src/pages/ComplaintForm.tsx:16 | a department is found exactly when a table entry has the route's id, and then it is that entry; a missing id finds none |
| `Departments.NamesDistinct` | src/data/departments.ts:3-45 | the six department display names are pairwise different |
| `ComplaintStore.Stamp` | src/contexts/ComplaintContext.tsx:106-111 | the new record has the supplied id; `createdAt` and `updatedAt` are the two clock readings, which may differ |
| `ComplaintStore.StampKeepsDraft` | src/contexts/ComplaintContext.tsx:106-111 | the new record carries every supplied field unchanged |
| `ComplaintStore.StampFromDraft` | src/contexts/ComplaintContext.tsx:106-111 | every record is the stamp of its own fields, id and timestamps, so stamping loses nothing |
| `ComplaintStore.Store.constructor` | src/contexts/ComplaintContext.tsx:25-103 | the table starts with the four demonstration complaints |
| `ComplaintStore.Store.AddComplaint` | src/contexts/ComplaintContext.tsx:105-113 | the table grows by exactly one record at the end, stamped with the id and the two clock readings; all earlier entries are unchanged |
| `ComplaintStore.Merge` | src/contexts/ComplaintContext.tsx:119 | the merged record's `updatedAt` is the merge time |
| `ComplaintStore.MergeFields` | src/contexts/ComplaintContext.tsx:119 | each field present in the partial record replaces the complaint's, each absent one keeps it, and `updatedAt` is the merge time even when the partial record carries one |
| `ComplaintStore.MergeNoChanges` | src/contexts/ComplaintContext.tsx:119 | merging an update with no fields refreshes `updatedAt` and changes nothing else |
| `ComplaintStore.MergeStatusChange` | src/contexts/ComplaintContext.tsx:119 | merging `{status}` changes the status and `updatedAt` only |
| `ComplaintStore.MergeCreditChange` | src/contexts/ComplaintContext.tsx:119 | merging `{creditsAwarded, qualityRating}` changes those two fields and `updatedAt` only |
| `ComplaintStore.MergeIdempotent` | src/contexts/ComplaintContext.tsx:119 | merging the same partial record twice equals merging it once at the later time |
| `ComplaintStore.UpdateById` | src/contexts/ComplaintContext.tsx:116-121 | the table keeps its length, entries with other ids are unchanged, and every entry with the id carries the update time |
| `ComplaintStore.UpdateByIdShape` | src/contexts/ComplaintContext.tsx:116-121 | an update keeps length and order, leaves entries with other ids unchanged, and merges into every entry with the id |
| `ComplaintStore.UpdateByIdMissing` | src/contexts/ComplaintContext.tsx:117-120 | an update for an id no entry has leaves the table unchanged |
| `ComplaintStore.UpdateByIdKeepsIds` | src/contexts/ComplaintContext.tsx:116-121 | an update that does not set `id` keeps every entry's id |
| `ComplaintStore.Store.UpdateComplaint` | src/contexts/ComplaintContext.tsx:115-123 | the new table is the old one with the partial record merged into every entry with the id |
| `ComplaintStore.FindById` | src/pages/AdminDashboard.tsx:37 | `find` by id returns the first entry with the id (no earlier entry has it), or nothing exactly when no entry has the id |
| `ComplaintStore.FindByIdAfterChange` | src/pages/AdminDashboard.tsx:37 | after an id-preserving change to every entry with the id, `find` returns the changed first match |
| `ComplaintStore.ByDepartment` | src/contexts/ComplaintContext.tsx:125-127 | exactly the complaints with that department, in their original order |
| `ComplaintStore.ByStatus` | src/contexts/ComplaintContext.tsx:129-131 | exactly the complaints with that status, in their original order |
| `ComplaintStore.IsNearby` | src/contexts/ComplaintContext.tsx:134-143 | the proximity test never holds for a complaint without coordinates |
| `ComplaintStore.Nearby` | src/contexts/ComplaintContext.tsx:133-145 | exactly the complaints with coordinates within the radius (`<=`, default 5), in order; never one without coordinates |
| `ComplaintStore.NearbyMonotone` | src/contexts/ComplaintContext.tsx:133-145 | a larger radius never drops a complaint, and the smaller result is a subsequence of the larger |
| `ComplaintStore.NearbyRadiusInclusive` | src/contexts/ComplaintContext.tsx:143 | a complaint exactly at the radius is returned |
| `ComplaintStore.Store.AwardCredits` | src/contexts/ComplaintContext.tsx:147-153 | only `creditsAwarded`, `qualityRating` and `updatedAt` of entries with the id change; no earlier rating is checked; no user record is touched |
| `Tally.BucketsPartition` | src/pages/AdminDashboard.tsx:20-25 | every complaint falls in exactly one of pending, in progress, resolved |
| `Tally.Count` | src/pages/AdminDashboard.tsx:20-25 | `pending + inProgress + resolved = total = length`, each bucket counting its statuses |
| `Tally.CountAppend` | src/pages/AdminDashboard.tsx:20-25 | adding a complaint raises the total and exactly one bucket by one |
| `AdminDashboard.MatchesSearch` | src/pages/AdminDashboard.tsx:15-16 | an empty term matches every complaint; a match needs a title or description at least as long as the term |
| `AdminDashboard.MatchesFilters` | src/pages/AdminDashboard.tsx:12-18 | a selected department or status other than `all` must equal the complaint's; `all`, `all` and an empty term accept every complaint |
| `AdminDashboard.FilteredComplaints` | src/pages/AdminDashboard.tsx:12-18 | exactly the complaints matching department (or `all`), status (or `all`) and the case-insensitive search, in original order |
| `AdminDashboard.UnfilteredShowsAll` | src/pages/AdminDashboard.tsx:8-18 | with `all`, `all` and an empty search, the filtered list is the whole list |
| `AdminDashboard.SearchIgnoresCase` | src/pages/AdminDashboard.tsx:15-16 | the search result does not depend on the case of the term |
| `AdminDashboard.SearchMeansOccurrence` | src/pages/AdminDashboard.tsx:15-16 | the search matches exactly when the lower-cased term occurs in the lower-cased title or description |
| `AdminDashboard.CountsFor` | src/pages/AdminDashboard.tsx:27-30 | one entry per department, in table order, each counting the complaints filed under that department's name |
| `AdminDashboard.DepartmentStats` | src/pages/AdminDashboard.tsx:27-30 | one entry per table department, in table order, counting what the department getter returns for that department's name |
| `AdminDashboard.CountsForSum` | src/pages/AdminDashboard.tsx:27-30 | for distinct names, the counts add up to the number of complaints filed under one of them |
| `AdminDashboard.DepartmentStatsCoverAll` | src/pages/AdminDashboard.tsx:27-30 | when every complaint names a table department, the six counts add up to the total |
| `AdminDashboard.StatusHandlerCredits` | src/pages/AdminDashboard.tsx:41 | the handler's table never gives 0, and gives a positive amount exactly for a rating other than fake |
| `AdminDashboard.PickerCredits` | src/pages/AdminDashboard.tsx:232 | the picker's table never gives 0, and gives a positive amount exactly for a rating other than fake |
| `AdminDashboard.StatusHandlerTable` | src/pages/AdminDashboard.tsx:41 | the handler's table: excellent 25, good 15, poor 5, fake -10 |
| `AdminDashboard.PickerTable` | src/pages/AdminDashboard.tsx:232 | the picker's table: excellent 50, good 25, poor 5, fake -100 |
| `AdminDashboard.CreditTablesDisagree` | src/pages/AdminDashboard.tsx:41 | the handler's table and the picker's table (line 232) agree on `poor` only |
| `AdminDashboard.CreditTablesOrdered` | src/pages/AdminDashboard.tsx:232 | both tables rank excellent > good > poor > 0 > fake, so neither ever gives 0 |
| `AdminDashboard.AwardsOnStatusChange` | src/pages/AdminDashboard.tsx:36-38 | an award needs the new status `resolved` and an uncredited entry with the id |
| `AdminDashboard.AwardsOnStatusChangeMeaning` | src/pages/AdminDashboard.tsx:36-38 | an award happens exactly when the new status is `resolved` and the first entry with the id, at any position, is uncredited |
| `AdminDashboard.StatusUpdateEffect` | src/pages/AdminDashboard.tsx:32-45 | the table keeps its length and every id, and every entry with the id gets the new status |
| `AdminDashboard.StatusUpdateEffectMeaning` | src/pages/AdminDashboard.tsx:32-45 | the status is always written; credits and rating change only on resolution of an uncredited complaint, to 15 and `good`; other entries are unchanged |
| `AdminDashboard.StatusUpdateNeverRecredits` | src/pages/AdminDashboard.tsx:36-43 | a complaint with non-zero credits keeps its credits and rating through any status change |
| `AdminDashboard.StatusUpdateIdempotent` | src/pages/AdminDashboard.tsx:32-45 | choosing the same status twice has the effect of choosing it once |
| `AdminDashboard.HandleStatusUpdate` | src/pages/AdminDashboard.tsx:32-45 | the two successive table updates produce exactly that effect; the award test reads the table as it was before the change |
| `AdminDashboard.RatingPickerOffered` | src/pages/AdminDashboard.tsx:228 | the picker is offered only for a resolved complaint, and never for one holding non-zero credits |
| `AdminDashboard.RateFromPicker` | src/pages/AdminDashboard.tsx:228-234 | offered only for resolved, uncredited complaints; writes the picker's credits and the rating together |
| `AdminDashboard.PickerClosesAfterRating` | src/pages/AdminDashboard.tsx:228-233 | after a picker rating the complaint holds that rating and is no longer offered the picker |
| `AdminDashboard.PickerClosedAfterAward` | src/pages/AdminDashboard.tsx:38-42 | after the automatic award the complaint is no longer offered the picker |
| `AdminDashboard.ResolutionRate` | src/pages/AdminDashboard.tsx:295 | 0 with no complaints, otherwise the resolved percentage rounded to the nearest integer, ties upward |
| `AdminDashboard.ResolutionRateBounds` | src/pages/AdminDashboard.tsx:295 | the rate lies in 0..100; it is 100 when all complaints are resolved and 0 when none are |
| `UserDashboard.UserComplaints` | src/pages/UserDashboard.tsx:23 | exactly the complaints whose citizen id is the signed-in user's, in order; empty when nobody is signed in |
| `UserDashboard.RecentComplaints` | src/pages/UserDashboard.tsx:24 | the first min(3, n) of the user's complaints |
| `UserDashboard.ShowsViewAll` | src/pages/UserDashboard.tsx:176 | the "view all" link is shown only when a user is signed in, and then the recent list is full |
| `UserDashboard.ViewAllWhenTruncated` | src/pages/UserDashboard.tsx:176 | the "view all" link is shown exactly when the recent list leaves some of the user's complaints out |
| `UserDashboard.UserStatusCounts` | src/pages/UserDashboard.tsx:26-31 | `pending + inProgress + resolved = total` over the user's complaints; all zero when nobody is signed in |
| `UserDashboard.UserCountsWithinTable` | src/pages/UserDashboard.tsx:23-31 | each of the user's counts is at most the whole table's |
| `CreditSystem.GetCreditLevel` | src/components/CreditSystem.tsx:10-15 | Gold at 500 or more, Silver for 250..499, Bronze for 100..249, New below 100 (negatives included) |
| `CreditSystem.LevelIsHighestReached` | src/components/CreditSystem.tsx:10-15 | the tier is the highest one whose threshold the credits reach |
| `CreditSystem.LevelMonotone` | src/components/CreditSystem.tsx:10-15 | more credits never give a lower tier |
| `CreditSystem.SeedIsBronze` | src/contexts/AuthContext.tsx:160 | a new citizen's 100 seed credits classify as Bronze |
| `CreditSystem.CreditPanel` | src/components/CreditSystem.tsx:8-17 | a tier is shown exactly when a user is signed in with role citizen, and it is that user's tier |
| `ComplaintForm.CategoryOptionsCoverIds` | src/pages/ComplaintForm.tsx:28-35 | the category table has an entry for exactly the ids of the department table, each with at least four choices |
| `ComplaintForm.CategoriesFor` | src/pages/ComplaintForm.tsx:28-35 | options exist exactly for the ids of the department table, and they are the list the category table holds for that id (the lookup of line 152), of at least four entries; unknown or missing ids give none |
| `ComplaintForm.InitialFormDefaults` | src/pages/ComplaintForm.tsx:20-26 | the form opens with priority medium and every text empty |
| `ComplaintForm.BuildDraft` | src/pages/ComplaintForm.tsx:44-55 | status submitted, no attachments, the department's display name, the user's id and name; a location exactly when the location text is non-empty, with that text as its address |
| `ComplaintForm.SubmittedComplaintIsPending` | src/pages/ComplaintForm.tsx:44-55 | a submitted complaint is pending, is filed under a table department name, and is not offered the rating picker |
| `ComplaintForm.HandleSubmit` | src/pages/ComplaintForm.tsx:37-55 | called only once the required title, category and description are filled in (lines 132, 146, 190); adds the built record only when a user is signed in and the department id is known, otherwise the table is unchanged; the new record has no attachments, a non-empty title and description, and a category offered for its department |
| `ComplaintForm.CapturePhoto` | src/pages/ComplaintForm.tsx:85-88 | appends exactly one photo at the end and keeps the rest |
| `ComplaintForm.RemovePhoto` | src/pages/ComplaintForm.tsx:90-92 | removes exactly the photo at a valid index and keeps the rest in order; any other index changes nothing |
| `ComplaintForm.CaptureThenRemove` | src/pages/ComplaintForm.tsx:87-91 | removing the photo just captured restores the list |

## Left out

- The haversine distance (`calculateDistance`, src/contexts/ComplaintContext.tsx:156-165) is floating-point trigonometry. It is a parameter of `Nearby`, and nothing is assumed about it: no symmetry, no zero distance.
- Coordinates and radii are `real`. Floating-point rounding in the distance comparison is not modelled.
- `ResolutionRate` uses exact rational arithmetic. JavaScript computes `resolved / total * 100` in floating point before `Math.round`. At a tie the float result may fall on either side of .5, so the model can differ from the browser by one point there.
- `Text.ToLower` lower-cases the ASCII letters A-Z only. JavaScript's `toLowerCase` also maps non-ASCII letters.
- New ids (`Date.now()`) and timestamps (`new Date()`) are parameters. Nothing claims ids are unique. Updates apply to every entry with the id, and `find` takes the first.
- The browser's `required` checks on title, category and description (src/pages/ComplaintForm.tsx:132, 146, 190) are not modelled as code. They, and the fact that the chosen category is one the select offers for the department (line 152), are the precondition of `ComplaintForm.HandleSubmit`.
- `AdminDashboard.HandleStatusUpdate`: the two updates it makes receive the same timestamp. The source calls `new Date()` once for each.
- A partial update cannot clear an optional field. The source could do that with an explicit `undefined`; no caller here does.
- `ComplaintStore.Store.AwardCredits`: `citizenId` is unused, and no user's credit total changes. The source only logs the award (src/contexts/ComplaintContext.tsx:151-152), so the model has no credit ledger.
- Logging, navigation, the loading flag and the `try`/`catch` around `addComplaint` are UI with no effect on the table.
- Authentication and profile storage are not part of this model. This covers src/contexts/AuthContext.tsx, src/lib/supabase.ts and src/pages/AdminLogin.tsx. Only the 100-credit seed is reused.
- Browser APIs are not modelled:
  - the camera in src/components/PhotoCapture.tsx;
  - geolocation and its `toFixed` text in `getCurrentLocation` (src/pages/ComplaintForm.tsx:65-83);
  - `URL.createObjectURL`. Photos are modelled as opaque strings.
- Rendering, colours, icons, routing, src/pages/LandingPage.tsx, src/components/Header.tsx and src/components/NearbyComplaints.tsx are not modelled. NearbyComplaints only forwards a position and a radius.
- The seed data is inconsistent, and the model keeps it as written. Demonstration complaint 2 is submitted yet credited 15. Complaint 4 holds 20 credits for `good`, which matches neither table. No invariant tying ratings to credits is claimed.
