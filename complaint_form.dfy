// The complaint form: the category choices per department, the captured
// photo list, and the record a submission adds to the table.

module ComplaintForm {
  import opened Types
  import Departments
  import opened ComplaintStore
  import AdminDashboard
  import Tally

  /** The form's fields. */
  datatype FormData = FormData(
    title: string,
    description: string,
    category: string,
    priority: Priority,
    location: string)

  /** The form as it opens: every text empty, priority medium. */
  const InitialForm: FormData := FormData("", "", "", Medium, "")

  /** The categories offered for each department id. */
  const CategoryOptions: map<string, seq<string>> := map[
    "transportation" := ["Road Maintenance", "Traffic Signals", "Public Transit", "Parking", "Sidewalks"],
    "education" := ["School Facilities", "Programs", "Safety", "Resources", "Staff"],
    "health" := ["Sanitation", "Public Health", "Medical Facilities", "Emergency Services"],
    "environment" := ["Pollution", "Waste Management", "Parks", "Conservation", "Noise"],
    "infrastructure" := ["Buildings", "Construction", "Zoning", "Permits", "Utilities"],
    "utilities" := ["Water", "Electricity", "Gas", "Internet", "Phone"]
  ]

  /** The category table has an entry for exactly the department ids, each with at least four choices. */
  lemma CategoryOptionsCoverIds(key: string)
    ensures key in CategoryOptions <==> exists d :: d in Departments.All && d.id == key
    ensures key in CategoryOptions ==> |CategoryOptions[key]| >= 4
  {
    var all := Departments.All;
    if key in CategoryOptions {
      var k := if key == "transportation" then 0 else if key == "education" then 1
               else if key == "health" then 2 else if key == "environment" then 3
               else if key == "infrastructure" then 4 else 5;
      assert all[k] in all && all[k].id == key;
    }
    if exists d :: d in all && d.id == key {
      var d :| d in all && d.id == key;
      assert d == all[0] || d == all[1] || d == all[2] || d == all[3] || d == all[4] || d == all[5];
    }
  }

  /**
   * The category choices for the route's department id (a missing id looks
   * up the empty key): that id's list, or `None` when there is no entry.
   */
  function CategoriesFor(departmentId: Option<string>): (options: Option<seq<string>>)
    ensures options.Some? <==> Departments.Find(departmentId).Some?
    ensures options.Some? ==> departmentId.Some? && departmentId.value in CategoryOptions &&
                              options.value == CategoryOptions[departmentId.value]
    ensures options.Some? ==> |options.value| >= 4
  {
    var key := if departmentId.Some? then departmentId.value else "";
    CategoryOptionsCoverIds(key);
    assert departmentId.None? ==> forall d :: d in Departments.All ==> d.id != key;
    if key in CategoryOptions then Some(CategoryOptions[key]) else None
  }

  /** The opening form has priority medium and nothing typed in. */
  lemma InitialFormDefaults()
    ensures InitialForm.priority == Medium
    ensures InitialForm.title == InitialForm.description == InitialForm.category == InitialForm.location == ""
  {
  }

  /** The record a submission hands to the table's append operation. */
  function BuildDraft(form: FormData, user: User, department: Department): (d: ComplaintDraft)
    ensures d.status == Submitted && d.attachments == []
    ensures d.department == department.name
    ensures d.citizenId == user.id && d.citizenName == user.name
    ensures d.title == form.title && d.description == form.description
    ensures d.category == form.category && d.priority == form.priority
    ensures d.location.Some? <==> form.location != ""
    ensures d.location.Some? ==> d.location.value == Location(form.location, None)
    ensures d.creditsAwarded.None? && d.qualityRating.None?
  {
    ComplaintDraft(form.title, form.description, department.name, form.category, form.priority,
                   Submitted, user.id, user.name,
                   if form.location != "" then Some(Location(form.location, None)) else None,
                   [], None, None, None, None)
  }

  /**
   * What the browser checks before it lets the form submit: title and
   * description are non-empty, and a category is chosen, which is one of the
   * choices offered for the department.
   */
  predicate PassesRequiredFields(form: FormData, departmentId: Option<string>)
  {
    && form.title != ""
    && form.description != ""
    && form.category != ""
    && (CategoriesFor(departmentId).Some? ==> form.category in CategoriesFor(departmentId).value)
  }

  /**
   * A submitted complaint is pending, filed under a department name of the
   * table (so the department counts see it), and not offered the rating picker.
   */
  lemma SubmittedComplaintIsPending(form: FormData, user: User, departmentId: Option<string>,
                                    id: string, createdAt: Time, updatedAt: Time)
    requires Departments.Find(departmentId).Some?
    ensures var c := Stamp(BuildDraft(form, user, Departments.Find(departmentId).value), id, createdAt, updatedAt);
            && Tally.IsPending(c)
            && c.department in Departments.Names(Departments.All)
            && !AdminDashboard.RatingPickerOffered(c)
  {
    var d := Departments.Find(departmentId).value;
    var k :| 0 <= k < |Departments.All| && Departments.All[k] == d;
    assert Departments.Names(Departments.All)[k] == d.name;
  }

  /**
   * The submit handler, run once the browser has accepted the required
   * fields: adds the built record when a user is signed in and the route's
   * department id names a department; otherwise does nothing. The captured
   * photos are not attached. The new id and the two clock readings are
   * parameters.
   */
  method HandleSubmit(store: Store, user: Option<User>, departmentId: Option<string>,
                      form: FormData, capturedPhotos: seq<string>,
                      id: string, createdAt: Time, updatedAt: Time)
    requires PassesRequiredFields(form, departmentId)
    modifies store
    ensures user.None? || Departments.Find(departmentId).None? ==>
              store.complaints == old(store.complaints)
    ensures user.Some? && Departments.Find(departmentId).Some? ==>
              store.complaints == old(store.complaints) +
                [Stamp(BuildDraft(form, user.value, Departments.Find(departmentId).value), id, createdAt, updatedAt)]
    ensures forall i :: |old(store.complaints)| <= i < |store.complaints| ==>
              && store.complaints[i].attachments == []
              && store.complaints[i].title != "" && store.complaints[i].description != ""
              && store.complaints[i].category in CategoriesFor(departmentId).value
  {
    var department := Departments.Find(departmentId);
    if user.None? || department.None? {
      return;
    }
    store.AddComplaint(BuildDraft(form, user.value, department.value), id, createdAt, updatedAt);
  }

  /** A newly captured photo joins the end of the list. */
  function CapturePhoto(photos: seq<string>, url: string): (r: seq<string>)
    ensures |r| == |photos| + 1
    ensures r[..|photos|] == photos && r[|photos|] == url
  {
    photos + [url]
  }

  /** Removing a photo keeps every photo whose position differs from `index`. */
  function RemovePhoto(photos: seq<string>, index: int): (r: seq<string>)
    ensures 0 <= index < |photos| ==> r == photos[..index] + photos[index + 1..]
    ensures !(0 <= index < |photos|) ==> r == photos
    decreases |photos|
  {
    if photos == [] then []
    else (if index == 0 then [] else [photos[0]]) + RemovePhoto(photos[1..], index - 1)
  }

  /** Removing the photo just captured restores the list. */
  lemma CaptureThenRemove(photos: seq<string>, url: string)
    ensures RemovePhoto(CapturePhoto(photos, url), |photos|) == photos
  {
  }
}
