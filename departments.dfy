// The fixed table of municipal departments and the lookup by id that the complaint form uses.

module Departments {
  import opened Types
  import opened Lists

  const All: seq<Department> := [
    Department("transportation", "Transportation", "Car",
               "Roads, traffic, public transit, parking", "bg-blue-500"),
    Department("education", "Education", "GraduationCap",
               "Schools, educational facilities, programs", "bg-green-500"),
    Department("health", "Health", "Heart",
               "Public health, sanitation, medical facilities", "bg-red-500"),
    Department("environment", "Environment", "Leaf",
               "Parks, pollution, waste management, conservation", "bg-emerald-500"),
    Department("infrastructure", "Infrastructure", "Building",
               "Buildings, construction, zoning, permits", "bg-gray-500"),
    Department("utilities", "Utilities", "Zap",
               "Water, electricity, gas, telecommunications", "bg-yellow-500")
  ]

  /** The display names of a list of departments, in order. */
  function Names(ds: seq<Department>): (r: seq<string>)
    ensures |r| == |ds|
    ensures forall i :: 0 <= i < |ds| ==> r[i] == ds[i].name
    decreases |ds|
  {
    if ds == [] then [] else [ds[0].name] + Names(ds[1..])
  }

  /** No two entries of `s` are equal. */
  ghost predicate Distinct(s: seq<string>)
  {
    forall i, j :: 0 <= i < j < |s| ==> s[i] != s[j]
  }

  /** The table's display names are pairwise different. */
  lemma NamesDistinct()
    ensures Distinct(Names(All))
  {
    var n := Names(All);
    assert n == ["Transportation", "Education", "Health", "Environment", "Infrastructure", "Utilities"];
  }

  /** The test "this department has the route's id" (a missing id matches none). */
  function HasId(id: Option<string>): Department -> bool
  {
    (d: Department) => id == Some(d.id)
  }

  /**
   * The table's department for a route's department id: the one entry with
   * that id, or nothing when the id is missing or unknown.
   */
  function Find(departmentId: Option<string>): (r: Option<Department>)
    ensures r.Some? <==> exists d :: d in All && departmentId == Some(d.id)
    ensures forall d :: d in All && departmentId == Some(d.id) ==> r == Some(d)
  {
    FindFirst(All, HasId(departmentId))
  }
}
