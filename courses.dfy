/** The course catalogue page (`StudentCourses`): which courses it lists and the heading it
    shows above them. */
module StudentCourses {
  import opened Wrappers
  import Seqs
  import Text

  datatype Course = Course(id: string, title: string, categoryId: string)

  datatype CourseCategory = CourseCategory(id: string, name: string)

  /** `category || 'all'`: the route parameter, or 'all' when it is absent or empty. */
  function InitialCategory(param: Option<string>): (c: string)
    ensures param.None? ==> c == "all"
    ensures param.Some? && param.value != "" ==> c == param.value
    ensures param == Some("") ==> c == "all"
  {
    match param
    case None => "all"
    case Some(p) => if p == "" then "all" else p
  }

  /** `finalCourses`: the globally filtered list as is while a global filter is set; otherwise
      nothing under 'all', or the courses of the selected category in their order. */
  function FinalCourses(hasFilters: bool, global: seq<Course>, selected: string): (r: seq<Course>)
    ensures hasFilters ==> r == global
    ensures !hasFilters && selected == "all" ==> r == []
    ensures !hasFilters && selected != "all" ==> forall c :: c in r <==> c in global && c.categoryId == selected
    ensures Seqs.Subsequence(r, global)
  {
    Seqs.SubsequenceOfSelf(global);
    if hasFilters then global
    else if selected == "all" then []
    else
      var p := (c: Course) => c.categoryId == selected;
      Seqs.FilterIsSubsequence(global, p);
      Seqs.Filter(global, p)
  }

  /** With a specific category and no global filter, each course of that category is listed
      as often as it occurs in the global list, and no other course is. */
  lemma FinalCoursesCounts(global: seq<Course>, selected: string, c: Course)
    requires selected != "all"
    ensures multiset(FinalCourses(false, global, selected))[c] ==
      if c.categoryId == selected then multiset(global)[c] else 0
  {
    Seqs.FilterMultiset(global, (x: Course) => x.categoryId == selected, c);
  }

  /** Entry `k` is the first with this id. */
  predicate FirstWithId(categories: seq<CourseCategory>, k: nat, id: string) {
    k < |categories| && categories[k].id == id && forall i :: 0 <= i < k ==> categories[i].id != id
  }

  /** `courseCategories.find(c => c.id === id)`. */
  function FindCategory(categories: seq<CourseCategory>, id: string): (r: Option<CourseCategory>)
    ensures r.None? <==> forall i :: 0 <= i < |categories| ==> categories[i].id != id
    ensures r.Some? ==> exists k: nat :: FirstWithId(categories, k, id) && categories[k] == r.value
    decreases |categories|
  {
    if categories == [] then None
    else if categories[0].id == id then Some(categories[0])
    else
      var r := FindCategory(categories[1..], id);
      if r.Some? then
        var k: nat :| FirstWithId(categories[1..], k, id) && categories[1..][k] == r.value;
        assert FirstWithId(categories, k + 1, id);
        r
      else r
  }

  /** `getCategoryName`. */
  function CategoryName(hasFilters: bool, selectedCount: nat, categories: seq<CourseCategory>, selected: string): (name: string)
    ensures hasFilters ==> name == "Filtered Courses (" + Text.NatToString(selectedCount) + " categories)"
    ensures !hasFilters && FindCategory(categories, selected).Some? ==> name == FindCategory(categories, selected).value.name
    ensures !hasFilters && FindCategory(categories, selected).None? ==> name == "All Courses"
  {
    if hasFilters then "Filtered Courses (" + Text.NatToString(selectedCount) + " categories)"
    else match FindCategory(categories, selected)
      case Some(c) => c.name
      case None => "All Courses"
  }

  /** Without a global filter, a selected category that is listed gives its own name as the
      heading, taken from the first entry with that id. */
  lemma CategoryNameOfListed(categories: seq<CourseCategory>, k: nat)
    requires k < |categories| && forall i :: 0 <= i < k ==> categories[i].id != categories[k].id
    ensures CategoryName(false, 0, categories, categories[k].id) == categories[k].name
  {
    var r := FindCategory(categories, categories[k].id);
    assert r.Some?;
    var k': nat :| FirstWithId(categories, k', categories[k].id) && categories[k'] == r.value;
    assert k' == k;
  }
}
