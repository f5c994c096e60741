/** The dashboard side bar (`Sidebar`): the navigation items of each role and the rule that
    marks one of them active. */
module Sidebar {
  import Seqs
  import Text

  /** One entry of a role's menu: its caption and the path segment under the base path. */
  datatype Entry = Entry(caption: string, segment: string)

  /** A rendered item: the caption and the full target path. */
  datatype NavItem = NavItem(caption: string, to: string)

  const StudentEntries: seq<Entry> := [
    Entry("Dashboard", "dashboard"),
    Entry("Calendar", "calendar"),
    Entry("Mentorship", "mentorship/dashboard"),
    Entry("Courses", "courses"),
    Entry("Zero to Hero", "zero-to-hero"),
    Entry("Tests", "tests"),
    Entry("Current Affairs", "current-affairs"),
    Entry("Speed Drills", "speed-drills"),
    Entry("Performance Analytics", "performance"),
    Entry("Exam Notifications", "exam-notifications"),
    Entry("Self-Care", "self-care"),
    Entry("PDF Courses", "pdf-courses"),
    Entry("Doubt Forum", "doubt-forum"),
    Entry("FAQ", "faq")
  ]

  const MentorEntries: seq<Entry> := [
    Entry("Dashboard", "dashboard"),
    Entry("Calendar", "calendar"),
    Entry("My Students", "students"),
    Entry("Assign Tasks", "assign-tasks"),
    Entry("Progress Tracking", "progress"),
    Entry("Sessions", "sessions"),
    Entry("Messages", "messages"),
    Entry("Analytics", "analytics"),
    Entry("Schedule", "schedule")
  ]

  const EmployeeEntries: seq<Entry> := [
    Entry("Dashboard", "dashboard"),
    Entry("Calendar", "calendar"),
    Entry("Upload Questions & Tests", "upload-questions"),
    Entry("Upload Study Materials", "upload-materials"),
    Entry("Preview Tests", "preview-tests"),
    Entry("Approvals", "approvals")
  ]

  const AdminEntries: seq<Entry> := [
    Entry("Dashboard", "dashboard"),
    Entry("Calendar", "calendar"),
    Entry("Manage Employees", "manage-employees"),
    Entry("Manage Students", "manage-students"),
    Entry("Create/Edit Tests", "edit-tests"),
    Entry("Upload Courses & PDFs", "upload-courses"),
    Entry("Push Notifications", "notifications")
  ]

  const SuperAdminEntries: seq<Entry> := [
    Entry("Dashboard", "dashboard"),
    Entry("Calendar", "calendar"),
    Entry("Create Admins", "create-admins"),
    Entry("Manage All Users", "manage-users"),
    Entry("Payment/Plans", "payment-plans"),
    Entry("View Analytics", "analytics")
  ]

  const OwnerEntries: seq<Entry> := [
    Entry("Dashboard", "dashboard"),
    Entry("Manage Users", "manage-users"),
    Entry("Content Management", "content-management"),
    Entry("Business Analytics", "business-analytics"),
    Entry("Calendar", "calendar"),
    Entry("Notifications", "notifications"),
    Entry("Payments & Plans", "payments-plans"),
    Entry("Settings", "settings")
  ]

  predicate KnownRole(role: string) {
    role in {"student", "mentor", "employee", "admin", "super-admin", "owner"}
  }

  /** The menu entries of a role; a role outside the six gets none. */
  function Entries(role: string): (es: seq<Entry>)
    ensures !KnownRole(role) ==> es == []
  {
    match role
    case "student" => StudentEntries
    case "mentor" => MentorEntries
    case "employee" => EmployeeEntries
    case "admin" => AdminEntries
    case "super-admin" => SuperAdminEntries
    case "owner" => OwnerEntries
    case _ => []
  }

  /** No two entries share a segment, and none is the bare "mentorship". */
  predicate DistinctSegments(es: seq<Entry>) {
    && (forall i, j :: 0 <= i < j < |es| ==> es[i].segment != es[j].segment)
    && (forall i :: 0 <= i < |es| ==> es[i].segment != "mentorship")
  }

  /** `getNavItems`: each entry's path is `basePath + '/' + segment`. */
  function NavItems(role: string, basePath: string): (items: seq<NavItem>)
    ensures |items| == |Entries(role)|
    ensures forall i :: 0 <= i < |items| ==>
      items[i] == NavItem(Entries(role)[i].caption, basePath + "/" + Entries(role)[i].segment)
    ensures !KnownRole(role) ==> items == []
  {
    var es := Entries(role);
    seq(|es|, i requires 0 <= i < |es| => NavItem(es[i].caption, basePath + "/" + es[i].segment))
  }

  /** `isActive`: the mentorship path is active for every page below it; any other path only
      when it is the current page. The current page's own item is always highlighted, and no
      item is highlighted on a page outside its path. */
  predicate IsActive(path: string, pathname: string, basePath: string)
    ensures pathname == path ==> IsActive(path, pathname, basePath)
    ensures IsActive(path, pathname, basePath) ==> Text.StartsWith(pathname, path)
  {
    if path == basePath + "/mentorship" then Text.StartsWith(pathname, basePath + "/mentorship")
    else pathname == path
  }

  /** The base path and the separator can be peeled off again. */
  lemma PathInjective(basePath: string, s1: string, s2: string)
    requires basePath + "/" + s1 == basePath + "/" + s2
    ensures s1 == s2
  {
    var n := |basePath| + 1;
    assert s1 == (basePath + "/" + s1)[n..];
    assert s2 == (basePath + "/" + s2)[n..];
  }

  lemma StudentEntriesSegments()
    ensures DistinctSegments(StudentEntries)
  {
    var es := StudentEntries;
    assert forall i, j :: 0 <= i < j < |es| ==> es[i].segment != es[j].segment;
    assert forall i :: 0 <= i < |es| ==> es[i].segment != "mentorship";
  }

  lemma MentorEntriesSegments()
    ensures DistinctSegments(MentorEntries)
  {
    var es := MentorEntries;
    assert forall i, j :: 0 <= i < j < |es| ==> es[i].segment != es[j].segment;
    assert forall i :: 0 <= i < |es| ==> es[i].segment != "mentorship";
  }

  lemma EmployeeEntriesSegments()
    ensures DistinctSegments(EmployeeEntries)
  {
    var es := EmployeeEntries;
    assert forall i, j :: 0 <= i < j < |es| ==> es[i].segment != es[j].segment;
    assert forall i :: 0 <= i < |es| ==> es[i].segment != "mentorship";
  }

  lemma AdminEntriesSegments()
    ensures DistinctSegments(AdminEntries)
  {
    var es := AdminEntries;
    assert forall i, j :: 0 <= i < j < |es| ==> es[i].segment != es[j].segment;
    assert forall i :: 0 <= i < |es| ==> es[i].segment != "mentorship";
  }

  lemma SuperAdminEntriesSegments()
    ensures DistinctSegments(SuperAdminEntries)
  {
    var es := SuperAdminEntries;
    assert forall i, j :: 0 <= i < j < |es| ==> es[i].segment != es[j].segment;
    assert forall i :: 0 <= i < |es| ==> es[i].segment != "mentorship";
  }

  lemma OwnerEntriesSegments()
    ensures DistinctSegments(OwnerEntries)
  {
    var es := OwnerEntries;
    assert forall i, j :: 0 <= i < j < |es| ==> es[i].segment != es[j].segment;
    assert forall i :: 0 <= i < |es| ==> es[i].segment != "mentorship";
  }

  /** Every role's segments are distinct, and none is the bare "mentorship". */
  lemma SegmentsDistinct(role: string)
    ensures DistinctSegments(Entries(role))
  {
    if role == "student" {
      StudentEntriesSegments();
    } else if role == "mentor" {
      MentorEntriesSegments();
    } else if role == "employee" {
      EmployeeEntriesSegments();
    } else if role == "admin" {
      AdminEntriesSegments();
    } else if role == "super-admin" {
      SuperAdminEntriesSegments();
    } else if role == "owner" {
      OwnerEntriesSegments();
    } else {
      assert Entries(role) == [];
    }
  }

  /** The item paths of a role are distinct, so they can serve as keys of the list. */
  lemma NavPathsDistinct(role: string, basePath: string)
    ensures forall i, j :: 0 <= i < j < |NavItems(role, basePath)| ==>
      NavItems(role, basePath)[i].to != NavItems(role, basePath)[j].to
  {
    var items := NavItems(role, basePath);
    var es := Entries(role);
    SegmentsDistinct(role);
    forall i, j | 0 <= i < j < |items|
      ensures items[i].to != items[j].to
    {
      if items[i].to == items[j].to {
        PathInjective(basePath, es[i].segment, es[j].segment);
      }
    }
  }

  /** Every known role's menu starts with the dashboard. */
  lemma DashboardFirst(role: string, basePath: string)
    requires KnownRole(role)
    ensures |NavItems(role, basePath)| > 0
    ensures NavItems(role, basePath)[0] == NavItem("Dashboard", basePath + "/dashboard")
  {
  }

  /** No menu lists the bare mentorship path, so every listed item is active exactly when it
      is the current page. */
  lemma ListedItemsMatchExactly(role: string, basePath: string, pathname: string, i: nat)
    requires i < |NavItems(role, basePath)|
    ensures NavItems(role, basePath)[i].to != basePath + "/mentorship"
    ensures IsActive(NavItems(role, basePath)[i].to, pathname, basePath) <==>
      pathname == NavItems(role, basePath)[i].to
  {
    var es := Entries(role);
    SegmentsDistinct(role);
    assert es[i].segment != "mentorship";
    if NavItems(role, basePath)[i].to == basePath + "/mentorship" {
      PathInjective(basePath, es[i].segment, "mentorship");
    }
  }

  /** At most one item of a menu is highlighted at a time. */
  lemma AtMostOneActive(role: string, basePath: string, pathname: string, i: nat, j: nat)
    requires i < j < |NavItems(role, basePath)|
    ensures !(IsActive(NavItems(role, basePath)[i].to, pathname, basePath)
              && IsActive(NavItems(role, basePath)[j].to, pathname, basePath))
  {
    ListedItemsMatchExactly(role, basePath, pathname, i);
    ListedItemsMatchExactly(role, basePath, pathname, j);
    NavPathsDistinct(role, basePath);
  }

  // ---------------------------------------------------------------- the mentorship section

  /** The student menu's Mentorship item is its third entry. */
  const MentorshipIndex := 2

  /** A page of the mentorship section: `pathname.startsWith(basePath + '/mentorship')`. */
  predicate InMentorship(pathname: string, basePath: string) {
    Text.StartsWith(pathname, basePath + "/mentorship")
  }

  /** As written, the section test never fires. On the section's own root, `basePath/mentorship`
      (a student dashboard route that opens the mentorship dashboard), no item of the student menu
      is highlighted, the Mentorship item included: that item points to `basePath/mentorship/dashboard`. */
  lemma MentorshipRootUnhighlighted(basePath: string, i: nat)
    requires i < |NavItems("student", basePath)|
    ensures InMentorship(basePath + "/mentorship", basePath)
    ensures !IsActive(NavItems("student", basePath)[i].to, basePath + "/mentorship", basePath)
  {
    ListedItemsMatchExactly("student", basePath, basePath + "/mentorship", i);
  }

  /** The test as its comment describes it: the item leading into the mentorship section is
      highlighted on every page of that section; any other item only on its own page. */
  predicate IsActiveInSection(path: string, pathname: string, basePath: string)
    ensures pathname == path ==> IsActiveInSection(path, pathname, basePath)
  {
    if InMentorship(path, basePath) then InMentorship(pathname, basePath) else pathname == path
  }

  /** A path under the base whose segment does not start with "mentorship" lies outside the
      mentorship section. */
  lemma SegmentOutsideSection(basePath: string, segment: string)
    requires !Text.StartsWith(segment, "mentorship")
    ensures !InMentorship(basePath + "/" + segment, basePath)
  {
    var n := |basePath| + 1;
    var path := basePath + "/" + segment;
    assert path[n..] == segment;
    assert (basePath + "/mentorship")[n..] == "mentorship";
  }

  /** With the section test, exactly the Mentorship item is highlighted on every page of the
      mentorship section, its root `basePath/mentorship` included. */
  lemma SectionHighlightsMentorship(basePath: string, pathname: string, i: nat)
    requires InMentorship(pathname, basePath)
    requires i < |NavItems("student", basePath)|
    ensures IsActiveInSection(NavItems("student", basePath)[i].to, pathname, basePath) <==> i == MentorshipIndex
  {
    var items := NavItems("student", basePath);
    assert items[i].to == basePath + "/" + StudentEntries[i].segment;
    if i == MentorshipIndex {
      assert items[i].to == basePath + "/mentorship" + "/dashboard";
    } else {
      StudentSegmentsOutsideSection(i);
      SegmentOutsideSection(basePath, StudentEntries[i].segment);
    }
  }

  /** Only the Mentorship entry of the student menu has a segment starting with "mentorship". */
  lemma StudentSegmentsOutsideSection(i: nat)
    requires i < |StudentEntries| && i != MentorshipIndex
    ensures !Text.StartsWith(StudentEntries[i].segment, "mentorship")
  {
    var before, after := StudentEntries[..MentorshipIndex], StudentEntries[MentorshipIndex + 1..];
    assert forall k :: 0 <= k < |before| ==> !Text.StartsWith(before[k].segment, "mentorship");
    assert forall k :: 0 <= k < |after| ==> after[k].segment != [] && after[k].segment[0] != 'm';
    if i < MentorshipIndex {
      assert StudentEntries[i] == before[i];
    } else {
      assert StudentEntries[i] == after[i - MentorshipIndex - 1];
    }
  }

  /** Outside the mentorship section the section test agrees with the test as written. */
  lemma SectionAgreesOutside(basePath: string, pathname: string, i: nat)
    requires !InMentorship(pathname, basePath)
    requires i < |NavItems("student", basePath)|
    ensures IsActiveInSection(NavItems("student", basePath)[i].to, pathname, basePath)
        <==> IsActive(NavItems("student", basePath)[i].to, pathname, basePath)
  {
    ListedItemsMatchExactly("student", basePath, pathname, i);
  }

  /** The section test still highlights at most one item of the student menu. */
  lemma SectionAtMostOneActive(basePath: string, pathname: string, i: nat, j: nat)
    requires i < j < |NavItems("student", basePath)|
    ensures !(IsActiveInSection(NavItems("student", basePath)[i].to, pathname, basePath)
              && IsActiveInSection(NavItems("student", basePath)[j].to, pathname, basePath))
  {
    if InMentorship(pathname, basePath) {
      SectionHighlightsMentorship(basePath, pathname, i);
      SectionHighlightsMentorship(basePath, pathname, j);
    } else {
      SectionAgreesOutside(basePath, pathname, i);
      SectionAgreesOutside(basePath, pathname, j);
      AtMostOneActive("student", basePath, pathname, i, j);
    }
  }
}
