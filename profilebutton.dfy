/** The profile button of the student header (`ProfileButton`): the avatar initials, the
    profile route of each role and the two menu actions. */
module ProfileButton {
  import opened Wrappers
  import Seqs
  import Text

  predicate NonEmpty(w: string) {
    w != ""
  }

  /** `map(n => n[0]).join('')`: the first character of each word; an empty word gives
      `undefined`, which `join` writes as nothing. */
  function FirstChars(ws: seq<string>): (r: string)
    ensures |r| == |Seqs.Filter(ws, NonEmpty)|
    ensures forall k :: 0 <= k < |r| ==> r[k] == Seqs.Filter(ws, NonEmpty)[k][0]
    decreases |ws|
  {
    if ws == [] then ""
    else if ws[0] == "" then
      assert Seqs.Filter(ws, NonEmpty) == Seqs.Filter(ws[1..], NonEmpty);
      FirstChars(ws[1..])
    else
      assert Seqs.Filter(ws, NonEmpty) == [ws[0]] + Seqs.Filter(ws[1..], NonEmpty);
      [ws[0][0]] + FirstChars(ws[1..])
  }

  /** `getInitials`: "U" for an empty name, else the upper-cased first letters of the words. */
  function GetInitials(name: string): (r: string)
    ensures name == "" ==> r == "U"
    ensures name != "" ==> |r| == Seqs.Count(Text.Split(name, ' '), NonEmpty)
    ensures name != "" ==> forall k :: 0 <= k < |r| ==>
      r[k] == Text.UpperChar(Seqs.Filter(Text.Split(name, ' '), NonEmpty)[k][0])
  {
    if name == "" then "U" else Text.Upper(FirstChars(Text.Split(name, ' ')))
  }

  /** A name without a space is one word: its initial is its first letter, upper-cased. */
  lemma SingleWordInitial(name: string)
    requires name != "" && ' ' !in name
    ensures GetInitials(name) == [Text.UpperChar(name[0])]
  {
    var ws := Text.Split(name, ' ');
    Text.SplitWithoutSeparator(name, ' ');
    assert Seqs.Filter(ws, NonEmpty) == [name];
  }

  predicate KnownRole(r: string) {
    r in {"student", "employee", "admin", "mentor", "super-admin", "owner"}
  }

  /** `getProfileRoute`: each of the six roles has its own profile page, anyone else (or no
      user) the shared one. */
  function GetProfileRoute(role: Option<string>): (route: string)
    ensures route == "/profile" <==> !(role.Some? && KnownRole(role.value))
  {
    if role == Some("student") then "/student/profile"
    else if role == Some("employee") then "/employee/profile"
    else if role == Some("admin") then "/admin/profile"
    else if role == Some("mentor") then "/mentor/profile"
    else if role == Some("super-admin") then "/super-admin/profile"
    else if role == Some("owner") then "/owner/profile"
    else "/profile"
  }

  /** The page of a role. */
  function RolePage(r: string): string {
    "/" + r + "/profile"
  }

  /** Each of the six roles has the page `/<role>/profile`. */
  lemma ProfileRouteOfRole(r: string)
    requires KnownRole(r)
    ensures GetProfileRoute(Some(r)) == RolePage(r)
  {
    if r == "student" {
      StudentPage();
    } else if r == "employee" {
      EmployeePage();
    } else if r == "admin" {
      AdminPage();
    } else if r == "mentor" {
      MentorPage();
    } else if r == "super-admin" {
      SuperAdminPage();
    } else {
      OwnerPage();
    }
  }

  // The six pages, spelled out one role at a time to keep each string comparison small.

  lemma StudentPage()
    ensures RolePage("student") == "/student/profile"
  {
  }

  lemma EmployeePage()
    ensures RolePage("employee") == "/employee/profile"
  {
  }

  lemma AdminPage()
    ensures RolePage("admin") == "/admin/profile"
  {
  }

  lemma MentorPage()
    ensures RolePage("mentor") == "/mentor/profile"
  {
  }

  lemma SuperAdminPage()
    ensures RolePage("super-admin") == "/super-admin/profile"
  {
  }

  lemma OwnerPage()
    ensures RolePage("owner") == "/owner/profile"
  {
  }

  /** A navigation the page asks for: the target and whether it carries `fromProfile`. */
  datatype Navigation = Navigation(path: string, fromProfile: bool)

  /** `handleChangeExamCategory`: a student's exam-category selection is cleared and the
      category page opened from the profile; for anyone else nothing happens. */
  function ChangeExamCategory(role: Option<string>): (effect: Option<Navigation>)
    ensures effect.Some? <==> role == Some("student")
    ensures effect.Some? ==> effect.value == Navigation("/student/exam-categories", true)
  {
    if role == Some("student") then Some(Navigation("/student/exam-categories", true)) else None
  }

  /** The profile card flag after "View Profile": on a phone the page navigates instead and the
      flag stays, on a desktop it flips. */
  function ViewProfileFlag(showProfile: bool, isMobile: bool): (r: bool)
    ensures isMobile ==> r == showProfile
    ensures !isMobile ==> r != showProfile
  {
    if isMobile then showProfile else !showProfile
  }

  /** On the same device, two presses of "View Profile" leave the card as it was. */
  lemma ViewProfileTwice(showProfile: bool, isMobile: bool)
    ensures ViewProfileFlag(ViewProfileFlag(showProfile, isMobile), isMobile) == showProfile
  {
  }

  /** The button's own state: whether the profile card is shown. */
  class ProfileMenu {
    var showProfile: bool

    /** The card starts as the `showProfileCard` prop says (hidden by default). */
    constructor (showProfileCard: bool)
      ensures showProfile == showProfileCard
    {
      showProfile := showProfileCard;
    }

    /** `handleViewProfile`: on a phone, go to the role's profile page; on a desktop, show or
        hide the card. */
    method HandleViewProfile(isMobile: bool, role: Option<string>) returns (nav: Option<string>)
      modifies this
      ensures showProfile == ViewProfileFlag(old(showProfile), isMobile)
      ensures isMobile ==> nav == Some(GetProfileRoute(role))
      ensures !isMobile ==> nav.None?
    {
      if isMobile {
        nav := Some(GetProfileRoute(role));
      } else {
        nav := None;
        showProfile := !showProfile;
      }
    }
  }
}
