/**
 * The navigation bar: the role shown in the user's badge, the avatar's letter,
 * and whether the user's section with its logout button is shown.
 */
module Navbar {
  import opened Common
  import Api

  /** `getRoleDisplay(role)`: `roleMap[role] || role`. */
  function GetRoleDisplay(role: string): (r: string)
    ensures role == "student" ==> r == "Student"
    ensures role == "driver" ==> r == "Driver"
    ensures role == "admin" ==> r == "Admin"
    ensures role !in {"student", "driver", "admin"} ==> r == role
  {
    if role == "student" then "Student"
    else if role == "driver" then "Driver"
    else if role == "admin" then "Admin"
    else role
  }

  /**
   * The display never changes a role beyond the case of its first letter, so
   * the badge still reads as the role whatever the role is.
   */
  lemma RoleDisplayCapitalises(role: string)
    ensures |GetRoleDisplay(role)| == |role|
    ensures forall i :: 1 <= i < |role| ==> GetRoleDisplay(role)[i] == role[i]
    ensures role != "" ==> GetRoleDisplay(role)[0] in {role[0], UpperChar(role[0])}
    ensures ToLower(GetRoleDisplay(role)) == ToLower(role)
  {
    if role in {"student", "driver", "admin"} {
      assert ToLower(GetRoleDisplay(role))[0] == LowerChar(GetRoleDisplay(role)[0]);
    }
  }

  /** `user.name?.charAt(0).toUpperCase() || 'U'`. */
  function Avatar(name: Option<string>): (a: string)
    ensures |a| == 1
    ensures name.Some? && name.value != "" ==> a == [UpperChar(name.value[0])]
    ensures name.None? || name.value == "" ==> a == "U"
  {
    match name
    case None => "U"
    case Some(n) => if n == "" then "U" else [UpperChar(n[0])]
  }

  /** The user's section of the bar: the avatar, the name and the role badge beside a logout button. */
  datatype UserSection = UserSection(avatar: string, name: Option<string>, badge: string)

  function UserSectionOf(user: Option<Api.ClientUser>): (s: Option<UserSection>)
    ensures s.Some? <==> user.Some?
    ensures user.Some? ==>
      s.value.badge == GetRoleDisplay(user.value.role) && s.value.name == Some(user.value.name)
  {
    match user
    case None => None
    case Some(u) => Some(UserSection(Avatar(Some(u.name)), Some(u.name), GetRoleDisplay(u.role)))
  }

  /** Each mock user's badge and avatar. */
  lemma MockUsersShown()
    ensures UserSectionOf(Api.MockUser("student")) == Some(UserSection("S", Some("Student User"), "Student"))
    ensures UserSectionOf(Api.MockUser("driver")) == Some(UserSection("M", Some("Mike Driver"), "Driver"))
    ensures UserSectionOf(Api.MockUser("admin")) == Some(UserSection("A", Some("Admin User"), "Admin"))
  {
  }
}
