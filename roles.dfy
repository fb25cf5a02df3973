/** The role-to-rights table the route guards consult
    (backend/src/config/roles.ts). Role names are the values of the
    database's role enumeration, `USER` and `ADMIN`; rights are strings. */
module Roles {

  const User := "USER"
  const Admin := "ADMIN"

  const GetUsers := "getUsers"
  const ManageUsers := "manageUsers"
  const GetReminders := "getReminders"
  const ManageReminders := "manageReminders"

  /** `allRoles`: each role's list of rights, in the order written. */
  function AllRoles(): (m: map<string, seq<string>>)
    ensures m.Keys == {User, Admin}
    ensures m[User] == [GetReminders, ManageReminders]
    ensures m[Admin] == [GetUsers, ManageUsers, GetReminders, ManageReminders]
  {
    map[User := [GetReminders, ManageReminders],
        Admin := [GetUsers, ManageUsers, GetReminders, ManageReminders]]
  }

  /** `roles = Object.keys(allRoles)`: every key once, in insertion order. */
  function RoleNames(): (r: seq<string>)
    ensures forall k :: k in r <==> k in AllRoles()
    ensures |r| == |AllRoles().Keys|
    ensures forall i, j :: 0 <= i < j < |r| ==> r[i] != r[j]
  {
    [User, Admin]
  }

  /** `roleRights = new Map(Object.entries(allRoles))`: the same pairs. */
  function RoleRights(): (m: map<string, seq<string>>)
    ensures m.Keys == set k | k in RoleNames()
    ensures forall k :: k in m ==> m[k] == AllRoles()[k]
  {
    map k | k in RoleNames() :: AllRoles()[k]
  }

  /** What a guard asking for `right` grants a caller with role `role`. */
  predicate HasRight(role: string, right: string) {
    role in RoleRights() && right in RoleRights()[role]
  }

  /** A USER holds exactly the two reminder rights. */
  lemma UserRights(right: string)
    ensures HasRight(User, right) <==> right == GetReminders || right == ManageReminders
  {
  }

  /** An ADMIN holds exactly the user and the reminder rights. */
  lemma AdminRights(right: string)
    ensures HasRight(Admin, right)
        <==> right in {GetUsers, ManageUsers, GetReminders, ManageReminders}
  {
  }

  /** Every defined role may read and manage reminders. */
  lemma EveryRoleHasReminderRights(role: string)
    requires role in RoleNames()
    ensures HasRight(role, GetReminders) && HasRight(role, ManageReminders)
  {
  }

  /** A USER can neither list nor manage users. */
  lemma UserCannotManageUsers()
    ensures !HasRight(User, GetUsers) && !HasRight(User, ManageUsers)
  {
  }

  /** A name that is not a defined role holds no right at all. */
  lemma UnknownRoleHasNoRights(role: string, right: string)
    requires role !in RoleNames()
    ensures !HasRight(role, right)
  {
  }
}
