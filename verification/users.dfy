/** `User` (app/models.py): the role chosen when a user is built without
    one, and the permission checks `can` / `is_administrator`, including the
    ones of `AnonymousUser`. */
module Users {
  import opened Base
  import Permission
  import opened Roles

  /** A persisted row of `users`. Profile text, timestamps and the password
      getter are left out; `passwordHash` is whatever the foreign hashing
      routine produced. */
  datatype User = User(
    id: int,
    email: Option<string>,
    username: Option<string>,
    roleId: Option<int>,
    passwordHash: Option<string>,
    confirmed: bool)

  /** Whoever a request runs as: a logged-in user, or the `AnonymousUser`
      the login manager installs when nobody is logged in. */
  datatype Principal = Member(user: User) | Anonymous

  predicate HasAdministratorMask(r: Role) {
    r.permissions == 0xff
  }

  predicate IsDefaultRole(r: Role) {
    r.isDefault
  }

  /** The role `User.__init__` ends up with. `given` is the `role` keyword
      argument; `email` is the `email` keyword argument and `adminEmail` the
      `FLASKY_ADMIN` setting, either of which may be missing (`None`). An
      explicit role wins; otherwise the administrator's email takes the
      first role whose mask is 0xff; otherwise, or when no such role exists,
      the first role flagged default; otherwise no role at all. */
  function AssignedRole(given: Option<Role>, email: Option<string>, adminEmail: Option<string>,
                        roles: seq<Role>): (r: Option<Role>)
    ensures given.Some? ==> r == given
    ensures given.None? && r.Some? ==> r.value in roles
    ensures (given.None? && email == adminEmail && Find(roles, HasAdministratorMask).Some?) ==>
              exists k :: IsFirst(roles, k, HasAdministratorMask) && r == Some(roles[k])
    ensures (given.None? && (email != adminEmail || Find(roles, HasAdministratorMask).None?)) ==>
              && (r.None? <==> forall j :: 0 <= j < |roles| ==> !roles[j].isDefault)
              && (r.Some? ==> exists k :: IsFirst(roles, k, IsDefaultRole) && r == Some(roles[k]))
  {
    if given.Some? then given
    else
      var admin := if email == adminEmail then Find(roles, HasAdministratorMask) else None;
      match admin
      case Some(k) => Some(roles[k])
      case None =>
        match Find(roles, IsDefaultRole)
        case Some(k) => Some(roles[k])
        case None => None
  }

  /** `User(**kwargs)` for a user that is about to be stored with id `id`:
      the keyword fields are kept (`confirmed` defaults to false at the
      call site, as the column does), and the role is the one
      `AssignedRole` picks. */
  function NewUser(id: int, email: Option<string>, username: Option<string>, passwordHash: Option<string>,
                   confirmed: bool, given: Option<Role>, adminEmail: Option<string>,
                   roles: seq<Role>): (u: User)
    ensures u.id == id && u.email == email && u.username == username && u.passwordHash == passwordHash
    ensures u.confirmed == confirmed
    ensures u.roleId.Some? <==> AssignedRole(given, email, adminEmail, roles).Some?
    ensures u.roleId.Some? ==> u.roleId.value == AssignedRole(given, email, adminEmail, roles).value.id
  {
    var role := AssignedRole(given, email, adminEmail, roles);
    User(id, email, username, if role.Some? then Some(role.value.id) else None, passwordHash, confirmed)
  }

  /** On the fresh registry, a user built with the administrator's email
      gets Administrator, and any other user gets User. */
  lemma FreshRegistryRoles(email: Option<string>, adminEmail: Option<string>)
    ensures email == adminEmail ==> AssignedRole(None, email, adminEmail, InsertRoles([])) == Some(FreshRegistry[2])
    ensures email != adminEmail ==> AssignedRole(None, email, adminEmail, InsertRoles([])) == Some(FreshRegistry[0])
  {
    InsertRolesOnEmpty();
    assert !HasAdministratorMask(FreshRegistry[0]) && !HasAdministratorMask(FreshRegistry[1]);
  }

  /** `user.role`: the role row the foreign key points at, if any; with a
      dangling key, or none, there is no role. */
  function RoleOf(roles: seq<Role>, u: User): (r: Option<Role>)
    ensures r.Some? ==> r.value in roles && u.roleId == Some(r.value.id)
    ensures r.None? <==> u.roleId.None? || forall j :: 0 <= j < |roles| ==> roles[j].id != u.roleId.value
  {
    match u.roleId
    case Some(id) => RoleWithId(roles, id)
    case None => None
  }

  /** In a registry with unique ids, a new user's role is the role
      `AssignedRole` picked, whenever that role is a row of the registry. */
  lemma NewUserRole(id: int, email: Option<string>, username: Option<string>, passwordHash: Option<string>,
                    confirmed: bool, given: Option<Role>, adminEmail: Option<string>, roles: seq<Role>)
    requires IdsUnique(roles)
    requires given.Some? ==> given.value in roles
    ensures RoleOf(roles, NewUser(id, email, username, passwordHash, confirmed, given, adminEmail, roles))
            == AssignedRole(given, email, adminEmail, roles)
  {
  }

  /** `can(permissions)` exactly as written: a member needs a role, and then
      `(role.permissions and permissions) == permissions`, Python's logical
      `and`; the anonymous user can do nothing. */
  function Can(roles: seq<Role>, who: Principal, p: int): (r: bool)
    ensures r <==> who.Member? && RoleOf(roles, who.user).Some?
                   && (RoleOf(roles, who.user).value.permissions != 0 || p == 0)
  {
    match who
    case Anonymous => false
    case Member(u) =>
      match RoleOf(roles, u)
      case None => false
      case Some(role) =>
        Permission.AsWrittenMeaning(role.permissions, p);
        Permission.GrantsAsWritten(role.permissions, p)
  }

  /** `is_administrator()`, which asks `can(Permission.ADMINISTER)`: as
      written, any member whose role has a non-zero mask qualifies; the
      anonymous user never does. */
  function IsAdministrator(roles: seq<Role>, who: Principal): (r: bool)
    ensures r <==> who.Member? && RoleOf(roles, who.user).Some?
                   && RoleOf(roles, who.user).value.permissions != 0
  {
    match who
    case Anonymous => false
    case Member(_) => Can(roles, who, Permission.Administer)
  }

  /** `AnonymousUser` answers no to every permission question, under the
      check as written and under the intended one. */
  lemma AnonymousCannot(roles: seq<Role>, p: nat)
    ensures !Can(roles, Anonymous, p) && !IsAdministrator(roles, Anonymous)
    ensures !CanBitwise(roles, Anonymous, p) && !IsAdministratorBitwise(roles, Anonymous)
  {
  }

  /** The check `can` is evidently meant to be: the role holds every bit
      the request asks for (`role.permissions & permissions`). */
  function CanBitwise(roles: seq<Role>, who: Principal, p: nat): (r: bool)
    ensures r <==> who.Member? && RoleOf(roles, who.user).Some?
                   && Permission.HoldsEveryBit(RoleOf(roles, who.user).value.permissions, p)
  {
    match who
    case Anonymous => false
    case Member(u) =>
      match RoleOf(roles, u)
      case None => false
      case Some(role) =>
        Permission.GrantsMeansEveryBit(role.permissions, p);
        Permission.Grants(role.permissions, p)
  }

  /** The intended `is_administrator`: the role holds the `Administer` bit. */
  function IsAdministratorBitwise(roles: seq<Role>, who: Principal): (r: bool)
    ensures r <==> who.Member? && RoleOf(roles, who.user).Some?
                   && Permission.Bit(RoleOf(roles, who.user).value.permissions, 7)
  {
    match who
    case Anonymous => false
    case Member(u) =>
      match RoleOf(roles, u)
      case None => false
      case Some(role) =>
        assert Permission.HoldsEveryBit(role.permissions, Permission.Administer)
               <==> Permission.Bit(role.permissions, 7) by {
          forall k: nat ensures Permission.Bit(Permission.Administer, k) <==> k == 7 {
            Permission.AdministerBits(k);
          }
        }
        CanBitwise(roles, who, Permission.Administer)
  }

  /** Where the check as written and the intended check part: every grant
      of the intended check is a grant as written, and they disagree exactly
      on requests a role with a non-zero mask does not fully hold. */
  lemma CanAsWrittenVersusBitwise(roles: seq<Role>, who: Principal, p: nat)
    ensures CanBitwise(roles, who, p) ==> Can(roles, who, p)
    ensures Can(roles, who, p) != CanBitwise(roles, who, p)
            <==> who.Member? && RoleOf(roles, who.user).Some?
                 && RoleOf(roles, who.user).value.permissions != 0
                 && !Permission.Grants(RoleOf(roles, who.user).value.permissions, p)
  {
  }

  /** A user holding the seeded User role (mask 0x07) is an administrator
      as written, and is not one under the intended check. */
  lemma UserRoleIsAdministratorAsWritten(roles: seq<Role>, u: User)
    requires RoleOf(roles, u).Some? && RoleOf(roles, u).value.permissions == Permission.UserMask
    ensures IsAdministrator(roles, Member(u))
    ensures !IsAdministratorBitwise(roles, Member(u))
  {
  }
}
