/** The records the user controller reads and compares: roles, permissions, the user data
    transfer objects in their four variants, and the claims of a decoded bearer token. */
module Users {

  datatype Option<T> = None | Some(value: T)

  /** RoleType: the three roles the controller distinguishes. */
  datatype Role = ADMIN | EMPLOYEE | USER

  /** The constant name of a role, as written in a token's role claim. */
  function RoleName(r: Role): string
  {
    match r
    case ADMIN => "ADMIN"
    case EMPLOYEE => "EMPLOYEE"
    case USER => "USER"
  }

  /** RoleType.valueOf: the role with exactly that constant name; None where Java throws
      IllegalArgumentException. */
  function ValueOf(name: string): (r: Option<Role>)
    ensures r.Some? ==> RoleName(r.value) == name
    ensures r.None? ==> forall role: Role :: RoleName(role) != name
  {
    if name == "ADMIN" then Some(ADMIN)
    else if name == "EMPLOYEE" then Some(EMPLOYEE)
    else if name == "USER" then Some(USER)
    else None
  }

  /** Every role's name parses back to that role. */
  lemma ValueOfRoleName(r: Role)
    ensures ValueOf(RoleName(r)) == Some(r)
  {
  }

  /** PermissionType: a permission constant, known here only by its name. */
  datatype Permission = Permission(name: string)

  /** UserDto and its subclasses as one tagged variant. Every variant carries the identity
      fields; the two client variants also carry their primary account number; `profile`
      stands for the remaining, freely editable fields (names, phone, address, ...) by name.
      Permissions are a sequence because java.util.List.equals compares in order. */
  datatype UserRecord =
    | Employee(id: int, email: string, username: string, role: Role,
               permissions: seq<Permission>, profile: map<string, string>)
    | PrivateClient(id: int, email: string, username: string, role: Role,
                    permissions: seq<Permission>, profile: map<string, string>,
                    primaryAccountNumber: string)
    | CorporateClient(id: int, email: string, username: string, role: Role,
                      permissions: seq<Permission>, profile: map<string, string>,
                      primaryAccountNumber: string)
    | PlainUser(id: int, email: string, username: string, role: Role,
                permissions: seq<Permission>, profile: map<string, string>)

  /** The all-arguments EmployeeDto constructor: whatever it is given, the role is EMPLOYEE. */
  function NewEmployee(id: int, email: string, username: string,
                       permissions: seq<Permission>, profile: map<string, string>): (r: UserRecord)
    ensures r.Employee? && r.role == EMPLOYEE
    ensures r.id == id && r.email == email && r.username == username
    ensures r.permissions == permissions && r.profile == profile
  {
    Employee(id, email, username, EMPLOYEE, permissions, profile)
  }

  /** A claim of a decoded token: absent (null), a string, or some other JSON value, kept
      with the text its toString renders. */
  datatype ClaimValue = NoClaim | StringClaim(s: string) | OtherClaim(rendered: string)

  /** claim.toString(): None where Java throws because the claim is null. */
  function Rendered(v: ClaimValue): (r: Option<string>)
    ensures r.None? <==> v.NoClaim?
    ensures v.StringClaim? ==> r == Some(v.s)
    ensures v.OtherClaim? ==> r == Some(v.rendered)
  {
    match v
    case NoClaim => None
    case StringClaim(s) => Some(s)
    case OtherClaim(rendered) => Some(rendered)
  }

  /** The two claims of a decoded bearer token the controller reads. */
  datatype Claims = Claims(email: ClaimValue, role: ClaimValue)

  /** RoleType.valueOf((String) claims.get("role")): None where Java throws, that is when the
      claim is missing (NullPointerException), not a string (ClassCastException) or names no
      role (IllegalArgumentException). */
  function RoleClaim(c: Claims): (r: Option<Role>)
    ensures r.Some? <==> c.role.StringClaim? && ValueOf(c.role.s).Some?
    ensures r.Some? ==> c.role == StringClaim(RoleName(r.value))
  {
    if c.role.StringClaim? then ValueOf(c.role.s) else None
  }
}
