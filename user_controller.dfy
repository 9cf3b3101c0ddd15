/** The decision logic of the IAM service's user controller: bearer-header parsing, the
    field-invariant check on update payloads, the role rules for deleting and updating a user,
    the guard chain of a password-change submission (which rewrites the stored password), the
    rate-limited initiation of a password change, and the exception-to-status mapping of the
    employee endpoints. Collaborators (the JWT library, the user service, the password encoder
    and validator, the rate limiter and the reset-token store) are function parameters. */
module UserController {
  import opened Users
  import opened Text

  // ---------------------------------------------------------------------------------------
  // Replies

  /** The HTTP statuses the controller answers with. */
  datatype Status = Ok | BadRequest | Unauthorized | Forbidden | NotFound | TooManyRequests
                  | InternalServerError

  /** What a handler comes to: a response with a status, or an exception that escapes the
      handler (a null dereference, RoleType.valueOf on an unknown name, a token the JWT
      library refuses). */
  datatype Outcome = Respond(status: Status) | Fault

  // ---------------------------------------------------------------------------------------
  // getClaims

  /** The part of an HTTP request the controller reads. Header names are matched exactly. */
  datatype Request = Request(headers: map<string, string>, serverPort: int)

  /** HttpServletRequest.getHeader: None where Java returns null. */
  function Header(req: Request, name: string): (h: Option<string>)
    ensures h.Some? <==> name in req.headers
    ensures h.Some? ==> h.value == req.headers[name]
  {
    if name in req.headers then Some(req.headers[name]) else None
  }

  /** A header that is neither null nor empty. */
  predicate Usable(h: Option<string>)
  {
    h.Some? && h.value != ""
  }

  const BearerPrefix: string := "Bearer "

  /** The header getClaims ends up reading: "Authorization", or "authorization" when the
      first is missing or empty, or none at all. */
  function SelectedHeader(req: Request): (h: Option<string>)
    ensures h.Some? ==> Usable(h)
    ensures Usable(Header(req, "Authorization")) ==> h == Header(req, "Authorization")
    ensures !Usable(Header(req, "Authorization")) && Usable(Header(req, "authorization"))
            ==> h == Header(req, "authorization")
    ensures h.None? <==> !Usable(Header(req, "Authorization")) && !Usable(Header(req, "authorization"))
  {
    if Usable(Header(req, "Authorization")) then Header(req, "Authorization")
    else if Usable(Header(req, "authorization")) then Header(req, "authorization")
    else None
  }

  /** The token getClaims reads from the bearer header. There is one
      exactly when the selected header starts with "Bearer ", and the header is then that
      prefix followed by the token. */
  function BearerToken(req: Request): (token: Option<string>)
    ensures token.Some? <==> SelectedHeader(req).Some?
                             && StartsWith(SelectedHeader(req).value, BearerPrefix)
    ensures token.Some? ==> SelectedHeader(req) == Some(BearerPrefix + token.value)
  {
    var authHeader := if Usable(Header(req, "Authorization")) then Header(req, "Authorization")
                      else Header(req, "authorization");
    if !Usable(authHeader) then None
    else if !StartsWith(authHeader.value, BearerPrefix) then None
    else
      assert authHeader.value == BearerPrefix + authHeader.value[7..];
      Some(authHeader.value[7..])
  }

  /** With neither header usable there is no token. */
  lemma BearerTokenNeedsAHeader(req: Request)
    requires !Usable(Header(req, "Authorization")) && !Usable(Header(req, "authorization"))
    ensures BearerToken(req).None?
  {
  }

  /** The lower-case header is consulted only when "Authorization" is missing or empty:
      otherwise any value of it, or its absence, leaves the token unchanged. */
  lemma BearerTokenIgnoresFallback(req: Request, v: string)
    requires Usable(Header(req, "Authorization"))
    ensures BearerToken(req) == BearerToken(Request(req.headers["authorization" := v], req.serverPort))
    ensures BearerToken(req) == BearerToken(Request(req.headers - {"authorization"}, req.serverPort))
  {
    var r1 := Request(req.headers["authorization" := v], req.serverPort);
    var r2 := Request(req.headers - {"authorization"}, req.serverPort);
    assert Header(r1, "Authorization") == Header(req, "Authorization");
    assert Header(r2, "Authorization") == Header(req, "Authorization");
  }

  /** Putting "Bearer " in front of a token in either header, the lower-case one only when
      the other is missing or empty, gives the token back. */
  lemma BearerTokenRoundTrip(req: Request, t: string)
    requires Header(req, "Authorization") == Some(BearerPrefix + t)
             || (!Usable(Header(req, "Authorization"))
                 && Header(req, "authorization") == Some(BearerPrefix + t))
    ensures BearerToken(req) == Some(t)
  {
    assert (BearerPrefix + t)[..7] == BearerPrefix;
    assert (BearerPrefix + t)[7..] == t;
  }

  /** The prefix test is case-sensitive: a selected header that starts with a lower-case 'b',
      such as "bearer abc", carries no token. */
  lemma BearerPrefixIsCaseSensitive(req: Request)
    requires SelectedHeader(req).Some? && SelectedHeader(req).value[0] == 'b'
    ensures BearerToken(req).None?
  {
  }

  /** The result of getClaims: null (no usable bearer header), the decoded claims, or the
      exception the JWT library throws for a token it refuses. */
  datatype Extracted = NoClaims | Decoded(claims: Claims) | Rejected

  /** getClaims: hands the bearer token to the JWT library. */
  function GetClaims(req: Request, extractAllClaims: string -> Option<Claims>): (r: Extracted)
    ensures r.NoClaims? <==> BearerToken(req).None?
    ensures r.Decoded? ==> extractAllClaims(BearerToken(req).value) == Some(r.claims)
    ensures r.Rejected? ==> BearerToken(req).Some? && extractAllClaims(BearerToken(req).value).None?
  {
    match BearerToken(req)
    case None => NoClaims
    case Some(token) =>
      match extractAllClaims(token)
      case None => Rejected
      case Some(c) => Decoded(c)
  }

  // ---------------------------------------------------------------------------------------
  // validationCheck

  /** The identity fields an update may not change: email up to case, role, permissions in
      order, id and username. */
  predicate IdentityFieldsAgree(submitted: UserRecord, stored: UserRecord)
  {
    && EqualsIgnoreCase(submitted.email, stored.email)
    && submitted.role == stored.role
    && submitted.permissions == stored.permissions
    && submitted.id == stored.id
    && submitted.username == stored.username
  }

  /** validationCheck, as written: the account-number comparisons for two client records of
      the same kind lead to `true` either way, so only the five identity fields decide. */
  function ValidationCheck(submitted: UserRecord, stored: UserRecord): (r: bool)
    ensures r <==> IdentityFieldsAgree(submitted, stored)
  {
    if EqualsIgnoreCase(submitted.email, stored.email) && submitted.role == stored.role
       && submitted.permissions == stored.permissions && submitted.id == stored.id
       && submitted.username == stored.username
    then
      if submitted.CorporateClient? && stored.CorporateClient?
         && submitted.primaryAccountNumber == stored.primaryAccountNumber then true
      else if submitted.PrivateClient? && stored.PrivateClient?
              && submitted.primaryAccountNumber == stored.primaryAccountNumber then true
      else true
    else false
  }

  /** A client may submit a different primary account number and still pass the check. */
  lemma ValidationCheckIgnoresAccountNumber(submitted: UserRecord, stored: UserRecord, pan: string)
    requires submitted.PrivateClient? || submitted.CorporateClient?
    ensures ValidationCheck(submitted.(primaryAccountNumber := pan), stored)
            == ValidationCheck(submitted, stored)
  {
  }

  /** The profile fields and the variant tag never matter: only identity fields are compared. */
  lemma ValidationCheckIgnoresProfile(submitted: UserRecord, stored: UserRecord,
                                      p: map<string, string>, q: map<string, string>)
    ensures ValidationCheck(submitted.(profile := p), stored.(profile := q))
            == ValidationCheck(submitted, stored)
    ensures ValidationCheck(PlainUser(submitted.id, submitted.email, submitted.username,
                                      submitted.role, submitted.permissions, p), stored)
            == ValidationCheck(submitted, stored)
  {
  }

  /** The check is an equivalence on records: every record passes against itself, and
      agreement is symmetric and transitive. */
  lemma ValidationCheckEquivalence(a: UserRecord, b: UserRecord, c: UserRecord)
    ensures ValidationCheck(a, a)
    ensures ValidationCheck(a, b) ==> ValidationCheck(b, a)
    ensures ValidationCheck(a, b) && ValidationCheck(b, c) ==> ValidationCheck(a, c)
  {
    EqualsIgnoreCaseEquivalence(a.email, b.email, c.email);
  }

  /** An EmployeeDto built by its all-arguments constructor carries role EMPLOYEE whatever
      role it was given, so it passes the check only against a stored EMPLOYEE record. */
  lemma NewEmployeeMatchesOnlyEmployees(id: int, email: string, username: string,
                                        permissions: seq<Permission>, profile: map<string, string>,
                                        stored: UserRecord)
    requires stored.role != EMPLOYEE
    ensures !ValidationCheck(NewEmployee(id, email, username, permissions, profile), stored)
  {
  }

  // ---------------------------------------------------------------------------------------
  // deleteUserByEmail

  /** Who may delete the record stored under `email`: a USER only its own (a string email
      claim of exactly that spelling), an EMPLOYEE a USER-role record or its own, an ADMIN any. */
  predicate DeletePermitted(role: Role, claimEmail: ClaimValue, email: string,
                            target: Option<UserRecord>)
    requires role == EMPLOYEE ==> target.Some?
  {
    match role
    case USER => claimEmail == StringClaim(email)
    case EMPLOYEE => target.value.role == USER || claimEmail == StringClaim(email)
    case ADMIN => true
  }

  /** deleteUserByEmail's decision, where `target` is what userService.findByEmail(email)
      returns. An EMPLOYEE's rule dereferences the stored record, which faults when none is
      stored; a USER's and an ADMIN's never read it. */
  function DeleteUserByEmail(claims: Extracted, email: string, target: Option<UserRecord>): (r: Outcome)
    ensures r == Respond(Unauthorized) <==> claims.NoClaims?
    ensures r == Fault <==> claims.Rejected?
                            || (claims.Decoded? && (RoleClaim(claims.claims).None?
                                || (RoleClaim(claims.claims) == Some(EMPLOYEE) && target.None?)))
    ensures claims.Decoded? && RoleClaim(claims.claims).Some?
            && (RoleClaim(claims.claims) == Some(EMPLOYEE) ==> target.Some?)
            ==> r == Respond(if DeletePermitted(RoleClaim(claims.claims).value, claims.claims.email,
                                                email, target)
                             then Ok else Forbidden)
  {
    match claims
    case NoClaims => Respond(Unauthorized)
    case Rejected => Fault
    case Decoded(c) =>
      match RoleClaim(c)
      case None => Fault
      case Some(role) =>
        if role == USER && c.email != StringClaim(email) then Respond(Forbidden)
        else if role == EMPLOYEE && target.None? then Fault
        else if role == EMPLOYEE && target.value.role != USER && c.email != StringClaim(email) then
          Respond(Forbidden)
        else Respond(Ok)
  }

  /** The delete decision for an actor whose token names `role` and `claimEmail`. */
  function DeleteAs(role: Role, claimEmail: ClaimValue, email: string,
                    target: Option<UserRecord>): Outcome
  {
    DeleteUserByEmail(Decoded(Claims(claimEmail, StringClaim(RoleName(role)))), email, target)
  }

  /** Roles are nested for deletion: what a USER may delete an EMPLOYEE may, and what an
      EMPLOYEE may an ADMIN may. */
  lemma DeleteRolesNested(claimEmail: ClaimValue, email: string, target: UserRecord)
    ensures DeleteAs(USER, claimEmail, email, Some(target)) == Respond(Ok)
            ==> DeleteAs(EMPLOYEE, claimEmail, email, Some(target)) == Respond(Ok)
    ensures DeleteAs(EMPLOYEE, claimEmail, email, Some(target)) == Respond(Ok)
            ==> DeleteAs(ADMIN, claimEmail, email, Some(target)) == Respond(Ok)
    ensures DeleteAs(ADMIN, claimEmail, email, None) == Respond(Ok)
  {
    ValueOfRoleName(USER);
    ValueOfRoleName(EMPLOYEE);
    ValueOfRoleName(ADMIN);
  }

  /** The email test is exact: a USER whose token spells its email in another case may not
      delete its own record, although validationCheck would treat the two as equal. */
  lemma DeleteIsCaseSensitive(claimEmail: string, email: string, target: UserRecord)
    requires claimEmail != email && EqualsIgnoreCase(claimEmail, email)
    ensures DeleteAs(USER, StringClaim(claimEmail), email, Some(target)) == Respond(Forbidden)
  {
    ValueOfRoleName(USER);
  }

  /** An EMPLOYEE may delete a USER-role record whatever its email, and nothing else of
      someone else's. */
  lemma EmployeeDeleteRule(claimEmail: string, email: string, target: UserRecord)
    requires claimEmail != email
    ensures DeleteAs(EMPLOYEE, StringClaim(claimEmail), email, Some(target)) == Respond(Ok)
            <==> target.role == USER
  {
    ValueOfRoleName(EMPLOYEE);
  }

  // ---------------------------------------------------------------------------------------
  // updateUser

  /** The role rule of updateUser before the field check: a USER must submit its own email
      (exact spelling); an EMPLOYEE must submit a USER-role record or its own email; an
      ADMIN always passes. The role tested is the SUBMITTED record's. */
  predicate UpdateRoleRule(role: Role, claimEmail: ClaimValue, submitted: UserRecord)
  {
    match role
    case USER => claimEmail == StringClaim(submitted.email)
    case EMPLOYEE => submitted.role == USER || claimEmail == StringClaim(submitted.email)
    case ADMIN => true
  }

  /** An update goes through when the role rule admits it and the identity fields agree. */
  predicate UpdatePermitted(role: Role, claimEmail: ClaimValue, submitted: UserRecord,
                            stored: UserRecord)
  {
    UpdateRoleRule(role, claimEmail, submitted) && IdentityFieldsAgree(submitted, stored)
  }

  /** The status of a refused update: 401 for a USER editing its own record with changed
      identity fields, 403 for everything else. */
  function UpdateDenial(role: Role, claimEmail: ClaimValue, submitted: UserRecord): (s: Status)
    ensures s == Unauthorized || s == Forbidden
    ensures s == Unauthorized <==> role == USER && claimEmail == StringClaim(submitted.email)
  {
    if role == USER && claimEmail == StringClaim(submitted.email) then Unauthorized else Forbidden
  }

  /** updateUser's decision, where `stored` is what userService.findByEmail returns for the
      submitted email. The stored record is dereferenced only once the role rule admits the
      update, and faults when none is stored. RoleType has exactly three constants, so the
      final unconditional update of the Java method is never reached. */
  function UpdateUser(claims: Extracted, submitted: UserRecord, stored: Option<UserRecord>): (r: Outcome)
    ensures claims.NoClaims? ==> r == Respond(Unauthorized)
    ensures r == Fault <==> claims.Rejected?
                            || (claims.Decoded? && (RoleClaim(claims.claims).None?
                                || (stored.None? && UpdateRoleRule(RoleClaim(claims.claims).value,
                                                                   claims.claims.email, submitted))))
    ensures claims.Decoded? && RoleClaim(claims.claims).Some? && stored.None?
            && !UpdateRoleRule(RoleClaim(claims.claims).value, claims.claims.email, submitted)
            ==> r == Respond(UpdateDenial(RoleClaim(claims.claims).value, claims.claims.email, submitted))
    ensures claims.Decoded? && RoleClaim(claims.claims).Some? && stored.Some?
            ==> r == Respond(if UpdatePermitted(RoleClaim(claims.claims).value, claims.claims.email,
                                                submitted, stored.value)
                             then Ok
                             else UpdateDenial(RoleClaim(claims.claims).value, claims.claims.email,
                                               submitted))
    ensures r == Respond(Ok) ==> stored.Some? && IdentityFieldsAgree(submitted, stored.value)
  {
    match claims
    case NoClaims => Respond(Unauthorized)
    case Rejected => Fault
    case Decoded(c) =>
      match RoleClaim(c)
      case None => Fault
      case Some(role) =>
        match role
        case USER =>
          if c.email == StringClaim(submitted.email) then
            if stored.None? then Fault
            else if ValidationCheck(submitted, stored.value) then Respond(Ok)
            else Respond(Unauthorized)
          else Respond(Forbidden)
        case EMPLOYEE =>
          if submitted.role == USER || c.email == StringClaim(submitted.email) then
            if stored.None? then Fault
            else if ValidationCheck(submitted, stored.value) then Respond(Ok)
            else Respond(Forbidden)
          else Respond(Forbidden)
        case ADMIN =>
          if stored.None? then Fault
          else if ValidationCheck(submitted, stored.value) then Respond(Ok)
          else Respond(Forbidden)
  }

  /** The update decision for an actor whose token names `role` and `claimEmail`. */
  function UpdateAs(role: Role, claimEmail: ClaimValue, submitted: UserRecord,
                    stored: Option<UserRecord>): Outcome
  {
    UpdateUser(Decoded(Claims(claimEmail, StringClaim(RoleName(role)))), submitted, stored)
  }

  /** Roles are nested for updates too. */
  lemma UpdateRolesNested(claimEmail: ClaimValue, submitted: UserRecord, stored: UserRecord)
    ensures UpdateAs(USER, claimEmail, submitted, Some(stored)) == Respond(Ok)
            ==> UpdateAs(EMPLOYEE, claimEmail, submitted, Some(stored)) == Respond(Ok)
    ensures UpdateAs(EMPLOYEE, claimEmail, submitted, Some(stored)) == Respond(Ok)
            ==> UpdateAs(ADMIN, claimEmail, submitted, Some(stored)) == Respond(Ok)
  {
    ValueOfRoleName(USER);
    ValueOfRoleName(EMPLOYEE);
    ValueOfRoleName(ADMIN);
  }

  /** A USER editing its own record cannot promote itself to ADMIN: the field check fails,
      and for a USER that is answered with 401. */
  lemma UserCannotPromoteItself(me: string, submitted: UserRecord, stored: UserRecord)
    requires submitted.email == me && stored.role == USER && submitted.role == ADMIN
    ensures UpdateAs(USER, StringClaim(me), submitted, Some(stored)) == Respond(Unauthorized)
  {
    ValueOfRoleName(USER);
  }

  /** Testing the submitted role rather than the stored one (as the delete rule does) makes
      no difference once a stored record exists: the field check forces the two roles to
      agree. */
  lemma EmployeeUpdateRoleTestHarmless(claimEmail: ClaimValue, submitted: UserRecord,
                                       stored: UserRecord)
    ensures UpdateAs(EMPLOYEE, claimEmail, submitted, Some(stored)) == Respond(Ok)
            <==> (stored.role == USER || claimEmail == StringClaim(submitted.email))
                 && ValidationCheck(submitted, stored)
  {
    ValueOfRoleName(EMPLOYEE);
  }

  /** The email test of the role rule is exact while the field check ignores case: a USER
      whose token spells its email in another case is refused with 403 although the record
      would pass validationCheck. */
  lemma UpdateIsCaseSensitive(email: string, stored: UserRecord)
    requires email != stored.email && EqualsIgnoreCase(email, stored.email)
    ensures ValidationCheck(stored.(email := email), stored)
    ensures UpdateAs(USER, StringClaim(stored.email), stored.(email := email), Some(stored))
            == Respond(Forbidden)
  {
    ValueOfRoleName(USER);
    EqualsIgnoreCaseEquivalence(stored.email, stored.email, stored.email);
  }

  // ---------------------------------------------------------------------------------------
  // changePasswordSubmit

  /** The stored user entity, of which the submission rewrites the password hash. */
  class User {
    var email: string
    var password: string

    constructor (email: string, password: string)
      ensures this.email == email && this.password == password
    {
      this.email := email;
      this.password := password;
    }
  }

  /** PasswordChangeTokenDto: the email the reset is for and the link sent to it. */
  datatype PasswordChangeToken = PasswordChangeToken(email: string, urlLink: string)

  /** The collaborators of a submission: passwordEncoder.matches and .encode,
      passwordValidator.isValid and changedPasswordTokenUtil.isTokenValid. */
  datatype PasswordServices = PasswordServices(
    matches: (string, string) -> bool,
    encode: string -> string,
    isValid: string -> bool,
    isTokenValid: PasswordChangeToken -> bool)

  /** Which guard of the submission decided, in the order the guards run. */
  datatype SubmitResult = UserNotFound | EmailMismatch | PasswordReused | PasswordMalformed
                        | TokenRejected | PasswordChanged | SubmitFault

  /** The status each guard answers with: 404, 403, 400, 400, 401 and 200, or the exception. */
  function SubmitReply(r: SubmitResult): (o: Outcome)
    ensures r == UserNotFound ==> o == Respond(NotFound)
    ensures r == EmailMismatch ==> o == Respond(Forbidden)
    ensures r == PasswordReused || r == PasswordMalformed ==> o == Respond(BadRequest)
    ensures r == TokenRejected ==> o == Respond(Unauthorized)
    ensures r == PasswordChanged ==> o == Respond(Ok)
    ensures r == SubmitFault ==> o == Fault
    ensures o == Respond(BadRequest) <==> r == PasswordReused || r == PasswordMalformed
  {
    match r
    case UserNotFound => Respond(NotFound)
    case EmailMismatch => Respond(Forbidden)
    case PasswordReused => Respond(BadRequest)
    case PasswordMalformed => Respond(BadRequest)
    case TokenRejected => Respond(Unauthorized)
    case PasswordChanged => Respond(Ok)
    case SubmitFault => Fault
  }

  /** The claims the submission decodes: None where the "authorization" header is missing
      (the call on null throws) or the JWT library refuses what is left of it once every
      "Bearer " is removed. */
  function SubmitClaims(authorization: Option<string>, extractAllClaims: string -> Option<Claims>)
    : (c: Option<Claims>)
    ensures c.Some? <==> authorization.Some?
                         && extractAllClaims(RemoveAll(authorization.value, BearerPrefix)).Some?
    ensures c.Some? ==> c == extractAllClaims(RemoveAll(authorization.value, BearerPrefix))
  {
    if authorization.None? then None else extractAllClaims(RemoveAll(authorization.value, BearerPrefix))
  }

  /** The first three guards passed: the claims decoded, a user is stored under the request's
      email, and the token's email claim, rendered as text, equals that email ignoring case. */
  predicate OwnerConfirmed(claims: Option<Claims>, storedPassword: Option<string>, dto: PasswordChangeToken)
  {
    && claims.Some?
    && storedPassword.Some?
    && Rendered(claims.value.email).Some?
    && EqualsIgnoreCase(Rendered(claims.value.email).value, dto.email)
  }

  /** The guard chain of changePasswordSubmit. `authorization` is the raw "authorization"
      header; `storedPassword` is the password of the user found under `dto.email`, None when
      there is none. Each result holds exactly when the guards before it passed and its own
      failed, in the order header and token, user, email, reuse, format, reset token. */
  function SubmitOutcome(authorization: Option<string>, extractAllClaims: string -> Option<Claims>,
                         storedPassword: Option<string>, dto: PasswordChangeToken,
                         newPassword: string, services: PasswordServices): (r: SubmitResult)
    ensures var c := SubmitClaims(authorization, extractAllClaims);
            r == SubmitFault <==> c.None? || (storedPassword.Some? && c.value.email.NoClaim?)
    ensures var c := SubmitClaims(authorization, extractAllClaims);
            r == UserNotFound <==> c.Some? && storedPassword.None?
    ensures var c := SubmitClaims(authorization, extractAllClaims);
            r == EmailMismatch <==> c.Some? && storedPassword.Some? && Rendered(c.value.email).Some?
                                    && !EqualsIgnoreCase(Rendered(c.value.email).value, dto.email)
    ensures var c := SubmitClaims(authorization, extractAllClaims);
            r == PasswordReused <==> OwnerConfirmed(c, storedPassword, dto)
                                     && services.matches(newPassword, storedPassword.value)
    ensures var c := SubmitClaims(authorization, extractAllClaims);
            r == PasswordMalformed <==> OwnerConfirmed(c, storedPassword, dto)
                                        && !services.matches(newPassword, storedPassword.value)
                                        && !services.isValid(newPassword)
    ensures var c := SubmitClaims(authorization, extractAllClaims);
            r == TokenRejected <==> OwnerConfirmed(c, storedPassword, dto)
                                    && !services.matches(newPassword, storedPassword.value)
                                    && services.isValid(newPassword) && !services.isTokenValid(dto)
    ensures var c := SubmitClaims(authorization, extractAllClaims);
            r == PasswordChanged <==> OwnerConfirmed(c, storedPassword, dto)
                                      && !services.matches(newPassword, storedPassword.value)
                                      && services.isValid(newPassword) && services.isTokenValid(dto)
  {
    if authorization.None? then SubmitFault
    else
      var claims := extractAllClaims(RemoveAll(authorization.value, BearerPrefix));
      if claims.None? then SubmitFault
      else if storedPassword.None? then UserNotFound
      else if Rendered(claims.value.email).None? then SubmitFault
      else if !EqualsIgnoreCase(Rendered(claims.value.email).value, dto.email) then EmailMismatch
      else if services.matches(newPassword, storedPassword.value) then PasswordReused
      else if !services.isValid(newPassword) then PasswordMalformed
      else if services.isTokenValid(dto) then PasswordChanged
      else TokenRejected
  }

  /** The guards run in a fixed order: once one fails, none of the later ones is consulted,
      so changing what a later guard would say leaves the result alone. */
  lemma SubmitGuardOrder(authorization: Option<string>, extractAllClaims: string -> Option<Claims>,
                         storedPassword: Option<string>, dto: PasswordChangeToken,
                         newPassword: string, s: PasswordServices, t: PasswordServices)
    ensures var r := SubmitOutcome(authorization, extractAllClaims, storedPassword, dto, newPassword, s);
            r in {UserNotFound, EmailMismatch, SubmitFault}
            ==> SubmitOutcome(authorization, extractAllClaims, storedPassword, dto, newPassword, t) == r
    ensures SubmitOutcome(authorization, extractAllClaims, storedPassword, dto, newPassword, s)
              == PasswordReused
            && t.matches == s.matches
            ==> SubmitOutcome(authorization, extractAllClaims, storedPassword, dto, newPassword, t)
                == PasswordReused
    ensures SubmitOutcome(authorization, extractAllClaims, storedPassword, dto, newPassword, s)
              == PasswordMalformed
            && t.matches == s.matches && t.isValid == s.isValid
            ==> SubmitOutcome(authorization, extractAllClaims, storedPassword, dto, newPassword, t)
                == PasswordMalformed
  {
  }

  /** The email test of the submission ignores case: a request whose email is the token's in
      another spelling is never refused with 403. */
  lemma SubmitEmailIgnoresCase(authorization: string, extractAllClaims: string -> Option<Claims>,
                               storedPassword: Option<string>, dto: PasswordChangeToken,
                               newPassword: string, services: PasswordServices)
    requires extractAllClaims(RemoveAll(authorization, BearerPrefix)).Some?
    requires Rendered(extractAllClaims(RemoveAll(authorization, BearerPrefix)).value.email).Some?
    requires ToLower(Rendered(extractAllClaims(RemoveAll(authorization, BearerPrefix)).value.email).value)
             == ToLower(dto.email)
    ensures SubmitOutcome(Some(authorization), extractAllClaims, storedPassword, dto, newPassword,
                          services) != EmailMismatch
  {
    EqualsIgnoreCaseIffSameLower(
      Rendered(extractAllClaims(RemoveAll(authorization, BearerPrefix)).value.email).value, dto.email);
  }

  /** An email claim that is not a JSON string is compared by its toString text in the
      submission, exactly as a string claim with that text would be, while the delete rule's
      String.equals never accepts it. */
  lemma NonStringEmailClaim(authorization: string, e1: string -> Option<Claims>,
                            e2: string -> Option<Claims>, storedPassword: Option<string>,
                            dto: PasswordChangeToken, newPassword: string,
                            services: PasswordServices, text: string, role: ClaimValue,
                            target: UserRecord)
    requires e1(RemoveAll(authorization, BearerPrefix)) == Some(Claims(OtherClaim(text), role))
    requires e2(RemoveAll(authorization, BearerPrefix)) == Some(Claims(StringClaim(text), role))
    ensures SubmitOutcome(Some(authorization), e1, storedPassword, dto, newPassword, services)
            == SubmitOutcome(Some(authorization), e2, storedPassword, dto, newPassword, services)
    ensures DeleteAs(USER, OtherClaim(text), text, Some(target)) == Respond(Forbidden)
    ensures DeleteAs(USER, StringClaim(text), text, Some(target)) == Respond(Ok)
  {
    ValueOfRoleName(USER);
  }

  /** The submission strips its header with replace("Bearer ", ""), not as a prefix: a
      header with a repeated prefix yields a different token than getClaims reads from it. */
  lemma SubmitStripDiffersFromGetClaims(port: int)
    ensures RemoveAll("Bearer Bearer x", BearerPrefix) == "x"
    ensures BearerToken(Request(map["Authorization" := "Bearer Bearer x"], port)) == Some("Bearer x")
  {
    RemoveAllLeading(BearerPrefix, "Bearer x");
    RemoveAllLeading(BearerPrefix, "x");
    assert "Bearer Bearer x" == BearerPrefix + "Bearer x";
    assert "Bearer x" == BearerPrefix + "x";
    BearerTokenRoundTrip(Request(map["Authorization" := "Bearer Bearer x"], port), "Bearer x");
  }

  /** For a token without spaces, as every compact JWT is, the two ways of stripping the
      prefix agree. */
  lemma SubmitStripAgreesOnTokensWithoutSpaces(t: string)
    requires forall i :: 0 <= i < |t| ==> t[i] != ' '
    ensures RemoveAll(BearerPrefix + t, BearerPrefix) == t
  {
    RemoveAllLeading(BearerPrefix, t);
    RemoveAllAbsent(t, BearerPrefix, 6);
  }

  /** changePasswordSubmit. `user` is what userService.findUserByEmail returns for the
      `dto.email` (null when absent). Its password becomes the encoding of the new
      password on the 200 path and stays as it was on every other. */
  method ChangePasswordSubmit(req: Request, extractAllClaims: string -> Option<Claims>, user: User?,
                              dto: PasswordChangeToken, newPassword: string,
                              services: PasswordServices)
    returns (result: SubmitResult)
    modifies user
    ensures result == SubmitOutcome(Header(req, "authorization"), extractAllClaims,
                                    if user == null then None else Some(old(user.password)),
                                    dto, newPassword, services)
    ensures user != null ==> user.email == old(user.email)
    ensures user != null ==> user.password == (if result == PasswordChanged
                                               then services.encode(newPassword)
                                               else old(user.password))
  {
    var header := Header(req, "authorization");
    if header.None? {
      return SubmitFault;
    }
    var extracted := extractAllClaims(RemoveAll(header.value, BearerPrefix));
    if extracted.None? {
      return SubmitFault;
    }
    if user == null {
      return UserNotFound;
    }
    var claimEmail := Rendered(extracted.value.email);
    if claimEmail.None? {
      return SubmitFault;
    }
    if !EqualsIgnoreCase(claimEmail.value, dto.email) {
      return EmailMismatch;
    }
    if services.matches(newPassword, user.password) {
      return PasswordReused;
    }
    if !services.isValid(newPassword) {
      return PasswordMalformed;
    }
    if services.isTokenValid(dto) {
      user.password := services.encode(newPassword);
      return PasswordChanged;
    }
    return TokenRejected;
  }

  // ---------------------------------------------------------------------------------------
  // InitiatesChangePassword

  const LinkHost: string := "http://localhost:"
  const LinkPath: string := "/api/users/changePasswordSubmit/"

  /** The base of the reset link for a server port. */
  function LinkBase(port: int): (url: string)
    ensures |url| == |LinkHost| + |IntToString(port)| + |LinkPath|
    ensures url[..|LinkHost|] == LinkHost
    ensures url[|LinkHost|..|url| - |LinkPath|] == IntToString(port)
    ensures url[|url| - |LinkPath|..] == LinkPath
  {
    LinkHost + IntToString(port) + LinkPath
  }

  /** The link base names the port exactly: distinct ports give distinct bases. */
  lemma LinkBaseInjective(a: int, b: int)
    requires LinkBase(a) == LinkBase(b)
    ensures a == b
  {
    IntToStringInjective(a, b);
  }

  /** A message handed to userService.sendToQueue. */
  datatype QueueMessage = QueueMessage(email: string, urlLink: string)

  /** What initiation does: refuse with 429 and do nothing else, or look the user up under
      the lower-cased email, have a token generated for the link base, queue the link for the
      email as given, and answer 200 with the token. */
  datatype Initiation = RateLimited
                      | Issued(lookupEmail: string, baseUrl: string, token: PasswordChangeToken,
                               message: QueueMessage)

  /** InitiatesChangePassword. `allowRequest` is the rate limiter's answer for an email,
      `findByEmail` the user service's lookup and `generateToken` the reset-token store. */
  function InitiateChangePassword(email: string, req: Request, allowRequest: string -> bool,
                                  findByEmail: string -> Option<UserRecord>,
                                  generateToken: (Option<UserRecord>, string) -> PasswordChangeToken)
    : (r: Initiation)
    ensures r.RateLimited? <==> !allowRequest(email)
    ensures r.Issued? ==> r.lookupEmail == ToLower(email) && r.baseUrl == LinkBase(req.serverPort)
    ensures r.Issued? ==> r.token == generateToken(findByEmail(ToLower(email)), r.baseUrl)
    ensures r.Issued? ==> r.message == QueueMessage(email, r.token.urlLink)
  {
    if !allowRequest(email) then RateLimited
    else
      var baseUrl := LinkBase(req.serverPort);
      var token := generateToken(findByEmail(ToLower(email)), baseUrl);
      Issued(ToLower(email), baseUrl, token, QueueMessage(email, token.urlLink))
  }

  /** The status of an initiation. */
  function InitiationStatus(r: Initiation): (s: Status)
    ensures s == TooManyRequests <==> r.RateLimited?
    ensures s == Ok <==> r.Issued?
  {
    if r.RateLimited? then TooManyRequests else Ok
  }

  /** Two spellings of an email that differ only in case are looked up under the same
      lower-cased email with the same link base, while the rate limiter and the queue see each
      spelling as given. */
  lemma InitiationLookupIgnoresCase(e1: string, e2: string, req: Request, allowRequest: string -> bool,
                                    findByEmail: string -> Option<UserRecord>,
                                    generateToken: (Option<UserRecord>, string) -> PasswordChangeToken)
    requires EqualsIgnoreCase(e1, e2)
    requires allowRequest(e1) && allowRequest(e2)
    ensures var r1 := InitiateChangePassword(e1, req, allowRequest, findByEmail, generateToken);
            var r2 := InitiateChangePassword(e2, req, allowRequest, findByEmail, generateToken);
            && r1.Issued? && r2.Issued?
            && r1.lookupEmail == r2.lookupEmail && r1.baseUrl == r2.baseUrl
            && r1.message.email == e1 && r2.message.email == e2
  {
    EqualsIgnoreCaseIffSameLower(e1, e2);
  }

  /** Two issued initiations with the same link base were served on the same port. */
  lemma InitiationLinkNamesPort(email: string, r1: Request, r2: Request, allowRequest: string -> bool,
                                findByEmail: string -> Option<UserRecord>,
                                generateToken: (Option<UserRecord>, string) -> PasswordChangeToken)
    requires allowRequest(email)
    requires InitiateChangePassword(email, r1, allowRequest, findByEmail, generateToken).baseUrl
             == InitiateChangePassword(email, r2, allowRequest, findByEmail, generateToken).baseUrl
    ensures r1.serverPort == r2.serverPort
  {
    LinkBaseInjective(r1.serverPort, r2.serverPort);
  }

  // ---------------------------------------------------------------------------------------
  // createEmployee, ActivateEmployee, DeactivateEmployee

  /** How userService.createEmployee ended: the new employee's id, one of the two exceptions
      the controller catches, or any other exception. */
  datatype CreateCall = Created(id: int) | EmailTaken(message: string)
                      | MissingRole(message: string) | OtherException

  datatype CreateReply = IdBody(status: Status, id: int) | MessageBody(status: Status, message: string)
                       | CreateFault

  /** createEmployee: 200 with the id, 400 for a taken email, 500 for a missing role, both with
      the exception's message; any other exception escapes. */
  function CreateEmployee(call: CreateCall): (r: CreateReply)
    ensures r.IdBody? <==> call.Created?
    ensures call.Created? ==> r == IdBody(Ok, call.id)
    ensures call.EmailTaken? ==> r == MessageBody(BadRequest, call.message)
    ensures call.MissingRole? ==> r == MessageBody(InternalServerError, call.message)
    ensures r.CreateFault? <==> call.OtherException?
  {
    match call
    case Created(id) => IdBody(Ok, id)
    case EmailTaken(m) => MessageBody(BadRequest, m)
    case MissingRole(m) => MessageBody(InternalServerError, m)
    case OtherException => CreateFault
  }

  /** How userService.employeeActivation or .employeeDeactivation ended. */
  datatype ServiceCall = Completed | Threw

  datatype ActivationReply = ActivationReply(status: Status, body: bool)

  /** ActivateEmployee and DeactivateEmployee: any exception becomes 500 with false, success
      200 with true. */
  function EmployeeActivationReply(call: ServiceCall): (r: ActivationReply)
    ensures r.status == Ok || r.status == InternalServerError
    ensures r.status == Ok <==> call == Completed
    ensures r.body <==> r.status == Ok
  {
    match call
    case Completed => ActivationReply(Ok, true)
    case Threw => ActivationReply(InternalServerError, false)
  }
}
