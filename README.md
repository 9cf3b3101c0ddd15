# IAM service user controller: authorization and password-change decisions

This project models the decision logic of the IAM service's `UserController`. It covers:

- the bearer-header parsing of `getClaims`;
- the field-invariant predicate `validationCheck`;
- the role rules of `deleteUserByEmail` and `updateUser`;
- the guard chain of `changePasswordSubmit`, which rewrites a stored password;
- the rate-limited `InitiatesChangePassword`;
- the exception-to-status mapping of `createEmployee`, `ActivateEmployee` and `DeactivateEmployee`.

Files:

- `text.dfy`, module `Text`: the `String` and `Integer` behaviour the controller relies on. This is `toLowerCase`, `equalsIgnoreCase`, `startsWith`, `replace(target, "")` and `Integer.toString`, with their properties (case-insensitive equality is equality of lower-cased forms, rendering a number is injective, and so on).
- `users.dfy`, module `Users`: the role enum, `RoleType.valueOf`, permissions, the claims of a decoded token, and the user record. A claim is absent, a JSON string, or another JSON value kept with its `toString` text. The record is one tagged variant `Employee | PrivateClient | CorporateClient | PlainUser`, standing for `UserDto` and its subclasses. The all-arguments `EmployeeDto` constructor fixes the role to `EMPLOYEE`.
- `user_controller.dfy`, module `UserController`: the handlers. Each handler that decides is a function returning an `Outcome`. An `Outcome` is either a response status or `Fault`, where `Fault` is an exception escaping the handler (a null dereference, `valueOf` on an unknown role name, or a token the JWT library refuses). Each decision function is tied to a positive decision table (`DeletePermitted`, `UpdateRoleRule`/`UpdatePermitted`) or to a guard-by-guard characterisation (`SubmitOutcome`, `SubmitGuardOrder`). `changePasswordSubmit` is a method on a `User` object whose `password` field it rewrites.

Collaborators are function parameters:

- the JWT library's `extractAllClaims`, where `None` means it throws;
- the user service's lookups, whose results are passed in;
- `passwordEncoder.matches` and `.encode`;
- `passwordValidator.isValid`;
- `submitLimiter.allowRequest`;
- `changedPasswordTokenUtil.generateToken` and `.isTokenValid`.

Where the service's intended behaviour and the code differ, the model follows the code:

- The code compares primary account numbers (lines 276 and 281), but the comparison's result never matters. Both outcomes of the account-number tests at lines 275-284 lead to `true`, because line 285 returns `true`. The intended rule is that a client's account number must also match.
- The intended rule compares permissions as a set. The code compares them with `List.equals`, which is order-sensitive.
- A token the JWT library refuses is meant to be answered with 401. The code lets the library's exception escape (`Fault`).
- The EMPLOYEE update rule tests the submitted record's role and email, not the stored record's (line 242). `EmployeeUpdateRoleTestHarmless` proves that, for the role, this makes no difference once a stored record exists.
- Delete and update compare the actor's email case-sensitively (lines 188, 194, 233, 242). `validationCheck` and `changePasswordSubmit` ignore case (lines 274, 103).

## Model

| member | source | states |
|---|---|---|
| Text.LowerChar | IAMService/src/main/java/rs/edu/raf/IAMService/controllers/UserController.java:86 | folding maps each of 'A'..'Z' to the letter 32 code points on, in 'a'..'z', and leaves every other character alone |
| Text.ToLower | IAMService/src/main/java/rs/edu/raf/IAMService/controllers/UserController.java:86 | `toLowerCase` keeps the length and folds every character in place |
| Text.EqualsIgnoreCase | IAMService/src/main/java/rs/edu/raf/IAMService/controllers/UserController.java:274 | `equalsIgnoreCase` (also used at line 103) only holds between strings of equal length and holds between equal strings |
| Text.EqualsIgnoreCaseIffSameLower | IAMService/src/main/java/rs/edu/raf/IAMService/controllers/UserController.java:103 | `equalsIgnoreCase` holds exactly when both lower-cased forms are equal (both directions) |
| Text.EqualsIgnoreCaseEquivalence | IAMService/src/main/java/rs/edu/raf/IAMService/controllers/UserController.java:274 | case-insensitive equality contains equality and is symmetric and transitive |
| Text.StartsWith | IAMService/src/main/java/rs/edu/raf/IAMService/controllers/UserController.java:266 | a string that starts with the prefix is that prefix followed by the rest |
| Text.RemoveAll | IAMService/src/main/java/rs/edu/raf/IAMService/controllers/UserController.java:94 | `replace("Bearer ", "")` never lengthens the header |
| Text.RemoveAllLeading | IAMService/src/main/java/rs/edu/raf/IAMService/controllers/UserController.java:94 | a leading "Bearer " is dropped and the scan continues behind it |
| Text.RemoveAllAbsent | IAMService/src/main/java/rs/edu/raf/IAMService/controllers/UserController.java:94 | a string lacking one of the target's characters is returned unchanged |
| Text.NatToString | IAMService/src/main/java/rs/edu/raf/IAMService/controllers/UserController.java:84 | the decimal rendering of the port is a non-empty string of digits |
| Text.IntToString | IAMService/src/main/java/rs/edu/raf/IAMService/controllers/UserController.java:84 | `int` concatenation renders a non-negative number as its decimal digits and a negative one as '-' followed by the digits of its magnitude; the first character is a digit exactly for non-negative numbers |
| Text.ParseNatToString | IAMService/src/main/java/rs/edu/raf/IAMService/controllers/UserController.java:84 | reading the rendered digits back gives the number: the rendering loses nothing |
| Text.NatToStringInjective | IAMService/src/main/java/rs/edu/raf/IAMService/controllers/UserController.java:84 | distinct natural numbers render differently |
| Text.IntToStringInjective | IAMService/src/main/java/rs/edu/raf/IAMService/controllers/UserController.java:84 | distinct ints render differently, sign included |
| Users.ValueOf | IAMService/src/main/java/rs/edu/raf/IAMService/controllers/UserController.java:185 | `RoleType.valueOf` yields the role whose name is exactly the string, and fails for every string that names no role |
| Users.ValueOfRoleName | IAMService/src/main/java/rs/edu/raf/IAMService/controllers/UserController.java:185 | every role's name parses back to that role |
| Users.RoleClaim | IAMService/src/main/java/rs/edu/raf/IAMService/controllers/UserController.java:230 | the role claim yields a role exactly when it is a string claim that names one (missing, non-string or unknown claims throw), and the claim is then that role's name |
| Users.NewEmployee | IAMService/src/main/java/rs/edu/raf/IAMService/data/dto/EmployeeDto.java:21-42 | the all-arguments EmployeeDto is an Employee record with role EMPLOYEE and the given identity fields |
| Users.Rendered | IAMService/src/main/java/rs/edu/raf/IAMService/controllers/UserController.java:103 | `claim.toString()` throws exactly for an absent claim and gives a string claim's text or another value's rendering |
| UserController.Header | IAMService/src/main/java/rs/edu/raf/IAMService/controllers/UserController.java:259 | `getHeader` returns the header's value when present and null otherwise |
| UserController.SelectedHeader | IAMService/src/main/java/rs/edu/raf/IAMService/controllers/UserController.java:259-264 | the selected header is never null or empty; it is Authorization when that is usable, else authorization when that is usable, and none exactly when neither is |
| UserController.BearerToken | IAMService/src/main/java/rs/edu/raf/IAMService/controllers/UserController.java:259-269 | a token exists exactly when the selected header (Authorization, else authorization when the first is null or empty) starts with "Bearer "; the header is then "Bearer " + token |
| UserController.BearerTokenNeedsAHeader | IAMService/src/main/java/rs/edu/raf/IAMService/controllers/UserController.java:259-264 | with both headers null or empty there is no token |
| UserController.BearerTokenIgnoresFallback | IAMService/src/main/java/rs/edu/raf/IAMService/controllers/UserController.java:259-265 | with a usable Authorization header, the token does not depend on the lower-case header's value or presence |
| UserController.BearerTokenRoundTrip | IAMService/src/main/java/rs/edu/raf/IAMService/controllers/UserController.java:266-269 | "Bearer " + t in the consulted header yields exactly t (the first 7 characters are dropped) |
| UserController.BearerPrefixIsCaseSensitive | IAMService/src/main/java/rs/edu/raf/IAMService/controllers/UserController.java:266-268 | any selected header beginning with a lower-case 'b' (such as "bearer abc") carries no token |
| UserController.GetClaims | IAMService/src/main/java/rs/edu/raf/IAMService/controllers/UserController.java:258-271 | null exactly when there is no bearer token; otherwise the JWT library's claims for that token, or its exception |
| UserController.ValidationCheck | IAMService/src/main/java/rs/edu/raf/IAMService/controllers/UserController.java:273-289 | true exactly when email (ignoring case), role, permissions (in order), id and username agree; the account-number tests never change the result |
| UserController.ValidationCheckIgnoresAccountNumber | IAMService/src/main/java/rs/edu/raf/IAMService/controllers/UserController.java:275-285 | replacing a client's primary account number by any other leaves the result unchanged |
| UserController.ValidationCheckIgnoresProfile | IAMService/src/main/java/rs/edu/raf/IAMService/controllers/UserController.java:274 | profile fields and the record variant never affect the check |
| UserController.ValidationCheckEquivalence | IAMService/src/main/java/rs/edu/raf/IAMService/controllers/UserController.java:274 | the check is reflexive, symmetric and transitive |
| UserController.NewEmployeeMatchesOnlyEmployees | IAMService/src/main/java/rs/edu/raf/IAMService/data/dto/EmployeeDto.java:36 | a record built by the all-arguments EmployeeDto constructor never passes validationCheck against a stored record whose role is not EMPLOYEE |
| UserController.DeleteUserByEmail | IAMService/src/main/java/rs/edu/raf/IAMService/controllers/UserController.java:179-199 | 401 exactly when no claims are extracted, whatever the target; faults exactly on a refused token, an unknown role, or an EMPLOYEE with no stored record; otherwise Ok exactly when the table allows (USER: own email exactly; EMPLOYEE: stored role USER or own email; ADMIN: always), else 403 |
| UserController.DeleteRolesNested | IAMService/src/main/java/rs/edu/raf/IAMService/controllers/UserController.java:187-198 | what a USER may delete an EMPLOYEE may, what an EMPLOYEE may an ADMIN may, and an ADMIN may delete even without a stored record |
| UserController.DeleteIsCaseSensitive | IAMService/src/main/java/rs/edu/raf/IAMService/controllers/UserController.java:188 | for any two emails that differ but are equal ignoring case, a USER whose token carries one is refused with 403 when deleting the other |
| UserController.EmployeeDeleteRule | IAMService/src/main/java/rs/edu/raf/IAMService/controllers/UserController.java:193-197 | an EMPLOYEE may delete someone else's record exactly when the stored record's role is USER |
| UserController.UpdateDenial | IAMService/src/main/java/rs/edu/raf/IAMService/controllers/UserController.java:237-252 | a refused update is 401 exactly for a USER submitting its own email, 403 otherwise |
| UserController.UpdateUser | IAMService/src/main/java/rs/edu/raf/IAMService/controllers/UserController.java:225-256 | 401 when no claims are extracted; faults exactly on a refused token, an unknown role, or a missing stored record once the role rule admits; a role rule that refuses gives UpdateDenial's status whether or not a record is stored; with a stored record, Ok exactly when the role rule admits and the identity fields agree, else per UpdateDenial; every allowed update keeps the stored identity fields |
| UserController.UpdateRolesNested | IAMService/src/main/java/rs/edu/raf/IAMService/controllers/UserController.java:232-253 | what a USER may update an EMPLOYEE may, and what an EMPLOYEE may an ADMIN may |
| UserController.UserCannotPromoteItself | IAMService/src/main/java/rs/edu/raf/IAMService/controllers/UserController.java:232-237 | a USER submitting its own record with role ADMIN over a stored USER role is refused with 401 |
| UserController.EmployeeUpdateRoleTestHarmless | IAMService/src/main/java/rs/edu/raf/IAMService/controllers/UserController.java:241-244 | an EMPLOYEE's update is allowed exactly when (stored role USER or own email) and the check passes: testing the submitted role changes nothing |
| UserController.UpdateIsCaseSensitive | IAMService/src/main/java/rs/edu/raf/IAMService/controllers/UserController.java:233-239 | for any spelling of the stored email that differs only in case, the USER's own record with that spelling passes validationCheck yet is refused with 403 |
| UserController.SubmitReply | IAMService/src/main/java/rs/edu/raf/IAMService/controllers/UserController.java:97-120 | every guard's status: no user 404, email mismatch 403, reuse and malformed password 400, rejected reset token 401, change 200, escaping exception a fault; 400 means exactly reuse or malformed |
| UserController.SubmitClaims | IAMService/src/main/java/rs/edu/raf/IAMService/controllers/UserController.java:94-95 | the submission has claims exactly when the authorization header is present and the JWT library accepts it with every "Bearer " removed |
| UserController.SubmitOutcome | IAMService/src/main/java/rs/edu/raf/IAMService/controllers/UserController.java:94-120 | one iff per result in guard order: fault exactly when there are no claims or (a user exists and) the email claim is absent; 404 exactly when claims exist and no user is stored under the request's email; 403 exactly when those pass and the rendered email claim differs ignoring case; then reuse, malformed, rejected token and change each exactly when all earlier guards pass and its own test decides |
| UserController.SubmitGuardOrder | IAMService/src/main/java/rs/edu/raf/IAMService/controllers/UserController.java:96-120 | 404, 403 and faults do not depend on the password or token collaborators; reuse is decided before the validator and the token; a malformed password is decided before the token |
| UserController.SubmitEmailIgnoresCase | IAMService/src/main/java/rs/edu/raf/IAMService/controllers/UserController.java:103 | an email equal to the token's after lower-casing is never refused with 403 |
| UserController.SubmitStripDiffersFromGetClaims | IAMService/src/main/java/rs/edu/raf/IAMService/controllers/UserController.java:94 | "Bearer Bearer x" becomes "x" here but "Bearer x" in getClaims |
| UserController.SubmitStripAgreesOnTokensWithoutSpaces | IAMService/src/main/java/rs/edu/raf/IAMService/controllers/UserController.java:94 | for a token without spaces, removing every "Bearer " from "Bearer " + token gives the token |
| UserController.NonStringEmailClaim | IAMService/src/main/java/rs/edu/raf/IAMService/controllers/UserController.java:103 | a non-string email claim is compared by its toString text, with the same result as a string claim of that text, while the delete rule's String.equals (line 188) refuses it |
| UserController.ChangePasswordSubmit | IAMService/src/main/java/rs/edu/raf/IAMService/controllers/UserController.java:93-122 | the result is the guard chain's; the user's password becomes encode(newPassword) only on the 200 path and is unchanged on every other; the email never changes |
| UserController.LinkBase | IAMService/src/main/java/rs/edu/raf/IAMService/controllers/UserController.java:83-84 | the link base is "http://localhost:", then the port in decimal, then "/api/users/changePasswordSubmit/" |
| UserController.LinkBaseInjective | IAMService/src/main/java/rs/edu/raf/IAMService/controllers/UserController.java:84 | distinct ports give distinct link bases |
| UserController.InitiateChangePassword | IAMService/src/main/java/rs/edu/raf/IAMService/controllers/UserController.java:78-89 | rate-limited exactly when the limiter refuses the email, and then no lookup, token or message; otherwise lookup under the lower-cased email, a token generated for the link base, and its link queued for the email as given |
| UserController.InitiationStatus | IAMService/src/main/java/rs/edu/raf/IAMService/controllers/UserController.java:80-88 | 429 exactly when rate-limited, 200 exactly when a token was issued |
| UserController.InitiationLookupIgnoresCase | IAMService/src/main/java/rs/edu/raf/IAMService/controllers/UserController.java:86-87 | both spellings of an email differing only in case are looked up under the same lower-cased email with the same link base; the queue gets each spelling as given |
| UserController.InitiationLinkNamesPort | IAMService/src/main/java/rs/edu/raf/IAMService/controllers/UserController.java:83-86 | two initiations with the same link base were served on the same port |
| UserController.CreateEmployee | IAMService/src/main/java/rs/edu/raf/IAMService/controllers/UserController.java:65-74 | 200 with the id exactly on success; EmailTakenException gives 400, MissingRoleException gives 500 (both with the message); any other exception escapes |
| UserController.EmployeeActivationReply | IAMService/src/main/java/rs/edu/raf/IAMService/controllers/UserController.java:294-315 | the status is 200 or 500; 200 exactly when the service call completed; the body is true exactly with 200 |

## Left out

- JWT signing, decoding and expiry (`JwtUtil`): `extractAllClaims` is a parameter, and `None` stands for the exception it throws. Its source is not part of this model.
- The rate limiter's cooldown state (`SubmitLimiter`): `allowRequest` is a parameter giving the limiter's answer for an email. Its source is not part of this model.
- The reset-token store's expiry and consumption (`ChangedPasswordTokenUtil`): `generateToken` and `isTokenValid` are parameters. Its source is not part of this model.
- Password hashing and the strength policy (`PasswordEncoder`, `PasswordValidator`): these are uninterpreted function parameters.
- Persistence and messaging (`userService.*`, `@Transactional`, `sendToQueue`, `RabbitMQConfig.java`): the lookups' results are inputs. Deletion, `updateUser`, `updateEntity` and queue dispatch are not performed. The model records the decision, the changed password and the queued message instead.
- Spring security annotations (`@PreAuthorize`, `@Secured("ADMIN")`), HTTP mapping and Swagger metadata are framework configuration. The admin-only gate on activation is therefore not modelled.
- Response bodies other than the create and activation replies: the error messages and the `UserDto` returned by the service are not modelled.
- UpdateUser: the unconditional update for any other role (line 255) is not modelled as a reachable branch. `RoleType.valueOf` returns one of its constants, this model's `RoleType` has exactly the three the controller tests, and an unknown name throws (`Fault`), so that line is never reached.
- Null fields of the records (id, email, role, permissions, username, primary account number) are not modelled: they are always present. A null account number would make lines 276 and 281 throw.
- `HttpServletRequest.getHeader` matches header names case-insensitively in most servlet containers. The model matches them exactly, as the code's two lookups suggest.
- Case folding covers ASCII letters only. Java's locale- and Unicode-aware `toLowerCase` and `equalsIgnoreCase` are not modelled.
- The thin endpoints `createPrivateClient`, `createCorporateClient`, `activateClient`, `findByEmail`, `findById` and `findAll`: each delegates to the user service without decision logic. So does `RoleController.java`.
- `updateEmployee`, `updateCorporateClient` and `updatePrivateClient` only choose the record variant passed to `updateUser`. Here that variant is part of the submitted record.
- Exceptions from the service calls inside delete, update, initiation and submission are not modelled. Neither are exceptions from `sendToQueue`, which would escape after the token is generated.
- InitiationLookupIgnoresCase: does not claim that both spellings receive the same token. `generateToken` runs once per request and may issue a fresh token each time, so only its inputs are shown equal.
- Concurrency is not modelled. Each handler is one sequential decision.
