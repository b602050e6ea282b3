# Statusfer authentication core in Dafny

This project models the authentication core of the Statusfer Express
application. It has two parts:

- **The users router** (`routes/users.js`):
  - the process-wide `refreshTokens` array, which is the only server-side session state;
  - the decision logic of `POST /register`, `POST /login`, `POST /token` and `DELETE /logout`.
- **The Joi request validators** (`validation.js`): `registerValidation`, `loginValidation` and `statusValidation`. Each stops at the first error, and the routes show only that error's message.

Files:

- `jsstring.dfy` (module `JsString`): JavaScript's `String.prototype.trim`, which Joi's `trim()` applies before any length check.
- `joi.dfy` (module `Joi`): the part of Joi the schemas use.
  - It covers string keys with `trim`, `required`, `min`, `max` and `email`; `any().equal(ref(..))`; custom `messages`; and the rejection of unknown keys.
  - For each key, Joi first converts the value (trim, which never applies to a missing value and raises no error). It then reports, in this order: missing (`any.required`), not a string (`string.base`), empty (`string.empty`), then each rule in the order it was declared.
  - Keys are checked in schema order, then unknown keys (`object.unknown`), and the first error wins (Joi's default `abortEarly`).
- `validation.dfy` (module `Validation`): the three schemas with their custom messages.
  - Each validator is proved to accept exactly the bodies described by a rule-by-rule predicate.
  - Lemmas give the message for every way a key can fail, and the order in which keys are checked.
- `users.dfy` (module `Users`): the handlers as decision functions, and the `UsersRouter` class.
  - Each decision function maps the body, the user documents and the collaborators to a response and the refresh token to record.
  - `UsersRouter` holds `refreshTokens: seq<string>`. Its methods `Register`, `Login`, `Token` and `Logout` apply the decisions to the field.
  - A ghost history `issued` with the invariant `Valid()` shows that the store only ever holds tokens the router issued.
- `users_properties.dfy` (module `UsersProperties`): properties that relate several calls or several inputs.
  - They cover the order of the checks, logout revocation and idempotence, duplicate registration, and identical login failures.
  - A client method `SessionLifecycle` runs login, refresh twice and logout, after which refresh is refused.

Collaborators the code calls but does not define are fields of the `Users.Services` datatype:
- Joi's email grammar (`isEmail`);
- bcrypt `hash` (with its random salt folded in) and `compare`;
- `jwt.sign` with the access secret and with the refresh secret;
- `jwt.verify` with the refresh secret, returning the claim or `None` where it throws (bad signature, malformed, expired).

The user collection is a `seq<User>`, and `User.findOne` returns the first document whose field equals the body's value exactly. The id a saved document gets and whether `user.save()` succeeds are parameters (`newId`, `saveOk`).

Facts about the code that the model keeps:
- A failed save answers 400 with the error (routes/users.js:55-56).
- Emails are looked up by exact string equality (routes/users.js:30 and 92). Joi's `insensitive()` has no effect on a string key's validation, and the `User` model, which might lowercase emails, is not part of this model.
- The store is an array that can hold the same token more than once (routes/users.js:13, 50, 102). Logout removes every copy (routes/users.js:114).
- `/token` does not rotate the refresh token (routes/users.js:61-77). The same token keeps working until logout, or until `jwt.verify` rejects it once it expires (routes/users.js:49, 101).

## Model

| member | source | states |
|---|---|---|
| JsString.TrimStartIsSuffix | validation.js:7 | Leading-whitespace removal keeps a suffix that does not start with whitespace, and removes only whitespace |
| JsString.TrimEndIsPrefix | validation.js:7 | Trailing-whitespace removal keeps a prefix that does not end with whitespace, and removes only whitespace |
| JsString.TrimIsInnerSlice | validation.js:11 | `trim()` yields the contiguous slice of the input between its leading and trailing whitespace, and neither end of the slice is whitespace |
| JsString.TrimEmptyIffBlank | validation.js:40 | A value trims to the empty string exactly when it is all whitespace, so such a value hits `string.empty` |
| JsString.TrimIdempotent | validation.js:7 | Trimming an already trimmed value changes nothing |
| Joi.NatToString | validation.js:40 | The `{{#limit}}` rendering of the default `string.max` message is the decimal notation of the limit: digits denoting it, with no leading zero except in "0" |
| Joi.FirstBroken | validation.js:11 | Rules are tried in declaration order: every rule before the reported one holds, and the reported one is broken (or none is) |
| Joi.ValidateString | validation.js:7-20 | A `string().required()` key passes exactly when the value is a string whose converted (trimmed) form is non-empty and meets every rule; the value it passes on is the converted string |
| Joi.ValidateEqualRef | validation.js:21-23 | `any().equal(ref('password')).required()` passes exactly when the key is present and equal to the validated password |
| Joi.NoUnknownKeys | validation.js:6-24 | A body with a key outside the schema fails, quoting the first such key with Joi's `"k" is not allowed` |
| Joi.MissingOrNotString | validation.js:31-32 | Without custom messages, a missing key gets `"key" is required` and a non-string gets `"key" must be a string`, before any rule |
| Validation.RegisterValidation | validation.js:5-26 | Registration passes exactly when: username trims to 1–64 characters; email trims to 3–255 characters and is a valid address; password has at least 8 characters; confirmPassword equals password; and there is no other key |
| Validation.LoginValidation | validation.js:29-35 | Login passes exactly when email trims to a non-empty valid address, password is any non-empty string (no minimum length) and there is no other key |
| Validation.StatusValidation | validation.js:38-43 | A status passes exactly when its message trims to 1–255 characters and there is no other key |
| Validation.UsernameKey | validation.js:7-10 | The username key passes exactly for a string whose trimmed length is 1 to 64 |
| Validation.RegisterEmailKey | validation.js:11-16 | The registration email key passes exactly for a string whose trimmed form has 3 to 255 characters and satisfies the email grammar |
| Validation.RegisterPasswordKey | validation.js:17-20 | The password key passes exactly for a string of at least 8 characters, and passes it on untrimmed |
| Validation.RegisterKeyOrder | validation.js:6-20 | The first failing key among username, email and password decides the registration error, whatever the later keys hold |
| Validation.RegisterLaterKeys | validation.js:21-25 | After the first three keys pass, a mismatched or missing confirmation is reported; with a matching one only unknown keys can fail |
| Validation.UsernameKeyErrors | validation.js:7-10 | A blank username gives "Username is required." and one longer than 64 characters once trimmed gives "Username exceeds maximum length of 64 characters." |
| Validation.RegisterEmailBlank | validation.js:11-12 | A blank registration email gives "Email is required." |
| Validation.RegisterEmailRuleErrors | validation.js:11-16 | A registration email shorter than 3 gives the minimum message, longer than 255 the maximum message, and otherwise an invalid address gives "Email must be valid." |
| Validation.RegisterPasswordKeyErrors | validation.js:17-20 | An empty password gives "Password is required." and a 1–7 character one (whitespace counts) gives "Password must be at least 8 characters long." |
| Validation.ConfirmPasswordErrors | validation.js:21-23 | A missing confirmation gets Joi's default required message; a present but different one gets "Passwords do not match." |
| Validation.LoginKeyOrder | validation.js:30-33 | Login reports the email error first, then the password error, then unknown keys |
| Validation.LoginEmailErrors | validation.js:31 | A blank login email gets Joi's default empty message and an invalid one its default email message |
| Validation.LoginPasswordErrors | validation.js:32 | Only the empty login password is refused; any non-empty one passes unchanged |
| Validation.StatusErrors | validation.js:40 | A missing, non-string or blank status message gets Joi's default required, type and empty messages |
| Validation.StatusTooLong | validation.js:40 | A status message over 255 characters once trimmed gets Joi's default maximum-length message with the limit 255 |
| Users.FindOne | routes/users.js:28-30 | `User.findOne` by username or by email finds nothing exactly when no stored user has that value in that field; what it finds is a stored user with it |
| Users.RegisterReply | routes/users.js:21-58 | A user is saved, and a refresh token issued, exactly when the body is valid, the username and email are free and the save succeeds. The saved document holds the raw username and email and the hashed password, and the token is signed over the new `_id` and username. Any other outcome sets no cookie |
| Users.LoginReply | routes/users.js:85-109 | A refresh token is issued exactly when the body is valid, a user has the email and bcrypt accepts the password; it is signed over that user's identity; every failure is a 200 message with no cookie |
| Users.TokenReply | routes/users.js:61-77 | /token answers 401 exactly for a falsy token, 403 exactly for a truthy one not in the store, 400 exactly for a stored one `jwt.verify` rejects, and otherwise 200 with an access token for the verified identity |
| Users.Without | routes/users.js:114 | The filter keeps a token exactly when it differs from the presented one, keeps each other token's multiplicity, and changes nothing when the token is absent |
| Users.LogoutStore | routes/users.js:112-116 | After logout the store holds exactly the old tokens other than the presented string, with their multiplicities; a non-string removes nothing |
| Users.UsersRouter.constructor | routes/users.js:13 | The store starts empty |
| Users.UsersRouter.Register | routes/users.js:49-50 | The store becomes the old store plus the issued token, if any; prior entries keep their place and order |
| Users.UsersRouter.Login | routes/users.js:101-102 | The store becomes the old store plus the issued token, if any; prior entries keep their place and order |
| Users.UsersRouter.Token | routes/users.js:61-77 | /token never changes the store; it answers as `TokenReply`, and a 200 implies the token is stored and was issued by this router |
| Users.UsersRouter.Logout | routes/users.js:112-116 | The store becomes the filtered one and the answer is always "Logout successful" |
| UsersProperties.TokenAbsentConsultsNothing | routes/users.js:64-65 | A falsy token gets 401 whatever the store and the verifier |
| UsersProperties.TokenMembershipBeforeVerify | routes/users.js:66-70 | A token not in the store gets 403 "Forbidden token" whatever the verifier would say |
| UsersProperties.TokenInvalidSignature | routes/users.js:70-74 | A stored token that fails verification gets 400 "Invalid token" |
| UsersProperties.WithoutIdempotent | routes/users.js:114 | Filtering the same token twice is filtering it once |
| UsersProperties.WithoutDistributes | routes/users.js:114 | Filtering distributes over concatenation, so the surviving tokens keep their original order |
| UsersProperties.LogoutIdempotent | routes/users.js:114 | A second logout with the same body leaves the store as the first did |
| UsersProperties.LogoutUndoesIssue | routes/users.js:102 | Logging out a newly pushed token that was not stored before restores the previous store |
| UsersProperties.LogoutRevokes | routes/users.js:66 | After logout of a token, /token with it gets 403 (401 for the empty string) |
| UsersProperties.LogoutKeepsOtherSessions | routes/users.js:114 | Logout of one token leaves the /token answer for every other body unchanged |
| UsersProperties.RegisterValidationFirst | routes/users.js:24-25 | A validation error is answered with its message before any lookup, and nothing is saved or issued |
| UsersProperties.LoginValidationFirst | routes/users.js:88-89 | A login validation error is answered with Joi's first message before any lookup or bcrypt call, and nothing is issued |
| UsersProperties.RegisterUsernameBeforeEmail | routes/users.js:28-31 | A taken username is reported even when the email is taken too |
| UsersProperties.RegisterEmailTaken | routes/users.js:30-31 | With a free username, a taken email gives "Email already registered" |
| UsersProperties.RegisterDuplicateRefused | routes/users.js:28-31 | A valid body whose username or email a stored user has is refused as a duplicate, and nothing is issued |
| UsersProperties.RegisterOnce | routes/users.js:28-46 | Once a registration has saved its user, a later registration with the same username or email issues nothing |
| UsersProperties.LoginFailuresIdentical | routes/users.js:92-97 | An unknown email and a wrong password give the identical answer "Email or password is wrong." |
| UsersProperties.LoginThenRefresh | routes/users.js:66-72 | The refresh token a login records, while `jwt.verify` accepts it, gets an access token for the same `_id` and username |
| UsersProperties.LoginCookiesRefresh | routes/users.js:100-107 | After a login the client gets the access cookie and then the refresh cookie; the refresh cookie is the token the store records, and while `jwt.verify` accepts it, /token with it mints the access cookie's token under the same signer |
| UsersProperties.RegisterCookiesRefresh | routes/users.js:48-54 | The same for a registration: the refresh cookie is the recorded token, and it refreshes to the access cookie's token for the new `_id` and username |
| UsersProperties.SessionLifecycle | routes/users.js:61-116 | After login, the refresh token is still accepted on its second use (no rotation), both answers being equal when made with the same signer; after logout the token gets 403 |

## Left out

- The GET page handlers (`routes/users.js` lines 16-18 and 80-82) only serve static files.
- `routes/statuses.js` is thin CRUD over a database, and its `verifyToken` middleware is not part of this model. `statusValidation` is modelled even though no route shown calls it.
- Cookie options (`httpOnly`, `maxAge` 600000 and 3600000 ms) are not modelled. Only the cookie names and values, in the order they are set, are.
- JWT cryptography, secrets and wall-clock expiry are folded into the `Services` functions. So are bcrypt's salt generation and hashing.
- Mongo I/O:
  - `findOne` is modelled as a first-match search over a sequence, and only the failure of `user.save()` is modelled (`saveOk`).
  - A rejected `findOne`, `genSalt`, `hash` or `compare` is not handled in the source and is not modelled.
  - A `jwt.sign` failure is not modelled, since signing is a total function here. Inside the register `try` (routes/users.js:48-49) it would answer 400 with the error. In `/token` (routes/users.js:71, caught at 73-74) it would answer 400 "Invalid token", where `TokenReply` answers 200.
  - The body of that 400 (the error object) is the opaque `SaveError`.
- The `User` Mongoose model (its schema, any trimming or lowercasing, unique indexes) is not part of this model. Saved usernames and emails are the raw body strings.
- Concurrency between handlers is not modelled: the interleavings on `refreshTokens` and the check-then-insert race in register. The model is sequential.
- Parsing of the request body:
  - The body is always an object of properties.
  - A property value is a string, or some other JSON value known only by its truthiness. A non-string refresh token therefore never matches a stored string: it gets 403 at /token when truthy, and removes nothing at logout.
- Joi features the schemas do not use are not modelled, and neither is Joi's `object.base` error for a body that is not an object. Joi's email grammar is the `isEmail` parameter.
- Lengths are counted in Dafny characters. JavaScript counts UTF-16 code units, so a character outside the Basic Multilingual Plane counts 2 there and 1 here.
