/**
 * The users router: registration, login, access-token refresh and logout.
 *
 * Each POST/DELETE handler is an early-return decision, modelled as a function
 * from the request body, the current refresh-token store and the collaborators
 * (user store, bcrypt, JWT) to a response and the refresh token to record.
 * The module-level `refreshTokens` array, the only server-side session state,
 * is the field of `UsersRouter`, whose methods apply those decisions.
 */
module Users {
  import opened Joi
  import opened Validation

  datatype Option<T> = None | Some(value: T)

  /** The identity signed into both tokens: the user's `_id` and `username`. */
  datatype Claim = Claim(id: string, username: string)

  /** A user document as the router writes it (`password` holds the bcrypt hash). */
  datatype User = User(id: string, username: string, email: string, password: string)

  /**
   * The collaborators as a request sees them at the instant it is handled:
   * Joi's email grammar, bcrypt (`hash` includes the freshly generated salt),
   * and `jwt.sign`/`jwt.verify` with the two secrets and expiries of the
   * deployment. `verifyRefresh` yields the payload, or None where `jwt.verify`
   * throws (bad signature, malformed token, expired).
   */
  datatype Services = Services(
    isEmail: string -> bool,
    hash: string -> string,
    compare: (string, string) -> bool,
    signAccess: Claim -> string,
    signRefresh: Claim -> string,
    verifyRefresh: string -> Option<Claim>)

  /** Response bodies: `json({message})`, `json({success})`, `json({accessToken})`, `send(text)`, `send(err)`. */
  datatype Body = Message(message: string) | Success(success: string) | AccessToken(accessToken: string) | Text(text: string) | SaveError

  datatype Cookie = Cookie(name: string, value: string)

  datatype Response = Response(status: nat, cookies: seq<Cookie>, body: Body)

  /** A handler's decision: its response, the refresh token to record, and the user document saved. */
  datatype Reply = Reply(response: Response, issued: Option<string>, saved: Option<User>)

  const WrongCredentials := "Email or password is wrong."

  /** `res.json({message})`: status 200, no cookies, nothing recorded. */
  function Refusal(message: string): Reply
  {
    Reply(Response(200, [], Message(message)), None, None)
  }

  /** The document field a `findOne` query filters on. */
  datatype Key = ByUsername | ByEmail

  function KeyOf(user: User, key: Key): string
  {
    match key
    case ByUsername => user.username
    case ByEmail => user.email
  }

  /** `User.findOne({<key>: value})`: the first stored user whose field equals `value` exactly. */
  function FindOne(users: seq<User>, key: Key, value: string): (r: Option<User>)
    ensures r.None? <==> forall i :: 0 <= i < |users| ==> KeyOf(users[i], key) != value
    ensures r.Some? ==> r.value in users && KeyOf(r.value, key) == value
  {
    if users == [] then None
    else if KeyOf(users[0], key) == value then Some(users[0])
    else FindOne(users[1..], key, value)
  }

  /**
   * The common tail of register and login: sign an access and a refresh token
   * for the user's claim, set both as cookies, answer `success`, and record
   * the refresh token.
   */
  function SignIn(user: User, sv: Services, success: string, saved: Option<User>): Reply
  {
    var claim := Claim(user.id, user.username);
    var accessToken := sv.signAccess(claim);
    var refreshToken := sv.signRefresh(claim);
    Reply(Response(200, [Cookie("accessToken", accessToken), Cookie("refreshToken", refreshToken)], Success(success)),
          Some(refreshToken), saved)
  }

  /**
   * POST /register. Validation, then a taken username, then a taken email,
   * then the save; `newId` is the `_id` the new document is given and
   * `saveOk` whether `user.save()` resolves. Stored username and email are the
   * body's raw strings (validation trims only for checking).
   * A user is saved, and a refresh token issued, exactly when every check passes.
   */
  function RegisterReply(b: RegisterBody, users: seq<User>, sv: Services, newId: string, saveOk: bool): (r: Reply)
    ensures r.issued.Some? <==> r.saved.Some?
    ensures r.saved.Some? <==>
      && RegisterAcceptable(b, sv.isEmail)
      && FindOne(users, ByUsername, b.username.s).None?
      && FindOne(users, ByEmail, b.email.s).None?
      && saveOk
    ensures r.saved.Some? ==>
      && r.saved.value == User(newId, b.username.s, b.email.s, sv.hash(b.password.s))
      && r.issued == Some(sv.signRefresh(Claim(newId, b.username.s)))
      && r.response.body == Success("Register successful")
    ensures r.saved.None? ==> r.response.cookies == [] && r.response.body != Success("Register successful")
  {
    match RegisterValidation(b, sv.isEmail)
    case Fail(message) => Refusal(message)
    case Pass(_) =>
      if FindOne(users, ByUsername, b.username.s).Some? then Refusal("Username taken.")
      else if FindOne(users, ByEmail, b.email.s).Some? then Refusal("Email already registered")
      else if !saveOk then Reply(Response(400, [], SaveError), None, None)
      else
        var user := User(newId, b.username.s, b.email.s, sv.hash(b.password.s));
        SignIn(user, sv, "Register successful", Some(user))
  }

  /**
   * POST /login. Validation, then the user with the body's raw email, then
   * bcrypt's comparison; both lookup failures give the same refusal.
   * A refresh token is issued exactly when the email is known and the password matches.
   */
  function LoginReply(b: LoginBody, users: seq<User>, sv: Services): (r: Reply)
    ensures r.saved.None?
    ensures r.issued.Some? <==>
      && LoginAcceptable(b, sv.isEmail)
      && FindOne(users, ByEmail, b.email.s).Some?
      && sv.compare(b.password.s, FindOne(users, ByEmail, b.email.s).value.password)
    ensures r.issued.Some? ==>
      var user := FindOne(users, ByEmail, b.email.s).value;
      && r.issued == Some(sv.signRefresh(Claim(user.id, user.username)))
      && r.response.body == Success("Login successful")
    ensures r.issued.None? ==> r.response.cookies == [] && r.response.status == 200 && r.response.body.Message?
  {
    match LoginValidation(b, sv.isEmail)
    case Fail(message) => Refusal(message)
    case Pass(_) =>
      match FindOne(users, ByEmail, b.email.s)
      case None => Refusal(WrongCredentials)
      case Some(user) =>
        if !sv.compare(b.password.s, user.password) then Refusal(WrongCredentials)
        else SignIn(user, sv, "Login successful", None)
  }

  /**
   * POST /token. Absent or falsy token: 401 (`sendStatus` sends the status
   * text). Not in the store: 403. Stored but failing `jwt.verify`: 400.
   * Otherwise a new access token for the verified `_id` and `username`.
   */
  function TokenReply(store: seq<string>, presented: Field, sv: Services): (r: Response)
    ensures r.cookies == []
    ensures r.status == 401 <==> !Truthy(presented)
    ensures r.status == 403 <==> Truthy(presented) && !(presented.Str? && presented.s in store)
    ensures r.status == 400 <==>
      Truthy(presented) && presented.Str? && presented.s in store && sv.verifyRefresh(presented.s).None?
    ensures r.status == 200 <==>
      Truthy(presented) && presented.Str? && presented.s in store && sv.verifyRefresh(presented.s).Some?
    ensures r.status == 200 ==> r.body == AccessToken(sv.signAccess(sv.verifyRefresh(presented.s).value))
    ensures r.status in {200, 400, 401, 403}
  {
    if !Truthy(presented) then Response(401, [], Text("Unauthorized"))
    else if !(presented.Str? && presented.s in store) then Response(403, [], Text("Forbidden token"))
    else match sv.verifyRefresh(presented.s)
      case None => Response(400, [], Text("Invalid token"))
      case Some(verified) =>
        Response(200, [], AccessToken(sv.signAccess(Claim(verified.id, verified.username))))
  }

  /**
   * `tokens.filter(t => t !== presented)`: every copy of `presented` removed,
   * the other tokens kept with their multiplicities (and, see
   * `UsersProperties.WithoutDistributes`, in their order).
   */
  function Without(tokens: seq<string>, presented: string): (r: seq<string>)
    ensures forall t :: t in r <==> t in tokens && t != presented
    ensures forall t :: t != presented ==> multiset(r)[t] == multiset(tokens)[t]
    ensures presented !in tokens ==> r == tokens
  {
    if tokens == [] then []
    else
      assert tokens == [tokens[0]] + tokens[1..];
      if tokens[0] == presented then Without(tokens[1..], presented)
      else [tokens[0]] + Without(tokens[1..], presented)
  }

  /** The store after DELETE /logout: a non-string token equals no stored string, so it removes nothing. */
  function LogoutStore(store: seq<string>, presented: Field): (r: seq<string>)
    ensures forall t :: t in r <==> t in store && !(presented.Str? && t == presented.s)
    ensures forall t :: !(presented.Str? && t == presented.s) ==> multiset(r)[t] == multiset(store)[t]
  {
    if presented.Str? then Without(store, presented.s) else store
  }

  const LogoutResponse := Response(200, [], Text("Logout successful"))

  /**
   * The router's state: the `refreshTokens` array. The ghost `issued` records
   * every refresh token the router has ever handed out, and `Valid` says the
   * store holds none other.
   */
  class UsersRouter {
    var refreshTokens: seq<string>
    ghost var issued: seq<string>

    ghost predicate Valid()
      reads this
    {
      forall t :: t in refreshTokens ==> t in issued
    }

    /** At process start the store is empty. */
    constructor ()
      ensures Valid()
      ensures refreshTokens == [] && issued == []
    {
      refreshTokens := [];
      issued := [];
    }

    /** POST /register: pushes the issued refresh token, if any, and changes nothing else. */
    method Register(b: RegisterBody, users: seq<User>, sv: Services, newId: string, saveOk: bool)
      returns (response: Response, saved: Option<User>)
      requires Valid()
      modifies this
      ensures Valid()
      ensures var r := RegisterReply(b, users, sv, newId, saveOk);
        && response == r.response && saved == r.saved
        && refreshTokens == old(refreshTokens) + (if r.issued.Some? then [r.issued.value] else [])
        && issued == old(issued) + (if r.issued.Some? then [r.issued.value] else [])
    {
      var r := RegisterReply(b, users, sv, newId, saveOk);
      if r.issued.Some? {
        refreshTokens := refreshTokens + [r.issued.value];
        issued := issued + [r.issued.value];
      }
      response, saved := r.response, r.saved;
    }

    /** POST /login: pushes the issued refresh token, if any, and changes nothing else. */
    method Login(b: LoginBody, users: seq<User>, sv: Services) returns (response: Response)
      requires Valid()
      modifies this
      ensures Valid()
      ensures var r := LoginReply(b, users, sv);
        && response == r.response
        && refreshTokens == old(refreshTokens) + (if r.issued.Some? then [r.issued.value] else [])
        && issued == old(issued) + (if r.issued.Some? then [r.issued.value] else [])
    {
      var r := LoginReply(b, users, sv);
      if r.issued.Some? {
        refreshTokens := refreshTokens + [r.issued.value];
        issued := issued + [r.issued.value];
      }
      response := r.response;
    }

    /**
     * POST /token: reads the store and never changes it. Any access token it
     * mints comes from a refresh token this router issued and still holds.
     */
    method Token(presented: Field, sv: Services) returns (response: Response)
      requires Valid()
      ensures response == TokenReply(refreshTokens, presented, sv)
      ensures response.status == 200 ==> presented.Str? && presented.s in refreshTokens && presented.s in issued
    {
      if !Truthy(presented) {
        return Response(401, [], Text("Unauthorized"));
      }
      if !(presented.Str? && presented.s in refreshTokens) {
        return Response(403, [], Text("Forbidden token"));
      }
      var verified := sv.verifyRefresh(presented.s);
      if verified.None? {
        return Response(400, [], Text("Invalid token"));
      }
      response := Response(200, [], AccessToken(sv.signAccess(Claim(verified.value.id, verified.value.username))));
    }

    /** DELETE /logout: filters out every copy of the presented token and always succeeds. */
    method Logout(presented: Field) returns (response: Response)
      requires Valid()
      modifies this
      ensures Valid()
      ensures refreshTokens == LogoutStore(old(refreshTokens), presented) && issued == old(issued)
      ensures response == LogoutResponse
    {
      refreshTokens := LogoutStore(refreshTokens, presented);
      response := LogoutResponse;
    }
  }
}
