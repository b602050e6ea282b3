/**
 * Properties of the session protocol: the order of the checks in each
 * handler, what each handler leaves in the refresh-token store, and how
 * logout revokes a refresh token.
 */
module UsersProperties {
  import opened Joi
  import opened Validation
  import opened Users

  /** /token with an absent or falsy token answers 401 whatever the store holds and whatever `jwt.verify` would say. */
  lemma TokenAbsentConsultsNothing(store1: seq<string>, store2: seq<string>, presented: Field, sv1: Services, sv2: Services)
    requires !Truthy(presented)
    ensures TokenReply(store1, presented, sv1) == TokenReply(store2, presented, sv2) == Response(401, [], Text("Unauthorized"))
  {
  }

  /** Membership is checked before `jwt.verify`: an unknown token is refused with 403 even if its signature verifies. */
  lemma TokenMembershipBeforeVerify(store: seq<string>, presented: Field, sv1: Services, sv2: Services)
    requires Truthy(presented) && !(presented.Str? && presented.s in store)
    ensures TokenReply(store, presented, sv1) == TokenReply(store, presented, sv2) == Response(403, [], Text("Forbidden token"))
  {
  }

  /** A stored token that fails verification gets 400 "Invalid token" and no access token. */
  lemma TokenInvalidSignature(store: seq<string>, token: string, sv: Services)
    requires token != "" && token in store && sv.verifyRefresh(token).None?
    ensures TokenReply(store, Str(token), sv) == Response(400, [], Text("Invalid token"))
  {
  }

  /** Filtering twice removes nothing more: the first filter leaves no copy of the token behind. */
  lemma WithoutIdempotent(tokens: seq<string>, presented: string)
    ensures Without(Without(tokens, presented), presented) == Without(tokens, presented)
  {
  }

  /** Filtering distributes over concatenation, so the surviving tokens keep their relative order. */
  lemma {:induction false} WithoutDistributes(a: seq<string>, b: seq<string>, presented: string)
    ensures Without(a + b, presented) == Without(a, presented) + Without(b, presented)
  {
    if a == [] {
      assert a + b == b;
    } else {
      assert (a + b)[1..] == a[1..] + b;
      WithoutDistributes(a[1..], b, presented);
    }
  }

  /** Logout is idempotent: a second logout with the same body leaves the store as the first did. */
  lemma LogoutIdempotent(store: seq<string>, presented: Field)
    ensures LogoutStore(LogoutStore(store, presented), presented) == LogoutStore(store, presented)
  {
    if presented.Str? {
      WithoutIdempotent(store, presented.s);
    }
  }

  /** Logging out a token that was issued after the others removes exactly that token. */
  lemma LogoutUndoesIssue(store: seq<string>, token: string)
    requires token !in store
    ensures LogoutStore(store + [token], Str(token)) == store
  {
    WithoutDistributes(store, [token], token);
    assert Without([token], token) == [];
  }

  /** After logout of a token, /token with it is refused: 403, or 401 for the empty string. */
  lemma LogoutRevokes(store: seq<string>, token: string, sv: Services)
    ensures TokenReply(LogoutStore(store, Str(token)), Str(token), sv).status == (if token == "" then 401 else 403)
  {
  }

  /** Logout of one token does not change how /token answers for any other body. */
  lemma LogoutKeepsOtherSessions(store: seq<string>, token: string, presented: Field, sv: Services)
    requires presented != Str(token)
    ensures TokenReply(LogoutStore(store, Str(token)), presented, sv) == TokenReply(store, presented, sv)
  {
  }

  /** A validation error is answered before any lookup, hashing or signing, and records nothing. */
  lemma RegisterValidationFirst(b: RegisterBody, users: seq<User>, sv: Services, newId: string, saveOk: bool)
    requires RegisterValidation(b, sv.isEmail).Fail?
    ensures RegisterReply(b, users, sv, newId, saveOk) == Refusal(RegisterValidation(b, sv.isEmail).message)
  {
  }

  /** A login validation error is answered with Joi's first message before any lookup or bcrypt call, and records nothing. */
  lemma LoginValidationFirst(b: LoginBody, users: seq<User>, sv: Services)
    requires LoginValidation(b, sv.isEmail).Fail?
    ensures LoginReply(b, users, sv) == Refusal(LoginValidation(b, sv.isEmail).message)
  {
  }

  /** A taken username is reported whether or not the email is taken too. */
  lemma RegisterUsernameBeforeEmail(b: RegisterBody, users: seq<User>, sv: Services, newId: string, saveOk: bool)
    requires RegisterAcceptable(b, sv.isEmail)
    requires FindOne(users, ByUsername, b.username.s).Some?
    ensures RegisterReply(b, users, sv, newId, saveOk) == Refusal("Username taken.")
  {
  }

  /** With a free username, a taken email is reported, and nothing is hashed, saved or issued. */
  lemma RegisterEmailTaken(b: RegisterBody, users: seq<User>, sv: Services, newId: string, saveOk: bool)
    requires RegisterAcceptable(b, sv.isEmail)
    requires FindOne(users, ByUsername, b.username.s).None? && FindOne(users, ByEmail, b.email.s).Some?
    ensures RegisterReply(b, users, sv, newId, saveOk) == Refusal("Email already registered")
  {
  }

  /** An acceptable body whose username or email some stored user already has is refused, and nothing is issued. */
  lemma RegisterDuplicateRefused(b: RegisterBody, users: seq<User>, sv: Services, newId: string, saveOk: bool, k: nat)
    requires RegisterAcceptable(b, sv.isEmail)
    requires k < |users| && (users[k].username == b.username.s || users[k].email == b.email.s)
    ensures var r := RegisterReply(b, users, sv, newId, saveOk);
      r.issued.None? && r.response.body in {Message("Username taken."), Message("Email already registered")}
  {
    if FindOne(users, ByUsername, b.username.s).None? {
      assert users[k].username != b.username.s;
    }
  }

  /**
   * Once a registration has saved its user, a later registration with the
   * same username or the same email is refused as a duplicate.
   */
  lemma RegisterOnce(b: RegisterBody, users: seq<User>, sv: Services, newId: string,
                     b2: RegisterBody, sv2: Services, newId2: string, saveOk2: bool)
    requires RegisterReply(b, users, sv, newId, true).saved.Some?
    requires RegisterAcceptable(b2, sv2.isEmail)
    requires b2.username == b.username || b2.email == b.email
    ensures var after := users + [RegisterReply(b, users, sv, newId, true).saved.value];
      RegisterReply(b2, after, sv2, newId2, saveOk2).issued.None?
  {
    var after := users + [RegisterReply(b, users, sv, newId, true).saved.value];
    RegisterDuplicateRefused(b2, after, sv2, newId2, saveOk2, |users|);
  }

  /** An unknown email and a wrong password get the very same answer, and neither records a token. */
  lemma LoginFailuresIdentical(b1: LoginBody, users1: seq<User>, b2: LoginBody, users2: seq<User>, sv: Services)
    requires LoginAcceptable(b1, sv.isEmail) && FindOne(users1, ByEmail, b1.email.s).None?
    requires LoginAcceptable(b2, sv.isEmail) && FindOne(users2, ByEmail, b2.email.s).Some?
    requires !sv.compare(b2.password.s, FindOne(users2, ByEmail, b2.email.s).value.password)
    ensures LoginReply(b1, users1, sv) == LoginReply(b2, users2, sv) == Refusal("Email or password is wrong.")
  {
  }

  /**
   * The refresh token a login records lets /token mint an access token for
   * the same `_id` and `username`, as long as `jwt.verify` still accepts it
   * (signature and expiry), and whatever else the store holds.
   */
  lemma LoginThenRefresh(b: LoginBody, users: seq<User>, sv: Services, store: seq<string>, later: Services)
    requires LoginReply(b, users, sv).issued.Some?
    requires var user := FindOne(users, ByEmail, b.email.s).value;
      var claim := Claim(user.id, user.username);
      sv.signRefresh(claim) != "" && later.verifyRefresh(sv.signRefresh(claim)) == Some(claim)
    ensures var user := FindOne(users, ByEmail, b.email.s).value;
      var token := LoginReply(b, users, sv).issued.value;
      TokenReply(store + [token], Str(token), later) == Response(200, [], AccessToken(later.signAccess(Claim(user.id, user.username))))
  {
  }

  /**
   * After a successful login the client holds two cookies. The refresh
   * cookie carries exactly the token the store records, and presenting it to
   * /token, while `jwt.verify` accepts it, mints the same access token as the
   * access cookie when the signer is the same.
   */
  lemma LoginCookiesRefresh(b: LoginBody, users: seq<User>, sv: Services, store: seq<string>)
    requires LoginReply(b, users, sv).issued.Some?
    requires var user := FindOne(users, ByEmail, b.email.s).value;
      var token := LoginReply(b, users, sv).issued.value;
      token != "" && sv.verifyRefresh(token) == Some(Claim(user.id, user.username))
    ensures var rep := LoginReply(b, users, sv);
      && |rep.response.cookies| == 2
      && rep.response.cookies[0].name == "accessToken"
      && rep.response.cookies[1] == Cookie("refreshToken", rep.issued.value)
      && TokenReply(store + [rep.issued.value], Str(rep.issued.value), sv) == Response(200, [], AccessToken(rep.response.cookies[0].value))
  {
  }

  /** The same promise for a successful registration, whose claim is the new `_id` and the body's username. */
  lemma RegisterCookiesRefresh(b: RegisterBody, users: seq<User>, sv: Services, newId: string, store: seq<string>)
    requires RegisterReply(b, users, sv, newId, true).issued.Some?
    requires var token := RegisterReply(b, users, sv, newId, true).issued.value;
      token != "" && sv.verifyRefresh(token) == Some(Claim(newId, b.username.s))
    ensures var rep := RegisterReply(b, users, sv, newId, true);
      && |rep.response.cookies| == 2
      && rep.response.cookies[0].name == "accessToken"
      && rep.response.cookies[1] == Cookie("refreshToken", rep.issued.value)
      && TokenReply(store + [rep.issued.value], Str(rep.issued.value), sv) == Response(200, [], AccessToken(rep.response.cookies[0].value))
  {
  }

  /**
   * A client of `UsersRouter`: after a successful login, the refresh token is
   * still accepted on its second use (refresh does not rotate it), the two
   * answers being equal because both are signed by the same signer; after
   * logout the same token is refused with 403.
   */
  method SessionLifecycle(b: LoginBody, users: seq<User>, sv: Services, later: Services)
    returns (first: Response, second: Response, afterLogout: Response)
    requires LoginAcceptable(b, sv.isEmail) && FindOne(users, ByEmail, b.email.s).Some?
    requires sv.compare(b.password.s, FindOne(users, ByEmail, b.email.s).value.password)
    requires var user := FindOne(users, ByEmail, b.email.s).value;
      var claim := Claim(user.id, user.username);
      sv.signRefresh(claim) != "" && later.verifyRefresh(sv.signRefresh(claim)) == Some(claim)
    ensures var user := FindOne(users, ByEmail, b.email.s).value;
      first == Response(200, [], AccessToken(later.signAccess(Claim(user.id, user.username))))
    ensures second == first
    ensures afterLogout == Response(403, [], Text("Forbidden token"))
  {
    var router := new UsersRouter();
    var user := FindOne(users, ByEmail, b.email.s).value;
    var token := sv.signRefresh(Claim(user.id, user.username));
    var loggedIn := router.Login(b, users, sv);
    assert router.refreshTokens == [token];
    first := router.Token(Str(token), later);
    second := router.Token(Str(token), later);
    var loggedOut := router.Logout(Str(token));
    afterLogout := router.Token(Str(token), later);
  }
}
