/**
 * The three request-body schemas: registration, login and status. Each
 * validator returns `Pass(())` or the message of the first error, which is the
 * only part of Joi's answer the route handlers use.
 */
module Validation {
  import opened JsString
  import opened Joi

  /** A registration body; `otherKeys` lists its remaining own keys in enumeration order. */
  datatype RegisterBody = RegisterBody(username: Field, email: Field, password: Field, confirmPassword: Field, otherKeys: seq<string>)

  /** A login body. */
  datatype LoginBody = LoginBody(email: Field, password: Field, otherKeys: seq<string>)

  /** A status body. */
  datatype StatusBody = StatusBody(message: Field, otherKeys: seq<string>)

  const UsernameSchema := StringSchema(true, [Max(64)], map[
    StringEmpty := "Username is required.",
    StringMax := "Username exceeds maximum length of 64 characters."])

  const RegisterEmailSchema := StringSchema(true, [Min(3), Max(255), Email], map[
    StringEmpty := "Email is required.",
    StringMin := "Email must be at least 3 characters long.",
    StringMax := "Email exceeds maximum length of 255 characters.",
    StringEmail := "Email must be valid."])

  const RegisterPasswordSchema := StringSchema(false, [Min(8)], map[
    StringEmpty := "Password is required.",
    StringMin := "Password must be at least 8 characters long."])

  const ConfirmPasswordMessages: map<Code, string> := map[AnyOnly := "Passwords do not match."]

  const LoginEmailSchema := StringSchema(true, [Email], map[])

  const LoginPasswordSchema := StringSchema(false, [], map[])

  const StatusMessageSchema := StringSchema(true, [Max(255)], map[])

  /** Stands in for the email grammar where a schema has no `email()` rule, so it is never consulted. */
  const NoAddressRule: string -> bool := _ => true

  /** What registration accepts, rule by rule. */
  ghost predicate RegisterAcceptable(b: RegisterBody, isEmail: string -> bool)
  {
    && b.username.Str? && 1 <= |Trim(b.username.s)| <= 64
    && b.email.Str? && 3 <= |Trim(b.email.s)| <= 255 && isEmail(Trim(b.email.s))
    && b.password.Str? && |b.password.s| >= 8
    && b.confirmPassword == b.password
    && b.otherKeys == []
  }

  /** What login accepts: a trimmed valid email and any non-empty password. */
  ghost predicate LoginAcceptable(b: LoginBody, isEmail: string -> bool)
  {
    && b.email.Str? && Trim(b.email.s) != [] && isEmail(Trim(b.email.s))
    && b.password.Str? && b.password.s != []
    && b.otherKeys == []
  }

  /** What a status accepts: a message of 1 to 255 characters once trimmed. */
  ghost predicate StatusAcceptable(b: StatusBody)
  {
    && b.message.Str? && 1 <= |Trim(b.message.s)| <= 255
    && b.otherKeys == []
  }

  /** `registerValidation`: keys in schema order, then unknown keys; the first error wins. */
  function RegisterValidation(b: RegisterBody, isEmail: string -> bool): (r: Checked<()>)
    ensures r.Pass? <==> RegisterAcceptable(b, isEmail)
  {
    UsernameKey(b.username, isEmail);
    RegisterEmailKey(b.email, isEmail);
    RegisterPasswordKey(b.password, isEmail);
    var _ :- ValidateString("username", UsernameSchema, b.username, isEmail);
    var _ :- ValidateString("email", RegisterEmailSchema, b.email, isEmail);
    var password :- ValidateString("password", RegisterPasswordSchema, b.password, isEmail);
    var _ :- ValidateEqualRef("confirmPassword", b.confirmPassword, "password", password, ConfirmPasswordMessages);
    NoUnknownKeys(b.otherKeys)
  }

  /** `loginValidation`. */
  function LoginValidation(b: LoginBody, isEmail: string -> bool): (r: Checked<()>)
    ensures r.Pass? <==> LoginAcceptable(b, isEmail)
  {
    var _ :- ValidateString("email", LoginEmailSchema, b.email, isEmail);
    var _ :- ValidateString("password", LoginPasswordSchema, b.password, isEmail);
    NoUnknownKeys(b.otherKeys)
  }

  /** `statusValidation`; its key has no email rule, so the email grammar plays no part. */
  function StatusValidation(b: StatusBody): (r: Checked<()>)
    ensures r.Pass? <==> StatusAcceptable(b)
  {
    var _ :- ValidateString("message", StatusMessageSchema, b.message, NoAddressRule);
    NoUnknownKeys(b.otherKeys)
  }

  lemma UsernameKey(f: Field, isEmail: string -> bool)
    ensures ValidateString("username", UsernameSchema, f, isEmail).Pass? <==> f.Str? && 1 <= |Trim(f.s)| <= 64
  {
  }

  lemma RegisterEmailKey(f: Field, isEmail: string -> bool)
    ensures ValidateString("email", RegisterEmailSchema, f, isEmail).Pass? <==>
      f.Str? && 3 <= |Trim(f.s)| <= 255 && isEmail(Trim(f.s))
  {
    if f.Str? {
      var rules := RegisterEmailSchema.rules;
      assert (forall i :: 0 <= i < |rules| ==> Satisfies(rules[i], Trim(f.s), isEmail)) <==>
        Satisfies(rules[0], Trim(f.s), isEmail) && Satisfies(rules[1], Trim(f.s), isEmail) && Satisfies(rules[2], Trim(f.s), isEmail);
    }
  }

  lemma RegisterPasswordKey(f: Field, isEmail: string -> bool)
    ensures ValidateString("password", RegisterPasswordSchema, f, isEmail).Pass? <==> f.Str? && |f.s| >= 8
    ensures f.Str? && |f.s| >= 8 ==> ValidateString("password", RegisterPasswordSchema, f, isEmail).value == f.s
  {
  }

  /**
   * Registration checks its keys in schema order (username, email, password,
   * then confirmPassword and unknown keys, see RegisterLaterKeys); the first
   * key that fails decides the message, whatever the later keys hold.
   */
  lemma RegisterKeyOrder(b: RegisterBody, isEmail: string -> bool)
    ensures var u := ValidateString("username", UsernameSchema, b.username, isEmail);
      u.Fail? ==> RegisterValidation(b, isEmail) == Fail(u.message)
    ensures var u := ValidateString("username", UsernameSchema, b.username, isEmail);
      var e := ValidateString("email", RegisterEmailSchema, b.email, isEmail);
      u.Pass? && e.Fail? ==> RegisterValidation(b, isEmail) == Fail(e.message)
    ensures var u := ValidateString("username", UsernameSchema, b.username, isEmail);
      var e := ValidateString("email", RegisterEmailSchema, b.email, isEmail);
      var p := ValidateString("password", RegisterPasswordSchema, b.password, isEmail);
      u.Pass? && e.Pass? && p.Fail? ==> RegisterValidation(b, isEmail) == Fail(p.message)
  {
  }

  /**
   * Once username, email and password pass, the confirmation is compared with
   * the password and only then are unknown keys reported.
   */
  lemma RegisterLaterKeys(b: RegisterBody, isEmail: string -> bool)
    requires ValidateString("username", UsernameSchema, b.username, isEmail).Pass?
    requires ValidateString("email", RegisterEmailSchema, b.email, isEmail).Pass?
    requires b.password.Str? && |b.password.s| >= 8
    ensures var c := ValidateEqualRef("confirmPassword", b.confirmPassword, "password", b.password.s, ConfirmPasswordMessages);
      c.Fail? ==> RegisterValidation(b, isEmail) == Fail(c.message)
    ensures b.confirmPassword == b.password ==> RegisterValidation(b, isEmail) == NoUnknownKeys(b.otherKeys)
  {
    RegisterPasswordKey(b.password, isEmail);
  }

  /** `username`: trimmed, then non-empty and at most 64 characters, with the custom messages. */
  lemma UsernameKeyErrors(s: string, isEmail: string -> bool)
    ensures Trim(s) == [] ==>
      ValidateString("username", UsernameSchema, Str(s), isEmail) == Fail("Username is required.")
    ensures |Trim(s)| > 64 ==>
      ValidateString("username", UsernameSchema, Str(s), isEmail) == Fail("Username exceeds maximum length of 64 characters.")
  {
  }

  /** Registration `email`: a blank value has its own message. */
  lemma RegisterEmailBlank(s: string, isEmail: string -> bool)
    requires Trim(s) == []
    ensures ValidateString("email", RegisterEmailSchema, Str(s), isEmail) == Fail("Email is required.")
  {
  }

  /** Registration `email`: length 3 to 255 once trimmed, then the address grammar; one message per rule. */
  lemma RegisterEmailRuleErrors(s: string, isEmail: string -> bool)
    requires Trim(s) != []
    ensures |Trim(s)| < 3 ==>
      ValidateString("email", RegisterEmailSchema, Str(s), isEmail) == Fail("Email must be at least 3 characters long.")
    ensures |Trim(s)| > 255 ==>
      ValidateString("email", RegisterEmailSchema, Str(s), isEmail) == Fail("Email exceeds maximum length of 255 characters.")
    ensures 3 <= |Trim(s)| <= 255 && !isEmail(Trim(s)) ==>
      ValidateString("email", RegisterEmailSchema, Str(s), isEmail) == Fail("Email must be valid.")
  {
    var v, rules := Trim(s), RegisterEmailSchema.rules;
    if |v| < 3 {
      assert FirstBroken(rules, v, isEmail, 0) == 0;
    } else if |v| > 255 {
      assert FirstBroken(rules, v, isEmail, 1) == 1;
    } else if !isEmail(v) {
      assert FirstBroken(rules, v, isEmail, 2) == 2;
      assert FirstBroken(rules, v, isEmail, 1) == 2;
    }
  }

  /** Registration `password`: not trimmed, so whitespace counts towards the 8 characters. */
  lemma RegisterPasswordKeyErrors(s: string, isEmail: string -> bool)
    ensures s == "" ==> ValidateString("password", RegisterPasswordSchema, Str(s), isEmail) == Fail("Password is required.")
    ensures 1 <= |s| < 8 ==>
      ValidateString("password", RegisterPasswordSchema, Str(s), isEmail) == Fail("Password must be at least 8 characters long.")
  {
  }

  /** `confirmPassword`: any value, required, equal to the validated password. */
  lemma ConfirmPasswordErrors(f: Field, password: string)
    ensures f.Absent? ==>
      ValidateEqualRef("confirmPassword", f, "password", password, ConfirmPasswordMessages) == Fail(Label("confirmPassword") + " is required")
    ensures !f.Absent? && f != Str(password) ==>
      ValidateEqualRef("confirmPassword", f, "password", password, ConfirmPasswordMessages) == Fail("Passwords do not match.")
  {
  }

  /** Login checks the email, then the password, then unknown keys; the first failure decides the message. */
  lemma LoginKeyOrder(b: LoginBody, isEmail: string -> bool)
    ensures var e := ValidateString("email", LoginEmailSchema, b.email, isEmail);
      e.Fail? ==> LoginValidation(b, isEmail) == Fail(e.message)
    ensures var e := ValidateString("email", LoginEmailSchema, b.email, isEmail);
      var p := ValidateString("password", LoginPasswordSchema, b.password, isEmail);
      e.Pass? && p.Fail? ==> LoginValidation(b, isEmail) == Fail(p.message)
    ensures var e := ValidateString("email", LoginEmailSchema, b.email, isEmail);
      var p := ValidateString("password", LoginPasswordSchema, b.password, isEmail);
      e.Pass? && p.Pass? ==> LoginValidation(b, isEmail) == NoUnknownKeys(b.otherKeys)
  {
  }

  /** Login `email`: Joi's default messages for a blank or malformed address. */
  lemma LoginEmailErrors(s: string, isEmail: string -> bool)
    ensures Trim(s) == [] ==>
      ValidateString("email", LoginEmailSchema, Str(s), isEmail) == Fail(Label("email") + " is not allowed to be empty")
    ensures Trim(s) != [] && !isEmail(Trim(s)) ==>
      ValidateString("email", LoginEmailSchema, Str(s), isEmail) == Fail(Label("email") + " must be a valid email")
  {
  }

  /** Login `password`: only the empty string is refused; there is no minimum length and no trimming. */
  lemma LoginPasswordErrors(s: string, isEmail: string -> bool)
    ensures s == "" ==>
      ValidateString("password", LoginPasswordSchema, Str(s), isEmail) == Fail(Label("password") + " is not allowed to be empty")
    ensures s != "" ==> ValidateString("password", LoginPasswordSchema, Str(s), isEmail) == Pass(s)
  {
  }

  /** Status `message`: Joi's default messages for a missing, non-string or blank message. */
  lemma StatusErrors(b: StatusBody)
    ensures b.message.Absent? ==> StatusValidation(b) == Fail(Label("message") + " is required")
    ensures b.message.Other? ==> StatusValidation(b) == Fail(Label("message") + " must be a string")
    ensures b.message.Str? && Trim(b.message.s) == [] ==>
      StatusValidation(b) == Fail(Label("message") + " is not allowed to be empty")
  {
  }

  /** Status `message` longer than 255 characters once trimmed, with the limit written out. */
  lemma StatusTooLong(b: StatusBody)
    requires b.message.Str? && |Trim(b.message.s)| > 255
    ensures StatusValidation(b) == Fail(Label("message") + " length must be less than or equal to " + "255" + " characters long")
  {
    DecimalLimit255();
    assert FirstBroken(StatusMessageSchema.rules, Trim(b.message.s), NoAddressRule, 0) == 0;
  }

  lemma DecimalLimit255()
    ensures NatToString(255) == "255"
  {
    assert NatToString(2) == "2";
    assert NatToString(25) == "25";
  }
}
