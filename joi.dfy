/**
 * The fragment of the Joi schema engine that the validators use: string keys
 * with `trim`, `required`, `min`, `max` and `email`, an `any` key that must
 * equal a sibling (`equal(ref(...))`), custom `messages`, the rejection of
 * unknown keys, and the default `abortEarly` mode in which validation stops
 * at the first error.
 */
module Joi {
  import opened JsString

  /** One property of a JSON request body: missing, a string, or any other JSON value (with its truthiness). */
  datatype Field = Absent | Str(s: string) | Other(truthy: bool)

  /** JavaScript truthiness of a property value. */
  predicate Truthy(f: Field)
  {
    match f
    case Absent => false
    case Str(s) => s != ""
    case Other(t) => t
  }

  /** The outcome of validating: the converted value, or the message of the first error. */
  datatype Checked<T> = Pass(value: T) | Fail(message: string) {
    predicate IsFailure() { Fail? }

    function PropagateFailure<U>(): Checked<U>
      requires Fail?
    {
      Fail(message)
    }

    function Extract(): T
      requires Pass?
    {
      value
    }
  }

  /** Joi's error codes, named as in Joi (`any.required` is AnyRequired, and so on). */
  datatype Code = AnyRequired | AnyOnly | StringBase | StringEmpty | StringMin | StringMax | StringEmail | ObjectUnknown

  /** The rules a string key may carry, in the order they were declared. */
  datatype Rule = Min(limit: nat) | Max(limit: nat) | Email

  /** A `joi.string()` key: whether it trims, its rules in order, and its custom messages. */
  datatype StringSchema = StringSchema(trim: bool, rules: seq<Rule>, messages: map<Code, string>)

  /** The character of a decimal digit. */
  function Digit(d: nat): char
    requires d < 10
  {
    ('0' as int + d) as char
  }

  /** The number a string of decimal digits denotes, most significant digit first. */
  ghost function DecimalValue(r: string): nat
    requires forall i :: 0 <= i < |r| ==> '0' <= r[i] <= '9'
  {
    if r == [] then 0 else 10 * DecimalValue(r[..|r| - 1]) + (r[|r| - 1] as int - '0' as int)
  }

  /**
   * Decimal notation of a natural number, as a template renders `{{#limit}}`:
   * digits that denote `n`, with no leading zero except in "0" itself.
   */
  function NatToString(n: nat): (r: string)
    ensures |r| >= 1
    ensures forall i :: 0 <= i < |r| ==> '0' <= r[i] <= '9'
    ensures DecimalValue(r) == n
    ensures r[0] == '0' <==> r == "0"
  {
    if n < 10 then [Digit(n)]
    else
      var r := NatToString(n / 10) + [Digit(n % 10)];
      assert r[..|r| - 1] == NatToString(n / 10);
      r
  }

  /** A key's label as the default messages quote it. */
  function Label(key: string): string
  {
    "\"" + key + "\""
  }

  /** Joi's built-in English message templates for the codes used here. */
  function DefaultMessage(code: Code, key: string, limit: nat, refKey: string): string
  {
    var l := Label(key);
    match code
    case AnyRequired => l + " is required"
    case AnyOnly => l + " must be [ref:" + refKey + "]"
    case StringBase => l + " must be a string"
    case StringEmpty => l + " is not allowed to be empty"
    case StringMin => l + " length must be at least " + NatToString(limit) + " characters long"
    case StringMax => l + " length must be less than or equal to " + NatToString(limit) + " characters long"
    case StringEmail => l + " must be a valid email"
    case ObjectUnknown => l + " is not allowed"
  }

  /** A custom message when the schema gives one for the code, otherwise the default one. */
  function Message(code: Code, messages: map<Code, string>, key: string, limit: nat, refKey: string): string
  {
    if code in messages then messages[code] else DefaultMessage(code, key, limit, refKey)
  }

  /** Whether a (converted) string value meets a rule; `isEmail` is Joi's address grammar. */
  predicate Satisfies(rule: Rule, v: string, isEmail: string -> bool)
  {
    match rule
    case Min(n) => |v| >= n
    case Max(n) => |v| <= n
    case Email => isEmail(v)
  }

  /** Index of the first rule from `from` on that the value breaks, or `|rules|` when it meets them all. */
  function FirstBroken(rules: seq<Rule>, v: string, isEmail: string -> bool, from: nat): (i: nat)
    requires from <= |rules|
    ensures from <= i <= |rules|
    ensures forall j :: from <= j < i ==> Satisfies(rules[j], v, isEmail)
    ensures i < |rules| ==> !Satisfies(rules[i], v, isEmail)
    decreases |rules| - from
  {
    if from == |rules| || !Satisfies(rules[from], v, isEmail) then from
    else FirstBroken(rules, v, isEmail, from + 1)
  }

  function RuleCode(rule: Rule): Code
  {
    match rule
    case Min(_) => StringMin
    case Max(_) => StringMax
    case Email => StringEmail
  }

  function RuleLimit(rule: Rule): nat
  {
    match rule
    case Min(n) => n
    case Max(n) => n
    case Email => 0
  }

  /** The value a string key is checked on: trimmed when the schema says `trim()`. */
  function Converted(schema: StringSchema, s: string): string
  {
    if schema.trim then Trim(s) else s
  }

  /**
   * Validates one `joi.string().required()` key, in Joi's order: presence,
   * conversion (trim), the string type, emptiness, then each rule in turn.
   * It accepts exactly a string whose converted value is non-empty and meets
   * every rule, and then yields the converted value.
   */
  function ValidateString(key: string, schema: StringSchema, f: Field, isEmail: string -> bool): (r: Checked<string>)
    ensures r.Pass? <==>
      f.Str? && Converted(schema, f.s) != [] &&
      forall i :: 0 <= i < |schema.rules| ==> Satisfies(schema.rules[i], Converted(schema, f.s), isEmail)
    ensures r.Pass? ==> r.value == Converted(schema, f.s)
  {
    match f
    case Absent => Fail(Message(AnyRequired, schema.messages, key, 0, ""))
    case Other(_) => Fail(Message(StringBase, schema.messages, key, 0, ""))
    case Str(raw) =>
      var v := Converted(schema, raw);
      if v == "" then Fail(Message(StringEmpty, schema.messages, key, 0, ""))
      else
        var i := FirstBroken(schema.rules, v, isEmail, 0);
        if i < |schema.rules| then
          Fail(Message(RuleCode(schema.rules[i]), schema.messages, key, RuleLimit(schema.rules[i]), ""))
        else Pass(v)
  }

  /**
   * Validates a `joi.any().equal(joi.ref(refKey)).required()` key against the
   * already validated value of its sibling: it must be present and equal.
   */
  function ValidateEqualRef(key: string, f: Field, refKey: string, refValue: string, messages: map<Code, string>): (r: Checked<()>)
    ensures r.Pass? <==> f == Str(refValue)
  {
    if f.Absent? then Fail(Message(AnyRequired, messages, key, 0, refKey))
    else if f == Str(refValue) then Pass(())
    else Fail(Message(AnyOnly, messages, key, 0, refKey))
  }

  /** The object-level check after the declared keys: the first remaining key is reported. */
  function NoUnknownKeys(otherKeys: seq<string>): (r: Checked<()>)
    ensures r.Pass? <==> otherKeys == []
    ensures r.Fail? ==> r.message == Label(otherKeys[0]) + " is not allowed"
  {
    if otherKeys == [] then Pass(()) else Fail(DefaultMessage(ObjectUnknown, otherKeys[0], 0, ""))
  }

  /**
   * A missing key and a non-string value fail before any rule, with Joi's
   * default messages when the schema does not override them.
   */
  lemma MissingOrNotString(key: string, schema: StringSchema, f: Field, isEmail: string -> bool)
    requires AnyRequired !in schema.messages && StringBase !in schema.messages
    ensures f.Absent? ==> ValidateString(key, schema, f, isEmail) == Fail(Label(key) + " is required")
    ensures f.Other? ==> ValidateString(key, schema, f, isEmail) == Fail(Label(key) + " must be a string")
  {
  }
}
