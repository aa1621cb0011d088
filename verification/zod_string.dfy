/** The part of Zod's string schema the waitlist code uses. A string schema first checks
    the type; then its checks run in the order they were declared, each failing check
    adds its message without stopping the others, and `trim()` / `toLowerCase()` are
    steps in that same sequence that replace the value seen by every later check. */
module ZodString {
  import opened Wrappers
  import opened Text
  import opened JsonValue

  /** A check, carrying the message (of type `M`) it reports when it fails. */
  datatype Check<M> =
    | MinLength(bound: nat, message: M)
    | MaxLength(bound: nat, message: M)
    | EmailShape(message: M)
    | TrimValue
    | LowerValue

  /** `typeMessage` is reported when the value is missing or not a string. */
  datatype StringSchema<M> = StringSchema(typeMessage: M, checks: seq<Check<M>>)

  /** The issue messages collected so far and the current value. */
  datatype Checked<M> = Checked(issues: seq<M>, value: string)

  /** Applies one check to the current value. */
  function ApplyCheck<M>(c: Check<M>, value: string, isEmail: string -> bool): Checked<M> {
    match c
    case MinLength(n, m) => Checked(if |value| < n then [m] else [], value)
    case MaxLength(n, m) => Checked(if |value| > n then [m] else [], value)
    case EmailShape(m) => Checked(if isEmail(value) then [] else [m], value)
    case TrimValue => Checked([], Trim(value))
    case LowerValue => Checked([], ToLower(value))
  }

  /** Runs the checks in declared order over a string value. */
  function RunChecks<M>(checks: seq<Check<M>>, value: string, isEmail: string -> bool): Checked<M> {
    if checks == [] then Checked([], value)
    else
      var first := ApplyCheck(checks[0], value, isEmail);
      var rest := RunChecks(checks[1..], first.value, isEmail);
      Checked(first.issues + rest.issues, rest.value)
  }

  /** One step of running checks: the first check, then the rest on its output. */
  lemma RunChecksStep<M>(cs: seq<Check<M>>, raw: string, isEmail: string -> bool)
    requires |cs| > 0
    ensures var first := ApplyCheck(cs[0], raw, isEmail);
      var rest := RunChecks(cs[1..], first.value, isEmail);
      RunChecks(cs, raw, isEmail) == Checked(first.issues + rest.issues, rest.value)
  {
  }

  /** A check that reports an issue or not and leaves the value alone. */
  predicate IsValidator<M>(c: Check<M>) {
    c.MinLength? || c.MaxLength? || c.EmailShape?
  }

  /** Every check of the sequence is a validator. */
  predicate AllValidators<M>(vs: seq<Check<M>>) {
    |vs| == 0 || (IsValidator(vs[0]) && AllValidators(vs[1..]))
  }

  /** Validators never change the value, so running validators and then further checks
      reports the validators' issues first and then the rest's, on the original value. */
  lemma {:induction false} ValidatorsFirst<M>(vs: seq<Check<M>>, tail: seq<Check<M>>, raw: string, isEmail: string -> bool)
    requires AllValidators(vs)
    ensures RunChecks(vs, raw, isEmail).value == raw
    ensures RunChecks(vs + tail, raw, isEmail)
         == Checked(RunChecks(vs, raw, isEmail).issues + RunChecks(tail, raw, isEmail).issues, RunChecks(tail, raw, isEmail).value)
  {
    if vs != [] {
      var first := ApplyCheck(vs[0], raw, isEmail);
      assert first.value == raw;
      ValidatorsFirst(vs[1..], tail, raw, isEmail);
      var rest := RunChecks(vs[1..], raw, isEmail);
      var after := RunChecks(tail, raw, isEmail);
      var both := vs + tail;
      assert both[0] == vs[0] && both[1..] == vs[1..] + tail;
      RunChecksStep(both, raw, isEmail);
      assert RunChecks(both, raw, isEmail) == Checked(first.issues + (rest.issues + after.issues), after.value);
      RunChecksStep(vs, raw, isEmail);
      assert RunChecks(vs, raw, isEmail) == Checked(first.issues + rest.issues, raw);
      assert first.issues + (rest.issues + after.issues) == (first.issues + rest.issues) + after.issues;
    } else {
      assert vs + tail == tail;
    }
  }

  /** `error.flatten().fieldErrors`: each failing key with its message texts. */
  type WireErrors = map<string, seq<string>>

  datatype FieldResult<M> = FieldOk(value: string) | FieldErr(messages: seq<M>)

  /** Parses a possibly absent JSON value with a string schema. */
  function ParseString<M>(schema: StringSchema<M>, v: Option<Json>, isEmail: string -> bool): (r: FieldResult<M>)
    ensures !(v.Some? && v.value.JString?) ==> r == FieldErr([schema.typeMessage])
    ensures v.Some? && v.value.JString? ==>
      var run := RunChecks(schema.checks, v.value.s, isEmail);
      (r.FieldOk? <==> |run.issues| == 0) && (r.FieldOk? ==> r.value == run.value)
    ensures r.FieldErr? ==> |r.messages| > 0
  {
    match v
    case Some(JString(raw)) =>
      var run := RunChecks(schema.checks, raw, isEmail);
      if |run.issues| == 0 then FieldOk(run.value) else FieldErr(run.issues)
    case _ => FieldErr([schema.typeMessage])
  }

  /** `schema.optional()`: an absent value is accepted as absent. */
  function ParseOptionalString<M>(schema: StringSchema<M>, v: Option<Json>, isEmail: string -> bool): (r: Result<Option<string>, seq<M>>)
    ensures v.None? ==> r == Success(None)
    ensures v.Some? ==> match ParseString(schema, v, isEmail)
                        case FieldOk(s) => r == Success(Some(s))
                        case FieldErr(ms) => r == Failure(ms)
  {
    if v.None? then Success(None)
    else match ParseString(schema, v, isEmail)
      case FieldOk(s) => Success(Some(s))
      case FieldErr(ms) => Failure(ms)
  }

  /** For schemas without an email-shape check, such as those over environment
      values: the email test is never consulted. */
  const NoEmailCheck: string -> bool := (s: string) => true

  /** An environment variable, as `process.env` gives it, in JSON terms. */
  function EnvValue(v: Option<string>): Option<Json> {
    if v.Some? then Some(JString(v.value)) else None
  }
}
