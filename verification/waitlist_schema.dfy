/** The waitlist form schema shared by the signup modal and the waitlist endpoint:
    four required strings with length bounds, trimmed, and the email lower-cased.
    The length and email checks are declared before `trim()`, so they judge the raw
    string, not the value the schema outputs. */
module WaitlistSchema {
  import opened Wrappers
  import opened Text
  import opened JsonValue
  import opened ZodString

  datatype Field = Name | Email | Company | Position

  const AllFields: set<Field> := {Name, Email, Company, Position}

  /** The JSON key of each field. */
  function Key(f: Field): string {
    match f
    case Name => "name"
    case Email => "email"
    case Company => "company"
    case Position => "position"
  }

  lemma KeyInjective(f: Field, g: Field)
    ensures Key(f) == Key(g) ==> f == g
  {
  }

  /** The schema's error messages. */
  datatype Message =
    | NameRequired | NameTooShort | NameTooLong
    | EmailRequired | EmailInvalid | EmailEmpty | EmailTooLong
    | CompanyRequired | CompanyEmpty | CompanyTooLong
    | PositionRequired | PositionEmpty | PositionTooLong

  function MessageText(m: Message): string {
    match m
    case NameRequired => "Nome é obrigatório"
    case NameTooShort => "Nome deve ter no mínimo 2 caracteres"
    case NameTooLong => "Nome deve ter no máximo 100 caracteres"
    case EmailRequired => "Email é obrigatório"
    case EmailInvalid => "Email inválido"
    case EmailEmpty => "Email não pode estar vazio"
    case EmailTooLong => "Email muito longo"
    case CompanyRequired => "Empresa é obrigatória"
    case CompanyEmpty => "Nome da empresa não pode estar vazio"
    case CompanyTooLong => "Nome da empresa deve ter no máximo 100 caracteres"
    case PositionRequired => "Cargo é obrigatório"
    case PositionEmpty => "Cargo não pode estar vazio"
    case PositionTooLong => "Cargo deve ter no máximo 100 caracteres"
  }

  /** `waitlistFormSchema`, check by check in declared order. */
  function FieldSchema(f: Field): StringSchema<Message> {
    match f
    case Name => StringSchema(NameRequired, [MinLength(2, NameTooShort), MaxLength(100, NameTooLong), TrimValue])
    case Email => StringSchema(EmailRequired, [EmailShape(EmailInvalid), MinLength(1, EmailEmpty), MaxLength(255, EmailTooLong), TrimValue, LowerValue])
    case Company => StringSchema(CompanyRequired, [MinLength(1, CompanyEmpty), MaxLength(100, CompanyTooLong), TrimValue])
    case Position => StringSchema(PositionRequired, [MinLength(1, PositionEmpty), MaxLength(100, PositionTooLong), TrimValue])
  }

  /** The schema's typed output. Also the shape of the modal's form data. */
  datatype WaitlistForm = WaitlistForm(name: string, email: string, company: string, position: string)

  function Value(form: WaitlistForm, f: Field): string {
    match f
    case Name => form.name
    case Email => form.email
    case Company => form.company
    case Position => form.position
  }

  /** Zod's `flatten().fieldErrors`: every failing field with its messages in order. */
  type FieldErrors = map<Field, seq<Message>>

  /** Parses one field of the input object. */
  function FieldOutcome(input: Json, f: Field, isEmail: string -> bool): FieldResult<Message> {
    ParseString(FieldSchema(f), Member(input, Key(f)), isEmail)
  }

  /** The four field results of one parse. */
  datatype Outcomes = Outcomes(name: FieldResult<Message>, email: FieldResult<Message>,
                               company: FieldResult<Message>, position: FieldResult<Message>)

  function OutcomeOf(os: Outcomes, f: Field): FieldResult<Message> {
    match f
    case Name => os.name
    case Email => os.email
    case Company => os.company
    case Position => os.position
  }

  /** The object result: the typed output when every field passed, otherwise every
      failing field with its messages. */
  function Combine(os: Outcomes): (r: Result<WaitlistForm, FieldErrors>)
    ensures r.Success? <==> forall f :: OutcomeOf(os, f).FieldOk?
    ensures r.Success? ==> forall f :: OutcomeOf(os, f) == FieldOk(Value(r.value, f))
    ensures r.Failure? ==>
      && |r.error| > 0
      && (forall f :: f in r.error <==> OutcomeOf(os, f).FieldErr?)
      && (forall f | f in r.error :: r.error[f] == OutcomeOf(os, f).messages)
  {
    if os.name.FieldOk? && os.email.FieldOk? && os.company.FieldOk? && os.position.FieldOk? then
      Success(WaitlistForm(os.name.value, os.email.value, os.company.value, os.position.value))
    else
      var errors := map f | f in AllFields && OutcomeOf(os, f).FieldErr? :: OutcomeOf(os, f).messages;
      assert !os.name.FieldOk? ==> Name in errors;
      assert !os.email.FieldOk? ==> Email in errors;
      assert !os.company.FieldOk? ==> Company in errors;
      assert !os.position.FieldOk? ==> Position in errors;
      Failure(errors)
  }

  /** The field results of parsing an input object. */
  function ParseFields(input: Json, isEmail: string -> bool): (os: Outcomes)
    ensures forall f :: OutcomeOf(os, f) == FieldOutcome(input, f, isEmail)
  {
    Outcomes(FieldOutcome(input, Name, isEmail), FieldOutcome(input, Email, isEmail),
             FieldOutcome(input, Company, isEmail), FieldOutcome(input, Position, isEmail))
  }

  /** `waitlistFormSchema.safeParse(input)`. A non-object input fails at the root, which
      `flatten()` reports outside `fieldErrors`, so its field errors are empty. */
  function Parse(input: Json, isEmail: string -> bool): (r: Result<WaitlistForm, FieldErrors>)
    ensures !input.JObject? ==> r == Failure(map[])
    ensures input.JObject? ==> (r.Success? <==> forall f :: FieldOutcome(input, f, isEmail).FieldOk?)
    ensures r.Success? ==> forall f :: FieldOutcome(input, f, isEmail) == FieldOk(Value(r.value, f))
    ensures r.Failure? && input.JObject? ==>
      && |r.error| > 0
      && (forall f :: f in r.error <==> FieldOutcome(input, f, isEmail).FieldErr?)
      && (forall f | f in r.error :: r.error[f] == FieldOutcome(input, f, isEmail).messages)
  {
    if !input.JObject? then Failure(map[]) else Combine(ParseFields(input, isEmail))
  }

  // ----- The rule each field enforces, stated without the check machinery -----

  /** What each field's declared checks accept, judged on the raw string. */
  predicate RawAccepted(f: Field, raw: string, isEmail: string -> bool) {
    match f
    case Name => 2 <= |raw| <= 100
    case Email => isEmail(raw) && 1 <= |raw| <= 255
    case Company => 1 <= |raw| <= 100
    case Position => 1 <= |raw| <= 100
  }

  /** The messages of the failing checks of a field, in declared order. */
  function ExpectedMessages(f: Field, raw: string, isEmail: string -> bool): seq<Message> {
    match f
    case Name => (if |raw| < 2 then [NameTooShort] else []) + (if |raw| > 100 then [NameTooLong] else [])
    case Email =>
      (if isEmail(raw) then [] else [EmailInvalid]) + (if |raw| < 1 then [EmailEmpty] else [])
      + (if |raw| > 255 then [EmailTooLong] else [])
    case Company => (if |raw| < 1 then [CompanyEmpty] else []) + (if |raw| > 100 then [CompanyTooLong] else [])
    case Position => (if |raw| < 1 then [PositionEmpty] else []) + (if |raw| > 100 then [PositionTooLong] else [])
  }

  /** The value a field outputs: trimmed, and the email also lower-cased. */
  function Normalise(f: Field, raw: string): string {
    if f == Email then ToLower(Trim(raw)) else Trim(raw)
  }

  /** A form whose every field is trimmed and whose email is lower-case. */
  predicate Normalised(form: WaitlistForm) {
    && (forall f :: IsTrimmed(Value(form, f)))
    && IsLower(form.email)
  }

  /** A name, company or position: two validators, then the trim. */
  lemma ValidatorsThenTrim(c1: Check<Message>, c2: Check<Message>, raw: string, isEmail: string -> bool)
    requires IsValidator(c1) && IsValidator(c2)
    ensures RunChecks([c1, c2, TrimValue], raw, isEmail)
         == Checked(ApplyCheck(c1, raw, isEmail).issues + ApplyCheck(c2, raw, isEmail).issues, Trim(raw))
  {
    var vs := [c1, c2];
    var tail: seq<Check<Message>> := [TrimValue];
    TwoValidators(c1, c2, raw, isEmail);
    assert vs + tail == [c1, c2, TrimValue];
    ValidatorsFirst(vs, tail, raw, isEmail);
    TrimOnly(raw, isEmail);
  }

  /** Two validators report their issues in order. */
  lemma TwoValidators(c1: Check<Message>, c2: Check<Message>, raw: string, isEmail: string -> bool)
    requires IsValidator(c1) && IsValidator(c2)
    ensures AllValidators([c1, c2])
    ensures RunChecks([c1, c2], raw, isEmail).issues == ApplyCheck(c1, raw, isEmail).issues + ApplyCheck(c2, raw, isEmail).issues
  {
    var vs := [c1, c2];
    assert vs[1..] == [c2] && vs[1..][1..] == [];
    RunChecksStep(vs, raw, isEmail);
    RunChecksStep(vs[1..], raw, isEmail);
  }

  /** The trim step alone. */
  lemma TrimOnly(raw: string, isEmail: string -> bool)
    ensures RunChecks<Message>([TrimValue], raw, isEmail) == Checked([], Trim(raw))
  {
    RunChecksStep<Message>([TrimValue], raw, isEmail);
  }

  /** The email's two transforms: trimmed, then lower-cased, with no issues. */
  lemma TrimThenLower(raw: string, isEmail: string -> bool)
    ensures RunChecks<Message>([TrimValue, LowerValue], raw, isEmail) == Checked([], ToLower(Trim(raw)))
  {
    var trimLower: seq<Check<Message>> := [TrimValue, LowerValue];
    var lowerOnly: seq<Check<Message>> := [LowerValue];
    RunChecksStep(trimLower, raw, isEmail);
    RunChecksStep(lowerOnly, Trim(raw), isEmail);
    assert trimLower[1..] == lowerOnly;
  }

  /** The email's three validators report its expected messages, in order. */
  lemma EmailIssues(raw: string, isEmail: string -> bool)
    ensures RunChecks([EmailShape(EmailInvalid), MinLength(1, EmailEmpty), MaxLength(255, EmailTooLong)], raw, isEmail).issues
         == ExpectedMessages(Email, raw, isEmail)
  {
    var vs := [EmailShape(EmailInvalid), MinLength(1, EmailEmpty), MaxLength(255, EmailTooLong)];
    RunChecksStep(vs, raw, isEmail);
    RunChecksStep(vs[1..], raw, isEmail);
    RunChecksStep(vs[2..], raw, isEmail);
  }

  lemma EmailChecks(raw: string, isEmail: string -> bool)
    ensures RunChecks(FieldSchema(Email).checks, raw, isEmail) == Checked(ExpectedMessages(Email, raw, isEmail), ToLower(Trim(raw)))
  {
    var vs := [EmailShape(EmailInvalid), MinLength(1, EmailEmpty), MaxLength(255, EmailTooLong)];
    var tail: seq<Check<Message>> := [TrimValue, LowerValue];
    assert FieldSchema(Email).checks == vs + tail;
    ValidatorsFirst(vs, tail, raw, isEmail);
    TrimThenLower(raw, isEmail);
    EmailIssues(raw, isEmail);
  }

  /** Running a field's declared checks on a raw string yields exactly the failing
      checks' messages and the normalised value. */
  lemma ChecksOutcome(f: Field, raw: string, isEmail: string -> bool)
    ensures RunChecks(FieldSchema(f).checks, raw, isEmail) == Checked(ExpectedMessages(f, raw, isEmail), Normalise(f, raw))
  {
    match f
    case Email => EmailChecks(raw, isEmail);
    case Name => NameChecks(raw, isEmail);
    case Company => CompanyChecks(raw, isEmail);
    case Position => PositionChecks(raw, isEmail);
  }

  lemma NameChecks(raw: string, isEmail: string -> bool)
    ensures RunChecks(FieldSchema(Name).checks, raw, isEmail) == Checked(ExpectedMessages(Name, raw, isEmail), Trim(raw))
  {
    ValidatorsThenTrim(MinLength(2, NameTooShort), MaxLength(100, NameTooLong), raw, isEmail);
  }

  lemma CompanyChecks(raw: string, isEmail: string -> bool)
    ensures RunChecks(FieldSchema(Company).checks, raw, isEmail) == Checked(ExpectedMessages(Company, raw, isEmail), Trim(raw))
  {
    ValidatorsThenTrim(MinLength(1, CompanyEmpty), MaxLength(100, CompanyTooLong), raw, isEmail);
  }

  lemma PositionChecks(raw: string, isEmail: string -> bool)
    ensures RunChecks(FieldSchema(Position).checks, raw, isEmail) == Checked(ExpectedMessages(Position, raw, isEmail), Trim(raw))
  {
    ValidatorsThenTrim(MinLength(1, PositionEmpty), MaxLength(100, PositionTooLong), raw, isEmail);
  }

  /** A field's failing-check list is empty exactly when its declared bounds hold. */
  lemma ExpectedMessagesEmptyIff(f: Field, raw: string, isEmail: string -> bool)
    ensures ExpectedMessages(f, raw, isEmail) == [] <==> RawAccepted(f, raw, isEmail)
  {
  }

  /** The input has a string under the field's key. */
  predicate IsStringField(input: Json, f: Field) {
    Member(input, Key(f)).Some? && Member(input, Key(f)).value.JString?
  }

  /** The raw string under the field's key (empty when there is none). */
  function RawValue(input: Json, f: Field): string {
    if IsStringField(input, f) then Member(input, Key(f)).value.s else ""
  }

  /** The messages a field reports when it fails: its required message when it is not a
      string, otherwise those of its failing checks. */
  function ExpectedOrRequired(input: Json, f: Field, isEmail: string -> bool): seq<Message> {
    if IsStringField(input, f) then ExpectedMessages(f, RawValue(input, f), isEmail) else [FieldSchema(f).typeMessage]
  }

  /** Each field: missing or not a string gives its required message; a string is
      accepted exactly when the declared bounds hold of the raw value, the output is the
      normalised value, and a rejection lists exactly the failing checks' messages. */
  lemma FieldRule(input: Json, f: Field, isEmail: string -> bool)
    ensures FieldOutcome(input, f, isEmail).FieldOk? <==> IsStringField(input, f) && RawAccepted(f, RawValue(input, f), isEmail)
    ensures FieldOutcome(input, f, isEmail).FieldOk? ==> FieldOutcome(input, f, isEmail).value == Normalise(f, RawValue(input, f))
    ensures FieldOutcome(input, f, isEmail).FieldErr? ==>
      FieldOutcome(input, f, isEmail).messages == ExpectedOrRequired(input, f, isEmail)
  {
    if IsStringField(input, f) {
      ChecksOutcome(f, RawValue(input, f), isEmail);
      ExpectedMessagesEmptyIff(f, RawValue(input, f), isEmail);
    }
  }

  /** The accepted and rejected sets of the schema, field by field. */
  lemma ParseIff(input: Json, isEmail: string -> bool)
    requires input.JObject?
    ensures Parse(input, isEmail).Success? <==>
      forall f :: IsStringField(input, f) && RawAccepted(f, RawValue(input, f), isEmail)
  {
    forall f
      ensures FieldOutcome(input, f, isEmail).FieldOk? <==> IsStringField(input, f) && RawAccepted(f, RawValue(input, f), isEmail)
    {
      FieldRule(input, f, isEmail);
    }
  }

  /** Every normalised value is trimmed, and the normalised email is lower-case. */
  lemma NormaliseIsNormal(f: Field, raw: string)
    ensures IsTrimmed(Normalise(f, raw))
    ensures f == Email ==> IsLower(Normalise(f, raw))
  {
    if f == Email {
      ToLowerKeepsTrimmed(Trim(raw));
      ToLowerIdempotent(Trim(raw));
    }
  }

  /** A form made of normalised values is normalised: trimming any field again, or
      lower-casing the email again, changes nothing. */
  lemma NormalisedValues(out: WaitlistForm, input: Json)
    requires forall f :: Value(out, f) == Normalise(f, RawValue(input, f))
    ensures Normalised(out)
    ensures forall f :: Trim(Value(out, f)) == Value(out, f)
    ensures ToLower(out.email) == out.email
  {
    forall f
      ensures IsTrimmed(Value(out, f)) && Trim(Value(out, f)) == Value(out, f)
    {
      NormaliseIsNormal(f, RawValue(input, f));
      TrimOfTrimmed(Value(out, f));
    }
    NormaliseIsNormal(Email, RawValue(input, Email));
    assert out.email == Value(out, Email);
    ToLowerOfLower(out.email);
  }

  /** A successful parse outputs each raw field normalised, and the output is already
      normalised: trimming any field again, or lower-casing the email again, changes nothing. */
  lemma AcceptedIsNormalised(input: Json, isEmail: string -> bool)
    requires Parse(input, isEmail).Success?
    ensures var out := Parse(input, isEmail).value;
      && (forall f :: Value(out, f) == Normalise(f, RawValue(input, f)))
      && Normalised(out)
      && (forall f :: Trim(Value(out, f)) == Value(out, f))
      && ToLower(out.email) == out.email
  {
    var out := Parse(input, isEmail).value;
    forall f
      ensures Value(out, f) == Normalise(f, RawValue(input, f))
    {
      FieldRule(input, f, isEmail);
    }
    NormalisedValues(out, input);
  }

  /** A failing parse of an object reports exactly the failing fields, each with the
      messages of its failing checks (or its required message); passing fields are absent. */
  lemma RejectedReportsFailingFields(input: Json, isEmail: string -> bool)
    requires input.JObject? && Parse(input, isEmail).Failure?
    ensures var errors := Parse(input, isEmail).error;
      forall f ::
        && (f in errors <==> !(IsStringField(input, f) && RawAccepted(f, RawValue(input, f), isEmail)))
        && (f in errors ==> errors[f] == ExpectedOrRequired(input, f, isEmail))
  {
    var errors := Parse(input, isEmail).error;
    forall f
      ensures f in errors <==> !(IsStringField(input, f) && RawAccepted(f, RawValue(input, f), isEmail))
      ensures f in errors ==> errors[f] == ExpectedOrRequired(input, f, isEmail)
    {
      FieldRule(input, f, isEmail);
    }
  }

  // ----- What the client sends the server -----

  /** `JSON.stringify` of a form, as the server's `request.json()` reads it back. */
  function ToJson(form: WaitlistForm): (j: Json)
    ensures forall f :: Member(j, Key(f)) == Some(JString(Value(form, f)))
  {
    JObject(map[Key(Name) := JString(form.name), Key(Email) := JString(form.email),
                Key(Company) := JString(form.company), Key(Position) := JString(form.position)])
  }

  /** Every field of a sent form arrives as the string that was sent. */
  lemma ToJsonFields(form: WaitlistForm)
    ensures forall f :: IsStringField(ToJson(form), f) && RawValue(ToJson(form), f) == Value(form, f)
  {
  }

  /** Normalising the values of a normalised form changes nothing. */
  lemma NormalisedIsFixed(form: WaitlistForm)
    requires Normalised(form)
    ensures forall f :: Normalise(f, Value(form, f)) == Value(form, f)
  {
    forall f
      ensures Normalise(f, Value(form, f)) == Value(form, f)
    {
      TrimOfTrimmed(Value(form, f));
      if f == Email {
        ToLowerOfLower(form.email);
      }
    }
  }

  /** Two forms with the same value in every field are the same form. */
  lemma FormExtensionality(a: WaitlistForm, b: WaitlistForm)
    requires forall f :: Value(a, f) == Value(b, f)
    ensures a == b
  {
    assert Value(a, Name) == Value(b, Name) && Value(a, Email) == Value(b, Email);
    assert Value(a, Company) == Value(b, Company) && Value(a, Position) == Value(b, Position);
  }

  /** The server re-parses what the client sends. For a normalised form, the server
      accepts exactly when the declared bounds hold of the normalised values, and then
      outputs the same form. */
  lemma ReparseIff(form: WaitlistForm, isEmail: string -> bool)
    requires Normalised(form)
    ensures Parse(ToJson(form), isEmail).Success? <==> forall f :: RawAccepted(f, Value(form, f), isEmail)
    ensures Parse(ToJson(form), isEmail).Success? ==> Parse(ToJson(form), isEmail).value == form
  {
    var j := ToJson(form);
    ToJsonFields(form);
    ParseIff(j, isEmail);
    if Parse(j, isEmail).Success? {
      NormalisedIsFixed(form);
      AcceptedIsNormalised(j, isEmail);
      FormExtensionality(Parse(j, isEmail).value, form);
    }
  }

  /** Client and server acceptance diverge: a name of one letter padded with spaces passes
      the length check on the raw string, the client sends the trimmed name, and the server
      rejects that with the name-too-short message alone. */
  lemma ClientServerDivergence(isEmail: string -> bool)
    requires isEmail("a@b.com")
    ensures var client := Parse(ToJson(WaitlistForm(" a ", "a@b.com", "Acme", "CEO")), isEmail);
      && client.Success?
      && client.value == WaitlistForm("a", "a@b.com", "Acme", "CEO")
      && Parse(ToJson(client.value), isEmail) == Failure(map[Name := [NameTooShort]])
  {
    var raw := WaitlistForm(" a ", "a@b.com", "Acme", "CEO");
    var sent := WaitlistForm("a", "a@b.com", "Acme", "CEO");
    ClientAcceptsPaddedName(isEmail);
    ServerRejectsShortName(isEmail);
  }

  /** A sent form whose values meet the declared bounds is accepted, and each output
      field is the sent value normalised. */
  lemma SentAccepted(form: WaitlistForm, isEmail: string -> bool)
    requires forall f :: RawAccepted(f, Value(form, f), isEmail)
    ensures Parse(ToJson(form), isEmail).Success?
    ensures forall f :: Value(Parse(ToJson(form), isEmail).value, f) == Normalise(f, Value(form, f))
  {
    var j := ToJson(form);
    ToJsonFields(form);
    ParseIff(j, isEmail);
    AcceptedIsNormalised(j, isEmail);
  }

  /** A sent form that is rejected reports exactly the fields whose values break the
      declared bounds, each with its failing checks' messages. */
  lemma SentRejected(form: WaitlistForm, isEmail: string -> bool)
    requires Parse(ToJson(form), isEmail).Failure?
    ensures var errors := Parse(ToJson(form), isEmail).error;
      && (forall f :: f in errors <==> !RawAccepted(f, Value(form, f), isEmail))
      && (forall f | f in errors :: errors[f] == ExpectedMessages(f, Value(form, f), isEmail))
  {
    var j := ToJson(form);
    ToJsonFields(form);
    RejectedReportsFailingFields(j, isEmail);
  }

  /** The sample email is already trimmed and lower-case. */
  lemma SampleEmailIsNormal()
    ensures Trim("a@b.com") == "a@b.com" && IsLower("a@b.com") && ToLower("a@b.com") == "a@b.com"
  {
    TrimOfTrimmed("a@b.com");
    assert IsLower("a@b.com") by {
      forall i | 0 <= i < |"a@b.com"| ensures LowerChar("a@b.com"[i]) == "a@b.com"[i] {
      }
    }
    ToLowerOfLower("a@b.com");
  }

  lemma PaddedNameTrims()
    ensures Trim(" a ") == "a"
    ensures Normalise(Name, " a ") == "a"
  {
    assert TrimStart(" a ") == "a ";
    assert TrimEnd("a ") == "a";
  }

  lemma PaddedFormFacts(isEmail: string -> bool)
    requires isEmail("a@b.com")
    ensures var raw := WaitlistForm(" a ", "a@b.com", "Acme", "CEO");
      && (forall f :: RawAccepted(f, Value(raw, f), isEmail))
      && (forall f :: Normalise(f, Value(raw, f)) == Value(WaitlistForm("a", "a@b.com", "Acme", "CEO"), f))
  {
    var raw := WaitlistForm(" a ", "a@b.com", "Acme", "CEO");
    var sent := WaitlistForm("a", "a@b.com", "Acme", "CEO");
    forall f
      ensures RawAccepted(f, Value(raw, f), isEmail)
      ensures Normalise(f, Value(raw, f)) == Value(sent, f)
    {
      PaddedField(f, isEmail);
    }
  }

  /** One field of the padded sample form: accepted, and normalised to the sent value. */
  lemma PaddedField(f: Field, isEmail: string -> bool)
    requires isEmail("a@b.com")
    ensures RawAccepted(f, Value(WaitlistForm(" a ", "a@b.com", "Acme", "CEO"), f), isEmail)
    ensures Normalise(f, Value(WaitlistForm(" a ", "a@b.com", "Acme", "CEO"), f)) == Value(WaitlistForm("a", "a@b.com", "Acme", "CEO"), f)
  {
    match f
    case Name => PaddedNameTrims();
    case Email => SampleEmailAccepted(isEmail);
    case Company => TrimOfTrimmed("Acme");
    case Position => TrimOfTrimmed("CEO");
  }

  /** The sample email is accepted and normalises to itself. */
  lemma SampleEmailAccepted(isEmail: string -> bool)
    requires isEmail("a@b.com")
    ensures RawAccepted(Email, "a@b.com", isEmail)
    ensures Normalise(Email, "a@b.com") == "a@b.com"
  {
    SampleEmailIsNormal();
  }

  lemma TrimmedFormFacts(isEmail: string -> bool)
    requires isEmail("a@b.com")
    ensures var sent := WaitlistForm("a", "a@b.com", "Acme", "CEO");
      && Normalised(sent)
      && (forall f :: !RawAccepted(f, Value(sent, f), isEmail) <==> f == Name)
      && ExpectedMessages(Name, "a", isEmail) == [NameTooShort]
  {
    var sent := WaitlistForm("a", "a@b.com", "Acme", "CEO");
    SampleEmailIsNormal();
    forall f
      ensures IsTrimmed(Value(sent, f))
      ensures !RawAccepted(f, Value(sent, f), isEmail) <==> f == Name
    {
    }
  }

  lemma SingleError(errors: FieldErrors)
    requires forall f :: f in errors <==> f == Name
    requires Name in errors ==> errors[Name] == [NameTooShort]
    ensures errors == map[Name := [NameTooShort]]
  {
  }

  lemma ClientAcceptsPaddedName(isEmail: string -> bool)
    requires isEmail("a@b.com")
    ensures var client := Parse(ToJson(WaitlistForm(" a ", "a@b.com", "Acme", "CEO")), isEmail);
      client.Success? && client.value == WaitlistForm("a", "a@b.com", "Acme", "CEO")
  {
    var raw := WaitlistForm(" a ", "a@b.com", "Acme", "CEO");
    PaddedFormFacts(isEmail);
    SentAccepted(raw, isEmail);
    FormExtensionality(Parse(ToJson(raw), isEmail).value, WaitlistForm("a", "a@b.com", "Acme", "CEO"));
  }

  lemma ServerRejectsShortName(isEmail: string -> bool)
    requires isEmail("a@b.com")
    ensures Parse(ToJson(WaitlistForm("a", "a@b.com", "Acme", "CEO")), isEmail) == Failure(map[Name := [NameTooShort]])
  {
    var sent := WaitlistForm("a", "a@b.com", "Acme", "CEO");
    TrimmedFormFacts(isEmail);
    ReparseIff(sent, isEmail);
    SentRejected(sent, isEmail);
    SingleError(Parse(ToJson(sent), isEmail).error);
  }
}
