/** `POST /api/rd-station`: forwards a lead to RD Station's events API as a conversion
    event. The route checks its configuration, then the request body, builds the event
    and relays RD Station's answer. The outbound call is an oracle from the request it is
    given to what came back. */
module RdStationRoute {
  import opened Wrappers
  import opened Text
  import opened JsonValue
  import opened ZodString

  // ----- Configuration -----

  const TokenKey: string := "RDSTATION_ACCESS_TOKEN"
  const TokenMissing: string := "RDSTATION_ACCESS_TOKEN não configurado"
  const TokenEmpty: string := "RDSTATION_ACCESS_TOKEN não pode estar vazio"
  const DefaultIdentifier: string := "waitlist-56d72e81421d39240aa9"

  const TokenSchema: StringSchema<string> := StringSchema(TokenMissing, [MinLength(1, TokenEmpty)])

  /** The two environment variables, absent when unset. */
  datatype RdEnv = RdEnv(token: Option<string>, identifier: Option<string>)

  /** The validated configuration. */
  datatype RdConfig = RdConfig(token: string, identifier: string)

  /** A schema with one non-empty check reports emptiness and keeps the value. */
  lemma NonEmptyCheck(message: string, raw: string, isEmail: string -> bool)
    ensures RunChecks([MinLength(1, message)], raw, isEmail) == Checked(if |raw| < 1 then [message] else [], raw)
  {
    RunChecksStep([MinLength(1, message)], raw, isEmail);
  }

  /** The environment schema: the token must be a non-empty string; the conversion
      identifier falls back to its default only when unset. */
  function ReadEnv(env: RdEnv): (r: Result<RdConfig, WireErrors>)
    ensures r.Success? <==> Truthy(env.token)
    ensures r.Success? ==> r.value.token == env.token.value
    ensures r.Success? && env.identifier.Some? ==> r.value.identifier == env.identifier.value
    ensures r.Success? && env.identifier.None? ==> r.value.identifier == DefaultIdentifier
    ensures env.token.None? ==> r == Failure(map[TokenKey := [TokenMissing]])
    ensures env.token == Some("") ==> r == Failure(map[TokenKey := [TokenEmpty]])
  {
    NonEmptyCheck(TokenEmpty, env.token.GetOr(""), NoEmailCheck);
    match ParseString(TokenSchema, EnvValue(env.token), NoEmailCheck)
    case FieldErr(ms) => Failure(map[TokenKey := ms])
    case FieldOk(token) => Success(RdConfig(token, env.identifier.GetOr(DefaultIdentifier)))
  }

  /** An empty identifier is kept: only an unset one is defaulted. */
  lemma EmptyIdentifierKept(token: string)
    requires |token| > 0
    ensures ReadEnv(RdEnv(Some(token), Some(""))) == Success(RdConfig(token, ""))
  {
  }

  // ----- The request body -----

  const EmailKey: string := "email"
  const NameKey: string := "name"
  const PhoneKey: string := "phone"

  const EmailNotString: string := "Email deve ser uma string"
  const EmailInvalid: string := "Email inválido"
  const EmailEmpty: string := "Email não pode estar vazio"

  const EmailSchema: StringSchema<string> := StringSchema(EmailNotString, [EmailShape(EmailInvalid), MinLength(1, EmailEmpty)])
  const NameSchema: StringSchema<string> := StringSchema("Nome deve ser uma string", [MinLength(1, "Nome não pode estar vazio")])
  const PhoneSchema: StringSchema<string> := StringSchema("Telefone deve ser uma string", [MinLength(1, "Telefone não pode estar vazio")])

  /** A validated lead. The values are kept exactly as sent: nothing is trimmed. */
  datatype Lead = Lead(email: string, name: Option<string>, phone: Option<string>)

  /** The body schema: `email` is a string of email shape and non-empty; `name` and
      `phone` are absent or non-empty strings. A body that is not an object fails with no
      field errors. */
  function ParseLead(body: Json, isEmail: string -> bool): (r: Result<Lead, WireErrors>)
    ensures !body.JObject? ==> r == Failure(map[])
    ensures r.Failure? ==> r.error.Keys <= {EmailKey, NameKey, PhoneKey}
    ensures r.Failure? && body.JObject? ==> EmailKey in r.error || NameKey in r.error || PhoneKey in r.error
  {
    if !body.JObject? then Failure(map[])
    else
      var email := ParseString(EmailSchema, Member(body, EmailKey), isEmail);
      var name := ParseOptionalString(NameSchema, Member(body, NameKey), isEmail);
      var phone := ParseOptionalString(PhoneSchema, Member(body, PhoneKey), isEmail);
      if email.FieldOk? && name.Success? && phone.Success? then
        Success(Lead(email.value, name.value, phone.value))
      else
        Failure(KeyedErrors(EmailKey, if email.FieldErr? then Some(email.messages) else None)
                + KeyedErrors(NameKey, if name.Failure? then Some(name.error) else None)
                + KeyedErrors(PhoneKey, if phone.Failure? then Some(phone.error) else None))
  }

  /** One member's entry in the field errors, if it failed. */
  function KeyedErrors(key: string, messages: Option<seq<string>>): (e: WireErrors)
    ensures e.Keys == if messages.Some? then {key} else {}
    ensures messages.Some? ==> e[key] == messages.value
  {
    if messages.Some? then map[key := messages.value] else map[]
  }

  /** The email rule, stated on the raw member. */
  predicate EmailAccepted(v: Option<Json>, isEmail: string -> bool) {
    v.Some? && v.value.JString? && isEmail(v.value.s) && |v.value.s| > 0
  }

  /** The rule for `name` and `phone`: absent, or a non-empty string. JSON `null` is not
      absent. */
  predicate OptionalAccepted(v: Option<Json>) {
    v.None? || (v.value.JString? && |v.value.s| > 0)
  }

  /** The email messages, in the order the checks run. */
  function EmailMessages(v: Option<Json>, isEmail: string -> bool): seq<string> {
    if v.Some? && v.value.JString? then
      (if isEmail(v.value.s) then [] else [EmailInvalid]) + (if |v.value.s| < 1 then [EmailEmpty] else [])
    else [EmailNotString]
  }

  lemma EmailRule(v: Option<Json>, isEmail: string -> bool)
    ensures ParseString(EmailSchema, v, isEmail).FieldOk? <==> EmailAccepted(v, isEmail)
    ensures ParseString(EmailSchema, v, isEmail).FieldOk? ==> ParseString(EmailSchema, v, isEmail).value == v.value.s
    ensures ParseString(EmailSchema, v, isEmail).FieldErr? ==> ParseString(EmailSchema, v, isEmail).messages == EmailMessages(v, isEmail)
  {
    if v.Some? && v.value.JString? {
      var raw := v.value.s;
      RunChecksStep(EmailSchema.checks, raw, isEmail);
      NonEmptyCheck(EmailEmpty, raw, isEmail);
      assert EmailSchema.checks[1..] == [MinLength(1, EmailEmpty)];
    }
  }

  lemma OptionalRule(schema: StringSchema<string>, v: Option<Json>, isEmail: string -> bool)
    requires |schema.checks| == 1 && schema.checks[0].MinLength? && schema.checks[0].bound == 1
    ensures ParseOptionalString(schema, v, isEmail).Success? <==> OptionalAccepted(v)
    ensures ParseOptionalString(schema, v, isEmail).Success? ==>
      ParseOptionalString(schema, v, isEmail).value == (if v.Some? then Some(v.value.s) else None)
  {
    if v.Some? && v.value.JString? {
      assert schema.checks == [MinLength(1, schema.checks[0].message)];
      NonEmptyCheck(schema.checks[0].message, v.value.s, isEmail);
    }
  }

  /** A body is accepted exactly when it is an object whose three members meet their
      rules, and the lead holds the members as sent. */
  lemma LeadRule(body: Json, isEmail: string -> bool)
    ensures ParseLead(body, isEmail).Success? <==>
      && body.JObject?
      && EmailAccepted(Member(body, EmailKey), isEmail)
      && OptionalAccepted(Member(body, NameKey))
      && OptionalAccepted(Member(body, PhoneKey))
    ensures ParseLead(body, isEmail).Success? ==>
      var lead := ParseLead(body, isEmail).value;
      && lead.email == body.members[EmailKey].s
      && (lead.name.Some? <==> NameKey in body.members)
      && (lead.name.Some? ==> lead.name.value == body.members[NameKey].s)
      && (lead.phone.Some? <==> PhoneKey in body.members)
      && (lead.phone.Some? ==> lead.phone.value == body.members[PhoneKey].s)
  {
    EmailRule(Member(body, EmailKey), isEmail);
    OptionalRule(NameSchema, Member(body, NameKey), isEmail);
    OptionalRule(PhoneSchema, Member(body, PhoneKey), isEmail);
  }

  /** A rejected object body names exactly the members that break their rules, and the
      email member's messages in check order. */
  lemma LeadErrors(body: Json, isEmail: string -> bool)
    requires body.JObject? && ParseLead(body, isEmail).Failure?
    ensures var errors := ParseLead(body, isEmail).error;
      && (EmailKey in errors <==> !EmailAccepted(Member(body, EmailKey), isEmail))
      && (NameKey in errors <==> !OptionalAccepted(Member(body, NameKey)))
      && (PhoneKey in errors <==> !OptionalAccepted(Member(body, PhoneKey)))
      && (EmailKey in errors ==> errors[EmailKey] == EmailMessages(Member(body, EmailKey), isEmail))
  {
    EmailRule(Member(body, EmailKey), isEmail);
    OptionalRule(NameSchema, Member(body, NameKey), isEmail);
    OptionalRule(PhoneSchema, Member(body, PhoneKey), isEmail);
  }

  /** An empty email reports both the shape and the emptiness message, shape first. */
  lemma EmptyEmailMessages(isEmail: string -> bool)
    requires !isEmail("")
    ensures EmailMessages(Some(JString("")), isEmail) == [EmailInvalid, EmailEmpty]
  {
  }

  /** What validation lets through: `name` and `phone`, when present, are non-empty. */
  predicate WellFormed(lead: Lead) {
    && (lead.name.Some? ==> |lead.name.value| > 0)
    && (lead.phone.Some? ==> |lead.phone.value| > 0)
  }

  lemma ParsedLeadWellFormed(body: Json, isEmail: string -> bool)
    requires ParseLead(body, isEmail).Success?
    ensures WellFormed(ParseLead(body, isEmail).value)
  {
    LeadRule(body, isEmail);
  }

  // ----- The conversion event -----

  const EventsUrl: string := "https://api.rd.services/platform/events?event_type=conversion"

  /** The outbound call: where, with which credentials, carrying which event. */
  datatype Outbound = Outbound(url: string, authorization: string, event: Json)

  /** The event's `payload`: identifier and email always, `name` and `personal_phone`
      only when non-empty. */
  function PayloadMembers(cfg: RdConfig, lead: Lead): (m: map<string, Json>)
    ensures "conversion_identifier" in m && m["conversion_identifier"] == JString(cfg.identifier)
    ensures "email" in m && m["email"] == JString(lead.email)
    ensures "name" in m <==> Truthy(lead.name)
    ensures "personal_phone" in m <==> Truthy(lead.phone)
    ensures "name" in m ==> m["name"] == JString(lead.name.value)
    ensures "personal_phone" in m ==> m["personal_phone"] == JString(lead.phone.value)
    ensures forall k | k in m :: k in {"conversion_identifier", "email", "name", "personal_phone"}
  {
    map["conversion_identifier" := JString(cfg.identifier), "email" := JString(lead.email)]
    + (if Truthy(lead.name) then map["name" := JString(lead.name.value)] else map[])
    + (if Truthy(lead.phone) then map["personal_phone" := JString(lead.phone.value)] else map[])
  }

  /** The conversion event sent to RD Station. */
  function EventFor(cfg: RdConfig, lead: Lead): (j: Json)
    ensures j.JObject? && j.members.Keys == {"event_type", "event_family", "payload"}
    ensures j.members["event_type"] == JString("CONVERSION") && j.members["event_family"] == JString("CDP")
  {
    JObject(map["event_type" := JString("CONVERSION"), "event_family" := JString("CDP"),
                "payload" := JObject(PayloadMembers(cfg, lead))])
  }

  function OutboundFor(cfg: RdConfig, lead: Lead): (out: Outbound)
    ensures out.url == EventsUrl
    ensures out.authorization == "Bearer " + cfg.token
  {
    Outbound(EventsUrl, "Bearer " + cfg.token, EventFor(cfg, lead))
  }

  /** A string member of an object, if it is one. */
  function StringMember(m: map<string, Json>, key: string): (r: Option<string>)
    ensures r.Some? <==> key in m && m[key].JString?
  {
    if key in m && m[key].JString? then Some(m[key].s) else None
  }

  /** Reads a lead back out of a conversion event, as the receiving side would. */
  function LeadOfEvent(j: Json): (r: Option<Lead>)
    ensures r.Some? ==> j.JObject? && "payload" in j.members
  {
    if j.JObject? && "payload" in j.members && j.members["payload"].JObject? then
      var p := j.members["payload"].members;
      match StringMember(p, "email")
      case None => None
      case Some(email) => Some(Lead(email, StringMember(p, "name"), StringMember(p, "personal_phone")))
    else None
  }

  /** The event carries the whole validated lead: reading it back gives the lead. */
  lemma EventRoundTrip(cfg: RdConfig, lead: Lead)
    requires WellFormed(lead)
    ensures LeadOfEvent(EventFor(cfg, lead)) == Some(lead)
  {
    var p := PayloadMembers(cfg, lead);
    assert StringMember(p, "email") == Some(lead.email);
    assert StringMember(p, "name") == lead.name;
    assert StringMember(p, "personal_phone") == lead.phone;
  }

  // ----- The answer -----

  /** How the outbound call ended: it threw (with the `Error`'s message, or `None` for
      a thrown non-`Error`), or RD Station answered with a status and a body. */
  datatype UpstreamResult = Threw(message: Option<string>) | Answered(status: int, body: Body)

  /** What the outside world answers: the email-shape test, RD Station, and the runtime's
      message for reading a property of `null`. */
  datatype RdOracles = RdOracles(isEmail: string -> bool, upstream: Outbound -> UpstreamResult, nullAccessMessage: string)

  datatype RdResponse =
    | ConfigError(configErrors: WireErrors)
    | MalformedJson
    | InvalidData(fieldErrors: WireErrors)
    | UpstreamRejected(upstreamStatus: int, upstreamError: Json)
    | Sent(eventUuid: Option<Json>)
    | InternalError(error: string)

  const UnknownError: string := "Erro desconhecido"

  function StatusOf(r: RdResponse): (code: int)
    ensures r.UpstreamRejected? ==> code == r.upstreamStatus
    ensures !r.UpstreamRejected? ==> (IsOk(code) <==> r.Sent?)
  {
    match r
    case ConfigError(_) => 500
    case MalformedJson => 400
    case InvalidData(_) => 400
    case UpstreamRejected(status, _) => status
    case Sent(_) => 200
    case InternalError(_) => 500
  }

  /** The JSON body of the route's answer. An absent `event_uuid` is left out, as
      `JSON.stringify` drops `undefined`. */
  function ReplyBody(r: RdResponse): (j: Json)
    ensures j.JObject? && "message" in j.members && j.members["message"].JString?
  {
    match r
    case ConfigError(e) => JObject(map["message" := JString("Erro de configuração do servidor"), "errors" := WireJson(e)])
    case MalformedJson => JObject(map["message" := JString("Corpo da requisição inválido"), "error" := JString("JSON malformado")])
    case InvalidData(e) => JObject(map["message" := JString("Dados inválidos"), "errors" := WireJson(e)])
    case UpstreamRejected(_, err) => JObject(map["message" := JString("Erro ao enviar dados para RD Station"), "error" := err])
    case Sent(uuid) =>
      var base := map["message" := JString("Conversão enviada com sucesso")];
      JObject(if uuid.Some? then base["event_uuid" := uuid.value] else base)
    case InternalError(m) => JObject(map["message" := JString("Erro interno do servidor"), "error" := JString(m)])
  }

  /** Field errors as a JSON object of string arrays. */
  function WireJson(e: WireErrors): (j: Json)
    ensures j.JObject? && j.members.Keys == e.Keys
  {
    JObject(map k | k in e :: JArray(StringsJson(e[k])))
  }

  function StringsJson(ss: seq<string>): (js: seq<Json>)
    ensures |js| == |ss| && forall i | 0 <= i < |ss| :: js[i] == JString(ss[i])
  {
    if ss == [] then [] else [JString(ss[0])] + StringsJson(ss[1..])
  }

  /** What the route makes of RD Station's answer. A body that does not parse throws a
      `SyntaxError`, which the route reports as a malformed request body. */
  function Relay(u: UpstreamResult, nullAccessMessage: string): (r: RdResponse)
    ensures u.Threw? ==> r == InternalError(u.message.GetOr(UnknownError))
    ensures u.Answered? && u.body.Unparseable? ==> r == MalformedJson
    ensures u.Answered? && u.body.Parsed? && !IsOk(u.status) ==> r == UpstreamRejected(u.status, u.body.json)
    ensures u.Answered? && u.body.Parsed? && IsOk(u.status) ==>
      r == if u.body.json.JNull? then InternalError(nullAccessMessage) else Sent(Member(u.body.json, "event_uuid"))
  {
    match u
    case Threw(m) => InternalError(m.GetOr(UnknownError))
    case Answered(status, body) =>
      match body
      case Unparseable => MalformedJson
      case Parsed(j) =>
        if !IsOk(status) then UpstreamRejected(status, j)
        else if j.JNull? then InternalError(nullAccessMessage)
        else Sent(Member(j, "event_uuid"))
  }

  /** `POST /api/rd-station`. */
  function Post(env: RdEnv, body: Body, o: RdOracles): (r: RdResponse)
    ensures ReadEnv(env).Failure? ==> r == ConfigError(ReadEnv(env).error)
    ensures ReadEnv(env).Success? && body.Unparseable? ==> r == MalformedJson
    ensures ReadEnv(env).Success? && body.Parsed? && ParseLead(body.json, o.isEmail).Failure? ==>
      r == InvalidData(ParseLead(body.json, o.isEmail).error)
    ensures ReadEnv(env).Success? && body.Parsed? && ParseLead(body.json, o.isEmail).Success? ==>
      r == Relay(o.upstream(OutboundFor(ReadEnv(env).value, ParseLead(body.json, o.isEmail).value)), o.nullAccessMessage)
  {
    match ReadEnv(env)
    case Failure(e) => ConfigError(e)
    case Success(cfg) =>
      match body
      case Unparseable => MalformedJson
      case Parsed(json) =>
        match ParseLead(json, o.isEmail)
        case Failure(e) => InvalidData(e)
        case Success(lead) => Relay(o.upstream(OutboundFor(cfg, lead)), o.nullAccessMessage)
  }

  /** The configuration is checked first: without a token the answer is 500 whatever
      the body and whatever RD Station would say. */
  lemma ConfigFirst(env: RdEnv, body: Body, o: RdOracles)
    requires !Truthy(env.token)
    ensures Post(env, body, o).ConfigError? && StatusOf(Post(env, body, o)) == 500
    ensures Post(env, body, o) == Post(env, Unparseable, o)
  {
  }

  /** An invalid body is answered 400 without calling RD Station: the answer does not
      depend on the upstream. */
  lemma InvalidNeverForwarded(env: RdEnv, body: Json, o: RdOracles, upstream: Outbound -> UpstreamResult)
    requires Truthy(env.token) && ParseLead(body, o.isEmail).Failure?
    ensures StatusOf(Post(env, Parsed(body), o)) == 400
    ensures Post(env, Parsed(body), o) == Post(env, Parsed(body), o.(upstream := upstream))
  {
  }

  /** A valid body is forwarded once, to the events URL, with the bearer token and an
      event that carries the lead. */
  lemma ValidForwarded(env: RdEnv, body: Json, o: RdOracles)
    requires Truthy(env.token) && ParseLead(body, o.isEmail).Success?
    ensures var out := OutboundFor(ReadEnv(env).value, ParseLead(body, o.isEmail).value);
      && out.url == EventsUrl
      && out.authorization == "Bearer " + env.token.value
      && LeadOfEvent(out.event) == Some(ParseLead(body, o.isEmail).value)
      && Post(env, Parsed(body), o) == Relay(o.upstream(out), o.nullAccessMessage)
  {
    var lead := ParseLead(body, o.isEmail).value;
    ParsedLeadWellFormed(body, o.isEmail);
    EventRoundTrip(ReadEnv(env).value, lead);
  }

  /** RD Station's refusal is passed through with its own status and body. */
  lemma RefusalPassedThrough(status: int, error: Json, nullAccessMessage: string)
    requires !IsOk(status)
    ensures var r := Relay(Answered(status, Parsed(error)), nullAccessMessage);
      StatusOf(r) == status && ReplyBody(r).members["error"] == error
  {
  }

  /** An unreadable answer from RD Station is reported exactly like an unreadable request
      body: 400, "JSON malformado". */
  lemma UnreadableAnswerLooksLikeBadRequest(status: int, env: RdEnv, o: RdOracles)
    requires Truthy(env.token)
    ensures Relay(Answered(status, Unparseable), o.nullAccessMessage) == Post(env, Unparseable, o)
    ensures StatusOf(Post(env, Unparseable, o)) == 400
  {
  }

  /** Success is 200 with RD Station's `event_uuid`, when it sent one. */
  lemma SuccessCarriesUuid(status: int, answer: map<string, Json>, nullAccessMessage: string)
    requires IsOk(status)
    ensures var r := Relay(Answered(status, Parsed(JObject(answer))), nullAccessMessage);
      && StatusOf(r) == 200
      && ("event_uuid" in ReplyBody(r).members <==> "event_uuid" in answer)
      && ("event_uuid" in answer ==> ReplyBody(r).members["event_uuid"] == answer["event_uuid"])
  {
  }
}
