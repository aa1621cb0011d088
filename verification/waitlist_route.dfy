/** The `/api/waitlist` endpoint. POST runs its stages in a fixed order: rate limit,
    server configuration, body, form validation, then the store. The first stage that
    objects decides the response. GET lists entries with defaulted paging. The limiter,
    the email-shape test, store failures and the clock are oracles. */
module WaitlistRoute {
  import opened Wrappers
  import opened Text
  import opened JsonValue
  import opened ZodString
  import opened WaitlistSchema
  import opened RateLimit
  import opened WaitlistStore

  /** The environment the endpoint reads. */
  datatype ServerEnv = ServerEnv(upstash: UpstashEnv, mongoUri: Option<string>, mongoDbName: Option<string>)

  datatype PostRequest = PostRequest(headers: Headers, body: Body)

  /** A value a called service throws: an `Error` with its message, a `SyntaxError`
      (also an `Error`) with its message, or a value that is not an `Error`. */
  datatype ThrownValue = ErrorValue(message: string) | SyntaxErrorValue(message: string) | NonError

  /** A failure of a service outside its own logic, such as a lost connection. */
  datatype Fault = NoFault | Throws(thrown: ThrownValue)

  /** What the outside world answers: the limiter's decision for a client address and
      whether the call to it throws, the email-shape test, a store failure, and the
      clock. */
  datatype PostOracles = PostOracles(limit: string -> LimitDecision, limitFault: Fault, isEmail: string -> bool,
                                     storeFault: Fault, now: nat)

  datatype PostResponse =
    | TooManyRequests(limit: nat, remaining: nat, reset: nat)
    | ConfigError(configErrors: WireErrors)
    | MalformedBody
    | InvalidData(fieldErrors: FieldErrors)
    | AlreadyRegistered(message: string)
    | Registered(id: string)
    | Failed(error: string)

  function StatusCode(r: PostResponse): (code: nat)
    ensures 200 <= code < 300 <==> r.Registered?
  {
    match r
    case TooManyRequests(_, _, _) => 429
    case ConfigError(_) => 500
    case MalformedBody => 400
    case InvalidData(_) => 400
    case AlreadyRegistered(_) => 409
    case Registered(_) => 201
    case Failed(_) => 500
  }

  /** The `X-RateLimit-*` headers, sent with a 429 only: the limiter's numbers in
      decimal. */
  function ResponseHeaders(r: PostResponse): (h: map<string, string>)
    ensures r.TooManyRequests? ==> h.Keys == RateLimitHeaderNames
    ensures !r.TooManyRequests? ==> h == map[]
  {
    if r.TooManyRequests? then
      map["X-RateLimit-Limit" := IntToString(r.limit),
          "X-RateLimit-Remaining" := IntToString(r.remaining),
          "X-RateLimit-Reset" := IntToString(r.reset)]
    else map[]
  }

  const RateLimitHeaderNames: set<string> := {"X-RateLimit-Limit", "X-RateLimit-Remaining", "X-RateLimit-Reset"}

  /** A client reading the headers back with `parseInt` recovers the limiter's numbers. */
  lemma RateLimitHeadersRoundTrip(limit: nat, remaining: nat, reset: nat)
    ensures var h := ResponseHeaders(TooManyRequests(limit, remaining, reset));
      && ParseInt(h["X-RateLimit-Limit"]) == Some(limit)
      && ParseInt(h["X-RateLimit-Remaining"]) == Some(remaining)
      && ParseInt(h["X-RateLimit-Reset"]) == Some(reset)
  {
    HeaderValues(limit, remaining, reset);
    ParseIntRoundTrip(limit);
    ParseIntRoundTrip(remaining);
    ParseIntRoundTrip(reset);
  }

  lemma HeaderValues(limit: nat, remaining: nat, reset: nat)
    ensures var h := ResponseHeaders(TooManyRequests(limit, remaining, reset));
      && h["X-RateLimit-Limit"] == IntToString(limit)
      && h["X-RateLimit-Remaining"] == IntToString(remaining)
      && h["X-RateLimit-Reset"] == IntToString(reset)
  {
    assert "X-RateLimit-Limit"[12] != "X-RateLimit-Remaining"[12];
    assert "X-RateLimit-Limit"[12] != "X-RateLimit-Reset"[12];
    assert "X-RateLimit-Remaining"[14] != "X-RateLimit-Reset"[14];
  }

  // ----- Field errors on the wire -----

  /** The field a JSON key names, if any. */
  function FieldOfKey(k: string): (r: Option<Field>)
    ensures r.Some? ==> Key(r.value) == k
    ensures r.None? ==> forall f :: Key(f) != k
  {
    if k == "name" then Some(Name)
    else if k == "email" then Some(Email)
    else if k == "company" then Some(Company)
    else if k == "position" then Some(Position)
    else None
  }

  /** The texts of a list of messages. */
  function Texts(ms: seq<Message>): (ts: seq<string>)
    ensures |ts| == |ms|
    ensures forall i | 0 <= i < |ms| :: ts[i] == MessageText(ms[i])
  {
    if |ms| == 0 then [] else [MessageText(ms[0])] + Texts(ms[1..])
  }

  const FieldKeys: set<string> := {"name", "email", "company", "position"}

  /** `flatten().fieldErrors` serialised: each failing field's key with its message texts. */
  function ToWire(errors: FieldErrors): (w: WireErrors)
    ensures forall f :: Key(f) in w <==> f in errors
    ensures forall f | f in errors :: w[Key(f)] == Texts(errors[f])
    ensures forall k | k in w :: FieldOfKey(k).Some?
  {
    var w := map k | k in FieldKeys && FieldOfKey(k).Some? && FieldOfKey(k).value in errors :: Texts(errors[FieldOfKey(k).value]);
    assert forall f :: FieldOfKey(Key(f)) == Some(f);
    w
  }

  // ----- POST -----

  const UriKey: string := "MONGODB_URI"
  const UriEmptyMessage: string := "MONGODB_URI não pode estar vazio"
  /** Zod's default message for a missing value. */
  const RequiredMessage: string := "Required"

  const UriSchema: StringSchema<string> := StringSchema(RequiredMessage, [MinLength(1, UriEmptyMessage)])

  /** The one check on `MONGODB_URI` reports emptiness and keeps the value. */
  lemma UriChecks(uri: Option<string>)
    ensures uri.Some? ==> RunChecks(UriSchema.checks, uri.value, NoEmailCheck)
                          == Checked(if |uri.value| < 1 then [UriEmptyMessage] else [], uri.value)
  {
    if uri.Some? {
      RunChecksStep(UriSchema.checks, uri.value, NoEmailCheck);
    }
  }

  /** The server configuration schema: `MONGODB_URI` must be a non-empty string;
      `MONGODB_DB_NAME` is an optional string, which an environment value always is. */
  function EnvErrors(env: ServerEnv): (errors: WireErrors)
    ensures |errors| == 0 <==> Truthy(env.mongoUri)
    ensures env.mongoUri.None? ==> errors == map[UriKey := [RequiredMessage]]
    ensures env.mongoUri == Some("") ==> errors == map[UriKey := [UriEmptyMessage]]
  {
    UriChecks(env.mongoUri);
    match ParseString(UriSchema, EnvValue(env.mongoUri), NoEmailCheck)
    case FieldOk(_) => map[]
    case FieldErr(ms) => map[UriKey := ms]
  }

  /** `header || undefined`. */
  function OrUndefined(v: Option<string>): (r: Option<string>)
    ensures r.Some? <==> Truthy(v)
    ensures r.Some? ==> r == v
  {
    if Truthy(v) then v else None
  }

  /** The entry handed to the store: the validated fields and the request metadata. */
  function EntryFor(form: WaitlistForm, h: Headers): (data: NewEntry)
    ensures data.name == form.name && data.email == form.email
    ensures data.company == form.company && data.position == form.position
    ensures data.metadata.Some? && data.metadata.value.ip == Some(GetClientIp(h))
  {
    NewEntry(form.name, form.email, form.company, form.position,
             Some(Metadata(Some(GetClientIp(h)), OrUndefined(Header(h, "user-agent")),
                           OrUndefined(Header(h, "referer")), OrUndefined(Header(h, "accept-language")))))
  }

  datatype PostOutcome = PostOutcome(response: PostResponse, collection: Collection)

  const UnknownError: string := "Erro desconhecido"

  /** `error instanceof Error ? error.message : "Erro desconhecido"`. */
  function ErrorMessage(t: ThrownValue): (m: string)
    ensures !t.NonError? ==> m == t.message
    ensures t.NonError? ==> m == UnknownError
  {
    if t.NonError? then UnknownError else t.message
  }

  /** The outer `catch` of POST: a `SyntaxError` gives 400, anything else 500 with the
      thrown message. */
  function OuterCatch(t: ThrownValue, c: Collection): (o: PostOutcome)
    ensures o.collection == c
    ensures o.response.MalformedBody? <==> t.SyntaxErrorValue?
    ensures !t.SyntaxErrorValue? ==> o.response == Failed(ErrorMessage(t))
  {
    if t.SyntaxErrorValue? then PostOutcome(MalformedBody, c) else PostOutcome(Failed(ErrorMessage(t)), c)
  }

  /** A value thrown by `createEntry`: an `Error` whose message carries the duplicate
      fragment gives 409; anything else is thrown on to the outer `catch`. */
  function Thrown(t: ThrownValue, c: Collection): (o: PostOutcome)
    ensures o.collection == c
    ensures o.response.AlreadyRegistered? <==> !t.NonError? && Contains(t.message, DuplicateFragment)
    ensures o.response.AlreadyRegistered? ==> o.response.message == t.message
    ensures !o.response.AlreadyRegistered? ==> o == OuterCatch(t, c)
  {
    if !t.NonError? && Contains(t.message, DuplicateFragment) then PostOutcome(AlreadyRegistered(t.message), c)
    else OuterCatch(t, c)
  }

  /** Step 5: `createEntry`, unless the store fails first. */
  function StoreStage(c: Collection, data: NewEntry, fault: Fault, now: nat): (o: PostOutcome)
    ensures o.response.Registered? <==> fault.NoFault? && CreateEntry(c, data, now).Success?
    ensures o.response.Registered? ==>
      && o.collection == CreateEntry(c, data, now).value.collection
      && o.response.id == IntToString(CreateEntry(c, data, now).value.id)
    ensures !o.response.Registered? ==> o.collection == c
    ensures fault.NoFault? && CreateEntry(c, data, now).Failure? ==> o.response == AlreadyRegistered(DuplicateEmailMessage)
  {
    match fault
    case Throws(m) => Thrown(m, c)
    case NoFault =>
      match CreateEntry(c, data, now)
      case Success(created) =>
        PostOutcome(Registered(IntToString(created.id)), created.collection)
      case Failure(m) =>
        DuplicateMessageHasFragment();
        Thrown(ErrorValue(m), c)
  }

  /** Steps 3 to 5 on a body that parsed: validation, then the store. */
  function ValidateAndStore(c: Collection, h: Headers, json: Json, o: PostOracles): (out: PostOutcome)
    ensures Parse(json, o.isEmail).Failure? ==> out == PostOutcome(InvalidData(Parse(json, o.isEmail).error), c)
    ensures Parse(json, o.isEmail).Success? ==> out == StoreStage(c, EntryFor(Parse(json, o.isEmail).value, h), o.storeFault, o.now)
  {
    match Parse(json, o.isEmail)
    case Failure(errors) => PostOutcome(InvalidData(errors), c)
    case Success(form) => StoreStage(c, EntryFor(form, h), o.storeFault, o.now)
  }

  /** Steps 2 to 5, once the rate limit let the request through. */
  function AfterRateLimit(env: ServerEnv, req: PostRequest, c: Collection, o: PostOracles): (out: PostOutcome)
    ensures out.collection != c ==> out.response.Registered?
    ensures !Truthy(env.mongoUri) ==> out == PostOutcome(ConfigError(EnvErrors(env)), c)
    ensures Truthy(env.mongoUri) && req.body.Unparseable? ==> out == PostOutcome(MalformedBody, c)
    ensures Truthy(env.mongoUri) && req.body.Parsed? ==> out == ValidateAndStore(c, req.headers, req.body.json, o)
  {
    var envErrors := EnvErrors(env);
    if |envErrors| > 0 then PostOutcome(ConfigError(envErrors), c)
    else
      match req.body
      case Unparseable => PostOutcome(MalformedBody, c)
      case Parsed(json) => ValidateAndStore(c, req.headers, json, o)
  }

  /** The limiter is consulted only when it is configured. */
  predicate LimiterThrows(env: ServerEnv, o: PostOracles) {
    Limiter(env.upstash).Some? && o.limitFault.Throws?
  }

  /** The limiter, when configured, is asked about the client address and answers
      without throwing; it refuses the request. */
  function Denied(env: ServerEnv, req: PostRequest, o: PostOracles): (d: bool)
    ensures d ==> IsRateLimitConfigured(env.upstash) && Limiter(env.upstash) == Some(WaitlistWindow)
    ensures d ==> o.limitFault.NoFault? && !o.limit(GetClientIp(req.headers)).success
    ensures IsRateLimitConfigured(env.upstash) && o.limitFault.NoFault? && !o.limit(GetClientIp(req.headers)).success ==> d
  {
    Limiter(env.upstash).Some? && o.limitFault.NoFault? && !o.limit(GetClientIp(req.headers)).success
  }

  /** The limiter lets the request through: it is off, or it answers and admits it. */
  predicate Admitted(env: ServerEnv, req: PostRequest, o: PostOracles) {
    !LimiterThrows(env, o) && !Denied(env, req, o)
  }

  /** `POST /api/waitlist`: the response and the collection afterwards. */
  function Post(env: ServerEnv, req: PostRequest, c: Collection, o: PostOracles): (out: PostOutcome)
    ensures out.collection != c ==> out.response.Registered?
    ensures LimiterThrows(env, o) ==> out == OuterCatch(o.limitFault.thrown, c)
    ensures Denied(env, req, o) ==>
      var d := o.limit(GetClientIp(req.headers));
      out == PostOutcome(TooManyRequests(d.limit, d.remaining, d.reset), c)
    ensures Admitted(env, req, o) ==> out == AfterRateLimit(env, req, c, o)
  {
    if LimiterThrows(env, o) then OuterCatch(o.limitFault.thrown, c)
    else if Denied(env, req, o) then
      var d := o.limit(GetClientIp(req.headers));
      PostOutcome(TooManyRequests(d.limit, d.remaining, d.reset), c)
    else AfterRateLimit(env, req, c, o)
  }

  /** A configured limiter that throws ends the request in the outer `catch`: 500 with
      the thrown message, or 400 for a `SyntaxError`, before the configuration or the
      body is looked at. Without a limiter its failures cannot matter. */
  lemma LimiterFailure(env: ServerEnv, req: PostRequest, body: Body, c: Collection, o: PostOracles)
    requires IsRateLimitConfigured(env.upstash) && o.limitFault.Throws?
    ensures var out := Post(env, req, c, o);
      && out.collection == c
      && out == Post(env, req.(body := body), c, o)
      && (o.limitFault.thrown.SyntaxErrorValue? ==> StatusCode(out.response) == 400)
      && (!o.limitFault.thrown.SyntaxErrorValue? ==> out.response == Failed(ErrorMessage(o.limitFault.thrown)) && StatusCode(out.response) == 500)
  {
  }

  /** Rate limiting comes first: a denied request gets 429 whatever its configuration or
      body, and nothing is stored. Without a limiter no request is denied. */
  lemma RateLimitFirst(env: ServerEnv, req: PostRequest, req': PostRequest, c: Collection, o: PostOracles)
    requires Denied(env, req, o)
    requires GetClientIp(req'.headers) == GetClientIp(req.headers)
    ensures StatusCode(Post(env, req, c, o).response) == 429
    ensures Post(env, req', c, o) == Post(env, req, c, o)
    ensures IsRateLimitConfigured(env.upstash)
  {
  }

  /** A missing or empty `MONGODB_URI` gives 500 before the body is read. */
  lemma ConfigBeforeBody(env: ServerEnv, req: PostRequest, body: Body, c: Collection, o: PostOracles)
    requires Admitted(env, req, o) && !Truthy(env.mongoUri)
    ensures var out := Post(env, req, c, o);
      && StatusCode(out.response) == 500
      && out == Post(env, req.(body := body), c, o)
      && out.response.configErrors[UriKey] == [if env.mongoUri.None? then RequiredMessage else UriEmptyMessage]
  {
  }

  /** With the limiter passed and the configuration present, an unreadable body gives 400. */
  lemma MalformedIs400(env: ServerEnv, req: PostRequest, c: Collection, o: PostOracles)
    requires Admitted(env, req, o) && Truthy(env.mongoUri) && req.body.Unparseable?
    ensures Post(env, req, c, o) == PostOutcome(MalformedBody, c)
  {
  }

  /** A body that fails validation gives 400 with exactly the schema's field errors, the
      failing fields and no others, and the store is not touched. */
  lemma InvalidIs400(env: ServerEnv, req: PostRequest, c: Collection, o: PostOracles)
    requires Admitted(env, req, o) && Truthy(env.mongoUri)
    requires req.body.Parsed? && Parse(req.body.json, o.isEmail).Failure?
    ensures var out := Post(env, req, c, o);
      && out == PostOutcome(InvalidData(Parse(req.body.json, o.isEmail).error), c)
      && (req.body.json.JObject? ==> forall f :: Key(f) in ToWire(out.response.fieldErrors) <==> FieldOutcome(req.body.json, f, o.isEmail).FieldErr?)
  {
  }

  /** A valid body reaches the store with the normalised fields. It gives 201 with the new
      id, 409 for an email the unique index already holds, and 500 for a store failure
      whose message lacks the duplicate fragment. */
  lemma ValidReachesStore(env: ServerEnv, req: PostRequest, c: Collection, o: PostOracles)
    requires Admitted(env, req, o) && Truthy(env.mongoUri)
    requires req.body.Parsed? && Parse(req.body.json, o.isEmail).Success?
    ensures var form := Parse(req.body.json, o.isEmail).value;
      var out := Post(env, req, c, o);
      && out == StoreStage(c, EntryFor(form, req.headers), o.storeFault, o.now)
      && (o.storeFault.NoFault? && c.uniqueEmailIndex && HasEmail(c.docs, ToLower(form.email)) ==> StatusCode(out.response) == 409)
      && (o.storeFault.NoFault? && !(c.uniqueEmailIndex && HasEmail(c.docs, ToLower(form.email))) ==> StatusCode(out.response) == 201)
  {
    var form := Parse(req.body.json, o.isEmail).value;
    if o.storeFault.NoFault? {
      StoreStatus(c, EntryFor(form, req.headers), o.now);
    }
  }

  /** The store stage's status without a failure: 201 when the entry is created, 409
      when the unique index already holds the email. */
  lemma StoreStatus(c: Collection, data: NewEntry, now: nat)
    ensures var out := StoreStage(c, data, NoFault, now);
      && (c.uniqueEmailIndex && HasEmail(c.docs, ToLower(data.email)) ==> StatusCode(out.response) == 409)
      && (!(c.uniqueEmailIndex && HasEmail(c.docs, ToLower(data.email))) ==> StatusCode(out.response) == 201)
  {
  }

  /** The id in a 201 response is the new entry's id in decimal: `parseInt` reads back
      the counter value the store handed out. */
  lemma RegisteredIdReadsBack(c: Collection, data: NewEntry, fault: Fault, now: nat)
    requires StoreStage(c, data, fault, now).response.Registered?
    ensures ParseInt(StoreStage(c, data, fault, now).response.id) == Some(c.nextId)
  {
    ParseIntRoundTrip(c.nextId);
  }

  /** A store failure gives 409 when it is an `Error` whose message carries the
      duplicate fragment; otherwise 400 for a `SyntaxError` and 500 for anything else.
      The collection is untouched either way. */
  lemma FaultStatus(c: Collection, data: NewEntry, t: ThrownValue, now: nat)
    ensures var out := StoreStage(c, data, Throws(t), now);
      && out.collection == c
      && (!t.NonError? && Contains(t.message, DuplicateFragment) ==> StatusCode(out.response) == 409)
      && (!(!t.NonError? && Contains(t.message, DuplicateFragment)) ==>
            StatusCode(out.response) == (if t.SyntaxErrorValue? then 400 else 500))
  {
    assert StoreStage(c, data, Throws(t), now) == Thrown(t, c);
  }

  /** The same person signing up twice: 201, then 409 with the store unchanged. */
  lemma SignUpTwice(env: ServerEnv, req: PostRequest, c: Collection, o: PostOracles, o': PostOracles)
    requires c.uniqueEmailIndex && Valid(c)
    requires Admitted(env, req, o) && Admitted(env, req, o') && Truthy(env.mongoUri)
    requires o.storeFault.NoFault? && o'.storeFault.NoFault? && o'.isEmail == o.isEmail
    requires req.body.Parsed? && Parse(req.body.json, o.isEmail).Success?
    requires !HasEmail(c.docs, ToLower(Parse(req.body.json, o.isEmail).value.email))
    ensures var first := Post(env, req, c, o);
      var second := Post(env, req, first.collection, o');
      && StatusCode(first.response) == 201
      && StatusCode(second.response) == 409
      && second.collection == first.collection
  {
    var form := Parse(req.body.json, o.isEmail).value;
    var data := EntryFor(form, req.headers);
    ValidReachesStore(env, req, c, o);
    var first := Post(env, req, c, o);
    SecondCreateRejected(c, data, data, o.now, o'.now);
    ValidReachesStore(env, req, first.collection, o');
  }

  // ----- GET -----

  /** The query string: parameter name to value. */
  type SearchParams = map<string, string>

  /** `searchParams.get(key) || fallback`. */
  function ParamOr(params: SearchParams, key: string, fallback: string): (v: string)
    ensures key in params && |params[key]| > 0 ==> v == params[key]
    ensures !(key in params && |params[key]| > 0) ==> v == fallback
  {
    if key in params && |params[key]| > 0 then params[key] else fallback
  }

  /** The listing options GET derives from the query: `page` and `limit` through
      `parseInt` with defaults "1" and "50", and `status` passed on unchecked. */
  function GetQuery(params: SearchParams): (q: ListQuery)
    ensures !("page" in params && |params["page"]| > 0) ==> q.page == Some(1)
    ensures "page" in params && |params["page"]| > 0 ==> q.page == ParseInt(params["page"])
    ensures !("limit" in params && |params["limit"]| > 0) ==> q.limit == Some(50)
    ensures "limit" in params && |params["limit"]| > 0 ==> q.limit == ParseInt(params["limit"])
    ensures "status" in params && |params["status"]| > 0 ==> q.status == Some(params["status"])
    ensures !("status" in params && |params["status"]| > 0) ==> q.status.None?
  {
    ParseIntRoundTrip(1);
    ParseIntRoundTrip(50);
    ListQuery(ParseInt(ParamOr(params, "page", IntToString(1))),
              ParseInt(ParamOr(params, "limit", IntToString(50))),
              OrUndefined(Header(params, "status")))
  }

  datatype GetResponse = Listed(listing: ListPage) | ListFailed(error: string)

  function GetStatusCode(r: GetResponse): nat {
    if r.Listed? then 200 else 500
  }

  /** `GET /api/waitlist`, given whether the store fails outside `listEntries`'s own
      logic. A failure of either kind ends in the `catch`: 500 with the thrown message. */
  function Get(params: SearchParams, c: Collection, fault: Fault): (r: GetResponse)
    ensures r.Listed? <==> fault.NoFault? && ListEntries(c, GetQuery(params)).Success?
    ensures r.Listed? ==> r.listing == ListEntries(c, GetQuery(params)).value
    ensures fault.Throws? ==> r == ListFailed(ErrorMessage(fault.thrown))
    ensures fault.NoFault? && ListEntries(c, GetQuery(params)).Failure? ==> r == ListFailed(ListEntries(c, GetQuery(params)).error)
  {
    match fault
    case Throws(t) => ListFailed(ErrorMessage(t))
    case NoFault =>
      match ListEntries(c, GetQuery(params))
      case Success(listing) => Listed(listing)
      case Failure(e) => ListFailed(e)
  }

  /** With no parameters, GET lists the first page of 50, newest first, over all entries. */
  lemma GetDefaults(c: Collection)
    ensures var r := Get(map[], c, NoFault);
      && r.Listed?
      && r.listing.page == 1
      && |r.listing.entries| <= 50
      && r.listing.total == |c.docs|
  {
  }

  /** The status parameter is not checked: an unknown status matches nothing and is not
      an error. */
  lemma GetUnknownStatus(c: Collection, status: string)
    requires |status| > 0 && forall s: Status :: StatusName(s) != status
    ensures var r := Get(map["status" := status], c, NoFault);
      r.Listed? && r.listing.total == 0 && |r.listing.entries| == 0
  {
    var params := map["status" := status];
    assert "page"[0] != "status"[0] && "limit"[0] != "status"[0];
    OnlyStatusGiven(params, c, status);
  }

  /** A query giving only a status that no document has lists nothing. */
  lemma OnlyStatusGiven(params: SearchParams, c: Collection, status: string)
    requires "page" !in params && "limit" !in params
    requires "status" in params && params["status"] == status && |status| > 0
    requires forall s: Status :: StatusName(s) != status
    ensures Get(params, c, NoFault).Listed?
    ensures Get(params, c, NoFault).listing.total == 0 && |Get(params, c, NoFault).listing.entries| == 0
  {
    var q := GetQuery(params);
    assert q.page == Some(1) && q.limit == Some(50) && q.status == Some(status);
    NoDocumentHasUnknownStatus(c.docs, status);
    EmptyListing(c, q);
  }

  /** A first page over no matching documents is an empty listing. */
  lemma EmptyListing(c: Collection, q: ListQuery)
    requires q.page == Some(1) && q.limit == Some(50) && |Filter(c.docs, q.status)| == 0
    ensures ListEntries(c, q).Success?
    ensures ListEntries(c, q).value.total == 0 && |ListEntries(c, q).value.entries| == 0
  {
    assert EffectivePage(q) == 1 && EffectiveLimit(q) == 50;
  }

  lemma NoDocumentHasUnknownStatus(docs: seq<WaitlistDocument>, status: string)
    requires forall s: Status :: StatusName(s) != status
    ensures |WithStatus(docs, status)| == 0
  {
  }

  /** A page before the first makes the skip negative, which the database refuses: 500. */
  lemma GetNegativePage(c: Collection)
    ensures GetStatusCode(Get(map["page" := "-1"], c, NoFault)) == 500
  {
    var params := map["page" := "-1"];
    assert "limit"[0] != "page"[0];
    MinusOneParses();
    PageMinusOneGiven(params, c);
  }

  /** A query whose page parses to -1 and that gives no limit fails. */
  lemma PageMinusOneGiven(params: SearchParams, c: Collection)
    requires "page" in params && |params["page"]| > 0 && ParseInt(params["page"]) == Some(-1)
    requires "limit" !in params
    ensures GetStatusCode(Get(params, c, NoFault)) == 500
  {
    var q := GetQuery(params);
    assert q.page == Some(-1) && q.limit == Some(50);
    NegativeSkipFails(c, q);
  }

  lemma MinusOneParses()
    ensures ParseInt("-1") == Some(-1)
  {
    assert TrimStart("-1") == "-1";
    assert SignlessPart("-1") == "1";
    assert LeadingDigits("1") == "1";
    assert DigitsValue("1") == 1;
  }

  lemma NegativeSkipFails(c: Collection, q: ListQuery)
    requires q.page == Some(-1) && q.limit == Some(50)
    ensures ListEntries(c, q).Failure?
  {
    assert EffectivePage(q) == -1;
  }

  // ----- The body the client reads -----

  /** The parts of a JSON response the modal looks at. */
  datatype Reply = Reply(status: int, message: Option<string>, errors: Option<WireErrors>)

  /** The JSON body of each POST response, as the modal sees it. */
  function ReplyOf(r: PostResponse): (reply: Reply)
    ensures reply.status == StatusCode(r)
    ensures reply.message.Some?
    ensures !r.AlreadyRegistered? ==> |reply.message.value| > 0
    ensures r.InvalidData? ==> reply.errors == Some(ToWire(r.fieldErrors))
  {
    match r
    case TooManyRequests(_, _, _) => Reply(429, Some("Muitas requisições. Por favor, tente novamente mais tarde."), None)
    case ConfigError(e) => Reply(500, Some("Erro de configuração do servidor"), Some(e))
    case MalformedBody => Reply(400, Some("Corpo da requisição inválido"), None)
    case InvalidData(e) => Reply(400, Some("Dados inválidos"), Some(ToWire(e)))
    case AlreadyRegistered(m) => Reply(409, Some(m), Some(map["email" := [DuplicateEmailMessage]]))
    case Registered(_) => Reply(201, Some("Inscrição realizada com sucesso!"), None)
    case Failed(_) => Reply(500, Some("Erro ao processar sua inscrição. Tente novamente."), None)
  }
}
