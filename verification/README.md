# zenith-waitlist signup pipeline, in Dafny

This project models the signup pipeline of the Zenith waitlist site. Every outside service is replaced by an oracle:

- **Form validation.** The shared form schema checks name, email, company and position, then trims the values and lower-cases the email.
- **Client address.** The rate limiter keys on an address extracted from request headers.
- **Waitlist store.** The MongoDB service is modelled as an in-memory collection with a unique-email index flag.
- **`/api/waitlist` route.** The POST decision logic: rate limit, configuration, body, schema, store. Also the GET listing defaults.
- **Signup modal.** The form controller as a state machine over form data, submitting and submitted flags, field errors, submit error and touched fields.
- **`/api/rd-station` route.** Configuration and body validation, the conversion event it builds, and how it relays RD Station's answer.
- **CORS middleware.** The headers it adds in front of `/api/`.

The modules follow the source files:

| module | file | models |
|---|---|---|
| `Wrappers` | wrappers.dfy | `Option` and `Result` |
| `Text` | text.dfy | JavaScript `trim`, `toLowerCase`, `includes`, `split(",")[0]`, `Number.parseInt(s, 10)`, integer `toString()`, truthiness |
| `JsonValue` | json_value.dfy | parsed JSON bodies, `response.ok` |
| `ZodString` | zod_string.dfy | Zod string schemas: type check, then checks and transforms in declared order |
| `WaitlistSchema` | waitlist_schema.dfy | `waitlistFormSchema` |
| `RateLimit` | rate_limit.dfy | `getClientIp`, `isRateLimitConfigured`, the limiter's existence |
| `WaitlistStore` | store.dfy | `MongoDBWaitlistService` |
| `WaitlistRoute` | waitlist_route.dfy | `POST` and `GET` of `/api/waitlist` |
| `WaitlistModal` | modal.dfy | the signup modal's handlers |
| `RdStationRoute` | rd_station.dfy | `POST` of `/api/rd-station` |
| `Cors` | middleware.dfy | `middleware` |

The email-shape test of Zod's `.email()` is a parameter `isEmail: string -> bool`. The rate limiter's decision, failures of the limiter and of the store, the clock, RD Station's answer and the modal's translated generic error text are parameters too.

**Length checks see the untrimmed value.** The schema declares the length checks before `.trim()`, and Zod runs them in that order, so the bounds apply to the raw string. The modal sends the validated, trimmed data, and the server validates it again. So a value can pass in the browser and fail on the server. `WaitlistSchema.ClientServerDivergence` shows this for the name `" a "`: the client accepts it, it is sent as `"a"`, and the server rejects it as too short.

## Model

| member | source | states |
|---|---|---|
| `WaitlistSchema.Parse` | src/lib/validations/waitlist.ts:7-30 | A non-object input fails with no field errors. An object succeeds iff every field's outcome succeeds. On success each output field is that field's value. On failure exactly the failing fields carry their messages. |
| `WaitlistSchema.FieldRule` | src/lib/validations/waitlist.ts:8-29 | A field succeeds iff it is a string meeting its raw-length and shape rules. Its value is then the raw string normalised. Otherwise its messages are the type message for a missing or non-string value, or the failing checks' messages in declared order. |
| `WaitlistSchema.ChecksOutcome` | src/lib/validations/waitlist.ts:8-29 | Running a field's declared checks gives the expected messages for the raw string and the normalised value: length checks see the untrimmed string. |
| `WaitlistSchema.EmailChecks` | src/lib/validations/waitlist.ts:13-19 | The email checks report shape, emptiness and length over 255 on the raw string, and yield the trimmed, lower-cased value. |
| `WaitlistSchema.ExpectedMessagesEmptyIff` | src/lib/validations/waitlist.ts:10-28 | No messages iff the raw value is accepted: name length 2..100, email-shaped with length 1..255, company and position length 1..100. |
| `WaitlistSchema.ParseIff` | src/lib/validations/waitlist.ts:7-30 | An object parses iff all four members are strings accepted by their rules. |
| `WaitlistSchema.AcceptedIsNormalised` | src/lib/validations/waitlist.ts:12-29 | A successful parse yields each raw value normalised: every field trimmed, the email also lower-cased. |
| `WaitlistSchema.NormaliseIsNormal` | src/lib/validations/waitlist.ts:12-19 | A normalised value is trimmed, and a normalised email is lower-case. |
| `WaitlistSchema.NormalisedValues` | src/lib/validations/waitlist.ts:12-29 | Trimming or lower-casing a parse result again changes nothing. |
| `WaitlistSchema.NormalisedIsFixed` | src/lib/validations/waitlist.ts:12-29 | Normalising an already normalised form is the identity. |
| `WaitlistSchema.RejectedReportsFailingFields` | src/lib/validations/waitlist.ts:7-30 | A failed parse of an object reports an error for every failing field and for no passing field, with that field's expected messages. |
| `WaitlistSchema.ToJson` | src/components/waitlist-modal.tsx:85 | The serialised form carries every field as a string member under its key. |
| `WaitlistSchema.ReparseIff` | src/app/api/waitlist/route.ts:80 | A normalised form sent to the server parses iff its values meet the rules, and then parses to itself. |
| `WaitlistSchema.SentAccepted` | src/app/api/waitlist/route.ts:80 | A form whose raw values pass is accepted and yields its values normalised. |
| `WaitlistSchema.SentRejected` | src/app/api/waitlist/route.ts:80-91 | A rejected form's errors name exactly the fields whose raw values fail. |
| `WaitlistSchema.ClientServerDivergence` | src/lib/validations/waitlist.ts:10-12 | The name `" a "` passes validation in the browser, is sent as `"a"`, and the server rejects it with "Nome deve ter no mínimo 2 caracteres". |
| `WaitlistSchema.ClientAcceptsPaddedName` | src/components/waitlist-modal.tsx:68-86 | The browser accepts the padded name and sends the trimmed form. |
| `WaitlistSchema.ServerRejectsShortName` | src/app/api/waitlist/route.ts:80-91 | The server rejects the trimmed one-letter name with only the too-short error. |
| `Text.Trim` | src/lib/validations/waitlist.ts:12 | The result has no whitespace at either end. |
| `Text.TrimStrips` | src/lib/rate-limit.ts:50 | Trimming removes only whitespace, from the ends, keeping the middle. |
| `Text.TrimIdempotent` | src/lib/validations/waitlist.ts:12 | Trimming twice is trimming once. |
| `Text.TrimOfTrimmed` | src/lib/validations/waitlist.ts:24 | A trimmed string is left as is. |
| `Text.ToLowerIdempotent` | src/lib/mongodb-service.ts:82 | Lower-casing yields a lower-case string, and lower-casing twice is lower-casing once. |
| `Text.ToLowerKeepsTrimmed` | src/lib/validations/waitlist.ts:18-19 | Lower-casing a trimmed string keeps it trimmed. |
| `Text.ContainsMiddle` | src/app/api/waitlist/route.ts:130-133 | A string contains every infix. |
| `Text.BeforeFirst` | src/lib/rate-limit.ts:50 | The result is a prefix without the separator, ending where the first separator is. |
| `Text.ParseInt` | src/app/api/waitlist/route.ts:185-186 | `parseInt` gives NaN iff no digits follow the leading whitespace and optional sign. Otherwise the value is the leading digit run's value, negated after a `-`. |
| `Text.ParseIntRoundTrip` | src/app/api/waitlist/route.ts:122 | Parsing an integer's decimal text gives the integer back. |
| `Text.NatToStringValue` | src/app/api/waitlist/route.ts:122 | A natural number's decimal digits denote that number. |
| `ZodString.ValidatorsFirst` | src/lib/validations/waitlist.ts:13-19 | Checks that only validate never change the value, so validators followed by other checks report the validators' issues first, judged on the raw string, then the rest's. |
| `ZodString.ParseString` | src/lib/validations/waitlist.ts:9 | A missing or non-string value fails with only the type message. A string succeeds iff no check reports an issue, with the value the checks leave. |
| `ZodString.ParseOptionalString` | src/app/api/rd-station/route.ts:13-20 | An absent value is accepted as absent. A present one is parsed as a required string. |
| `RateLimit.GetClientIp` | src/lib/rate-limit.ts:46-61 | A non-empty `x-forwarded-for` gives its first comma segment trimmed, without commas. Otherwise a non-empty `x-real-ip` gives itself trimmed. Otherwise the result is "unknown". Any address is trimmed. |
| `RateLimit.ForwardedForRule` | src/lib/rate-limit.ts:48-50 | With a non-empty `x-forwarded-for`, the address is the trimmed text before its first comma. |
| `RateLimit.ForwardedForWins` | src/lib/rate-limit.ts:48-57 | With a non-empty `x-forwarded-for`, `x-real-ip` does not affect the address. |
| `RateLimit.BlankFirstSegment` | src/lib/rate-limit.ts:49-50 | A whitespace-only first segment gives the empty address, not a fallback. |
| `RateLimit.FirstSegmentUnique` | src/lib/rate-limit.ts:50 | A string has one first comma segment. |
| `RateLimit.TrimKeepsAbsent` | src/lib/rate-limit.ts:50 | Trimming cannot introduce a comma. |
| `RateLimit.IsRateLimitConfigured` | src/lib/rate-limit.ts:10-40 | Rate limiting is on iff both Upstash settings are set and non-empty; an empty setting turns it off. |
| `RateLimit.Limiter` | src/lib/rate-limit.ts:10-33 | A limiter exists iff both Upstash settings are non-empty. It is configured as a 3-per-60-second sliding window; whether it admits a request is an oracle. |
| `WaitlistStore.CreateEntry` | src/lib/mongodb-service.ts:79-107 | With the index, a create fails iff the lower-cased email is stored, with the duplicate message. Otherwise it appends one document with a fresh id, keeps every existing document, and stores the lower-cased email, the other fields as given, status pending, source website, the three tags, and createdAt = updatedAt = now. |
| `WaitlistStore.CreatedIdIsFresh` | src/lib/mongodb-service.ts:94-95 | A created id differs from every stored id. |
| `WaitlistStore.CreatePreservesValid` | src/lib/mongodb-service.ts:42 | Creating keeps ids distinct, emails lower-case, and emails distinct under the index. |
| `WaitlistStore.SecondCreateRejected` | src/lib/mongodb-service.ts:98-104 | With the index, a second create for the same email, in any case, is refused. |
| `WaitlistStore.DuplicateMessageHasFragment` | src/lib/mongodb-service.ts:104 | The duplicate message contains the fragment "já está cadastrado" that the route looks for. |
| `WaitlistStore.FindByEmail` | src/lib/mongodb-service.ts:113-121 | The lookup finds nothing iff no document has the lower-cased email. Otherwise it returns a stored document with that email. |
| `WaitlistStore.EmailExists` | src/lib/mongodb-service.ts:248-251 | True iff some document has the lower-cased email. |
| `WaitlistStore.FindIgnoresCase` | src/lib/mongodb-service.ts:120 | Queries that lower-case alike find the same document. |
| `WaitlistStore.CreateThenFind` | src/lib/mongodb-service.ts:79-121 | After a create, finding by the given email returns the new document. |
| `WaitlistStore.UpdateStatus` | src/lib/mongodb-service.ts:126-147 | Only the document with the id changes, in status and updatedAt only. The result is true iff some document changed. |
| `WaitlistStore.UpdatePreservesValid` | src/lib/mongodb-service.ts:136-144 | Updating a status keeps the collection invariant. |
| `WaitlistStore.UpdateReportsChange` | src/lib/mongodb-service.ts:146 | The result is true iff a document has the id and its status or updatedAt differs from the new ones. |
| `WaitlistStore.DeleteEntry` | src/lib/mongodb-service.ts:241-243 | Deleting is the status update to declined: no document is removed, ids and emails stay, and only a document with the id can change, to declined. |
| `WaitlistStore.DeleteIsSoft` | src/lib/mongodb-service.ts:241-243 | Deleting removes no document: the count and every email stay, and a matching document becomes declined. |
| `WaitlistStore.EffectivePage` | src/lib/mongodb-service.ts:168 | An absent, NaN or zero page becomes 1; any other page is kept. The result is never 0. |
| `WaitlistStore.EffectiveLimit` | src/lib/mongodb-service.ts:169 | An absent, NaN or zero limit becomes 50; any other limit is kept. The result is never 0. |
| `WaitlistStore.Filter` | src/lib/mongodb-service.ts:172 | An absent or empty status keeps every document; otherwise only documents with that status name. |
| `WaitlistStore.WithStatus` | src/lib/mongodb-service.ts:172 | Every kept document has the status, and every document with it is kept. |
| `WaitlistStore.WithStatusInOrder` | src/lib/mongodb-service.ts:172 | The filter's result is the stored documents with some dropped and the rest in their stored order. |
| `WaitlistStore.WithStatusCounts` | src/lib/mongodb-service.ts:172 | Each document with the status is kept exactly as many times as the collection holds it; no other document is kept. |
| `WaitlistStore.SortNewestFirst` | src/lib/mongodb-service.ts:177 | The result is ordered by createdAt descending and is a permutation of the input. |
| `WaitlistStore.CeilDiv` | src/lib/mongodb-service.ts:188 | Integer ceiling of the quotient, for either sign of the divisor. |
| `WaitlistStore.ListEntries` | src/lib/mongodb-service.ts:168-189 | Listing fails iff the skip is negative. Otherwise it returns at most limit matching entries, newest first. Total is the matching count, and totalPages is the ceiling of total over limit for either sign of the limit. |
| `WaitlistStore.ListedAreStored` | src/lib/mongodb-service.ts:172-179 | Every listed entry is a stored document. |
| `WaitlistStore.PageContents` | src/lib/mongodb-service.ts:168-179 | A page is the run of the newest-first matching entries starting at the skip, as long as the limit's magnitude allows; a negative limit reads that many; a page past the end is empty. |
| `WaitlistStore.RankOnPage` | src/lib/mongodb-service.ts:170-179 | The k-th newest matching entry is on page k/limit+1, at position k mod limit. |
| `WaitlistStore.EntryOnPage` | src/lib/mongodb-service.ts:168-179 | With a positive limit l, entry j of page p + 1 is the matching entry of rank p * l + j, newest first. |
| `WaitlistStore.WindowOfSorted` | src/lib/mongodb-service.ts:176-179 | A page of a sorted listing is sorted, and every entry on it matches the filter. |
| `WaitlistStore.StatusPartition` | src/lib/mongodb-service.ts:208-233 | The four status counts add up to the number of documents. |
| `WaitlistStore.CountIsFilterSize` | src/lib/mongodb-service.ts:208-216 | A status count is the size of the listing filtered by that status. |
| `WaitlistStore.GetStats` | src/lib/mongodb-service.ts:195-236 | Each count is the number of documents with that status, and total is the number of documents. |
| `WaitlistStore.ListTotalIsCount` | src/lib/mongodb-service.ts:181-186 | The listing total is the document count without a filter, and the status count with one. |
| `WaitlistRoute.StatusCode` | src/app/api/waitlist/route.ts:46-172 | The status is 2xx iff the entry was registered. |
| `WaitlistRoute.ResponseHeaders` | src/app/api/waitlist/route.ts:45-51 | Only a 429 carries headers, exactly the three `X-RateLimit-*` ones. |
| `WaitlistRoute.RateLimitHeadersRoundTrip` | src/app/api/waitlist/route.ts:47-50 | The three headers read back as the limiter's limit, remaining and reset. |
| `WaitlistRoute.ToWire` | src/app/api/waitlist/route.ts:87 | The flattened field errors have a key per failing field, holding that field's message texts, and no other key. |
| `WaitlistRoute.EnvErrors` | src/app/api/waitlist/route.ts:15-18 | The configuration is valid iff `MONGODB_URI` is non-empty. An unset one gives "Required"; an empty one gives the emptiness message. |
| `WaitlistRoute.EntryFor` | src/app/api/waitlist/route.ts:93-113 | The store receives the validated fields and the client address as metadata. |
| `WaitlistRoute.OuterCatch` | src/app/api/waitlist/route.ts:147-173 | A thrown `SyntaxError` gives 400; anything else gives 500 with the thrown `Error`'s message, or "Erro desconhecido" for a non-`Error`. The collection is unchanged. |
| `WaitlistRoute.Thrown` | src/app/api/waitlist/route.ts:128-146 | A value `createEntry` throws is a 409, with its message, iff it is an `Error` whose message contains "já está cadastrado". Anything else is handled by the outer catch. The collection is unchanged. |
| `WaitlistRoute.StoreStage` | src/app/api/waitlist/route.ts:102-146 | Registered iff the store has no fault and the create succeeds, with the new id as decimal text. A duplicate is 409 with the duplicate message. Only a registration changes the collection. |
| `WaitlistRoute.ValidateAndStore` | src/app/api/waitlist/route.ts:80-127 | A schema failure is answered with its field errors, and the store is not reached. Otherwise the validated entry goes to the store. |
| `WaitlistRoute.AfterRateLimit` | src/app/api/waitlist/route.ts:58-91 | The configuration is checked before the body, the body before the schema. Only a registration changes the collection. |
| `WaitlistRoute.Denied` | src/app/api/waitlist/route.ts:28-37 | A request is denied only by a configured 3-per-60-second limiter that answered without throwing and refused it. Every such refusal is a denial. |
| `WaitlistRoute.Post` | src/app/api/waitlist/route.ts:25-175 | A configured limiter that throws ends in the outer catch. A denied request gets 429 with the limiter's figures and nothing else happens. Otherwise the later stages decide. Only a registration changes the collection. |
| `WaitlistRoute.LimiterFailure` | src/app/api/waitlist/route.ts:28-32 | A configured limiter that throws gives 500 with its message, or 400 for a `SyntaxError`, whatever the body, and nothing is stored. |
| `WaitlistRoute.RateLimitFirst` | src/app/api/waitlist/route.ts:28-54 | Once denied, the answer is 429, the same for any request from that client address. The limiter is configured whenever it denies. |
| `WaitlistRoute.ConfigBeforeBody` | src/app/api/waitlist/route.ts:58-76 | Without `MONGODB_URI` the answer is 500 with the configuration errors, whatever the body. |
| `WaitlistRoute.MalformedIs400` | src/app/api/waitlist/route.ts:149-158 | An unparseable body gives 400 and leaves the collection. |
| `WaitlistRoute.InvalidIs400` | src/app/api/waitlist/route.ts:80-91 | A schema failure gives 400 with exactly the schema's field errors, and the collection is unchanged. |
| `WaitlistRoute.ValidReachesStore` | src/app/api/waitlist/route.ts:93-127 | A valid body reaches the store with its normalised fields. |
| `WaitlistRoute.StoreStatus` | src/app/api/waitlist/route.ts:102-144 | Without a fault: 409 iff the index holds the email, else 201. |
| `WaitlistRoute.RegisteredIdReadsBack` | src/app/api/waitlist/route.ts:117-122 | The id in a 201 parses back to the new document's id. |
| `WaitlistRoute.FaultStatus` | src/app/api/waitlist/route.ts:128-173 | A store fault gives 409 for an `Error` with the duplicate fragment, otherwise 400 for a `SyntaxError` and 500 for anything else. The collection is unchanged. |
| `WaitlistRoute.SignUpTwice` | src/app/api/waitlist/route.ts:102-144 | The same valid body posted twice is registered once and refused with 409 the second time. |
| `WaitlistRoute.ParamOr` | src/app/api/waitlist/route.ts:185-186 | A present non-empty parameter is used; an absent or empty one gives the fallback. |
| `WaitlistRoute.GetQuery` | src/app/api/waitlist/route.ts:185-198 | An absent or empty page or limit becomes 1 or 50. A present non-empty one is parsed. A non-empty status passes through unchecked. |
| `WaitlistRoute.Get` | src/app/api/waitlist/route.ts:181-212 | GET lists iff the store does not fail and the listing succeeds, and returns that listing. A store failure gives 500 with the thrown message or "Erro desconhecido"; a refused listing gives 500 with its error. |
| `WaitlistRoute.GetDefaults` | src/app/api/waitlist/route.ts:185-186 | Without parameters GET lists page 1 of up to 50 entries, unfiltered. |
| `WaitlistRoute.GetUnknownStatus` | src/app/api/waitlist/route.ts:187-198 | An unknown status is not rejected: it lists nothing. |
| `WaitlistRoute.GetNegativePage` | src/app/api/waitlist/route.ts:185-210 | Page -1 makes the skip negative, and GET answers 500. |
| `WaitlistRoute.ReplyOf` | src/app/api/waitlist/route.ts:35-172 | The reply's status matches the outcome and always has a message. A validation failure carries exactly the flattened field errors. |
| `WaitlistModal.ZodErrorsToFormErrors` | src/components/waitlist-modal.tsx:30-42 | A field has an error iff it has messages, and the error is the text of its first message. |
| `WaitlistModal.FirstMessages` | src/components/waitlist-modal.tsx:92-101 | A field gets the server's first text for its key when that text is non-empty. |
| `WaitlistModal.ServerErrorsMatchLocal` | src/components/waitlist-modal.tsx:92-101 | Server field errors land in the modal exactly as local validation errors would. |
| `WaitlistModal.HandleSubmit` | src/components/waitlist-modal.tsx:63-78 | The submit error is cleared. On local failure no request is sent, the first messages become the errors, and all four fields are touched. On success submitting starts and the parse result is sent. |
| `WaitlistModal.SubmitSendsNormalised` | src/components/waitlist-modal.tsx:76-86 | What is sent is normalised: the raw form data normalised field by field. |
| `WaitlistModal.InvalidSubmitShowsFailingFields` | src/components/waitlist-modal.tsx:68-74 | After a locally failed submit, exactly the fields whose values break their rules show an error. |
| `WaitlistModal.HandleOutcome` | src/components/waitlist-modal.tsx:88-138 | Submitting always ends. Only a 2xx marks the modal submitted and schedules one more close timer. A 400 with errors maps them and touches all fields. Other non-ok statuses show the server's message when non-empty, else the duplicate fallback for 409, the rate-limit fallback for 429 and the generic error otherwise. A thrown request shows the generic error. |
| `WaitlistModal.ServerFieldErrors` | src/components/waitlist-modal.tsx:91-101 | The route's 400 validation reply sets exactly the errors local validation gives, and touches all fields. |
| `WaitlistModal.ServerDuplicate` | src/components/waitlist-modal.tsx:102-106 | The route's 409 reply shows the duplicate-email message. |
| `WaitlistModal.MalformedShownAsSubmitError` | src/components/waitlist-modal.tsx:113-116 | A 400 without field errors is shown as a submit error with the server's message. |
| `WaitlistModal.MessageOr` | src/components/waitlist-modal.tsx:104-116 | A non-empty server message wins over the fallback. |
| `WaitlistModal.HandleChange` | src/components/waitlist-modal.tsx:144-160 | Only the named field's value changes. Only that field's error is cleared, and the submit error is cleared. |
| `WaitlistModal.ApplyBlur` | src/components/waitlist-modal.tsx:162-177 | The field becomes touched. Only its own error may be set, to validation's error for it, and no error is cleared. |
| `WaitlistModal.LocalErrors` | src/components/waitlist-modal.tsx:167-170 | Every error local validation reports is a non-empty text. |
| `WaitlistModal.LocalErrorsRule` | src/components/waitlist-modal.tsx:167-170 | Local validation reports exactly the fields whose values break their rules. |
| `WaitlistModal.BlurShowsFailingField` | src/components/waitlist-modal.tsx:162-177 | Blurring a field whose value breaks its rule makes it show an error. |
| `WaitlistModal.HandleClose` | src/components/waitlist-modal.tsx:179-186 | The form, errors, touched fields and submit error are cleared, the modal is no longer submitted, and no field shows an error. A pending close timer is not cancelled. |
| `WaitlistModal.TimerFired` | src/components/waitlist-modal.tsx:128-134 | One pending timer is used up. The form, errors and touched fields are cleared, and the modal is no longer submitted. |
| `WaitlistModal.Step` | src/components/waitlist-modal.tsx:232-441 | A disabled event changes nothing. A request is sent only by a submit that starts submitting. |
| `WaitlistModal.StepPreservesInv` | src/components/waitlist-modal.tsx:55-58 | No event makes the modal submitting and submitted at once, leaves it submitted with no close timer pending, or stores an empty error. |
| `WaitlistModal.StaleTimerWipesInput` | src/components/waitlist-modal.tsx:128-134 | Closing keeps a success's close timer pending, so text typed after closing is wiped when it fires. |
| `RdStationRoute.ReadEnv` | src/app/api/rd-station/route.ts:23-30 | The configuration is valid iff the token is non-empty. An unset token and an empty one get their own messages. The identifier defaults only when unset. |
| `RdStationRoute.EmptyIdentifierKept` | src/app/api/rd-station/route.ts:27-29 | An empty identifier is used as is, not defaulted. |
| `RdStationRoute.ParseLead` | src/app/api/rd-station/route.ts:8-21 | A non-object body fails with no field errors. An object's errors name only its three members, and at least one of them. |
| `RdStationRoute.LeadRule` | src/app/api/rd-station/route.ts:8-21 | A body is accepted iff its email is an email-shaped non-empty string, and name and phone are absent or non-empty strings. The lead holds the members untrimmed. |
| `RdStationRoute.LeadErrors` | src/app/api/rd-station/route.ts:55-65 | A rejected body's errors name exactly the failing members, with the email messages in check order. |
| `RdStationRoute.EmailRule` | src/app/api/rd-station/route.ts:9-12 | The email member is accepted iff email-shaped and non-empty. Its messages are the shape then the emptiness message. |
| `RdStationRoute.OptionalRule` | src/app/api/rd-station/route.ts:13-20 | An optional member is accepted iff absent or a non-empty string. |
| `RdStationRoute.PayloadMembers` | src/app/api/rd-station/route.ts:72-77 | The payload always has the identifier and the email. It has `name` iff the name is non-empty, and `personal_phone` iff the phone is, and no other member. |
| `RdStationRoute.EventFor` | src/app/api/rd-station/route.ts:69-78 | The event has exactly event_type CONVERSION, event_family CDP and the payload. |
| `RdStationRoute.OutboundFor` | src/app/api/rd-station/route.ts:80-90 | The call goes to the events URL with the bearer token. |
| `RdStationRoute.EventRoundTrip` | src/app/api/rd-station/route.ts:69-78 | Reading the lead back out of the event gives the validated lead. |
| `RdStationRoute.StatusOf` | src/app/api/rd-station/route.ts:42-132 | A refusal keeps RD Station's status. Otherwise the status is 2xx iff the event was sent. |
| `RdStationRoute.Relay` | src/app/api/rd-station/route.ts:92-133 | A non-ok parsed answer is passed through. An unparseable answer is 400. An ok answer is 200 with its event_uuid, or 500 for a null body. A thrown call is 500 with its message or "Erro desconhecido". |
| `RdStationRoute.Post` | src/app/api/rd-station/route.ts:32-135 | The configuration is checked before the body, the body before the schema. Only a valid lead reaches RD Station. |
| `RdStationRoute.ConfigFirst` | src/app/api/rd-station/route.ts:34-49 | Without a token the answer is 500 whatever the body. |
| `RdStationRoute.InvalidNeverForwarded` | src/app/api/rd-station/route.ts:55-65 | An invalid body gets 400, whatever RD Station would answer. |
| `RdStationRoute.ValidForwarded` | src/app/api/rd-station/route.ts:67-90 | A valid body is sent to the events URL with the bearer token, in an event that reads back as the lead. |
| `RdStationRoute.RefusalPassedThrough` | src/app/api/rd-station/route.ts:92-103 | A refusal keeps RD Station's status and body. |
| `RdStationRoute.UnreadableAnswerLooksLikeBadRequest` | src/app/api/rd-station/route.ts:93-123 | An unparseable answer from RD Station gets the same 400 as an unparseable request body. |
| `RdStationRoute.SuccessCarriesUuid` | src/app/api/rd-station/route.ts:105-113 | An ok answer gives 200 with RD Station's event_uuid exactly when it sent one. |
| `RdStationRoute.ReplyBody` | src/app/api/rd-station/route.ts:42-131 | Every answer is an object with a text message. |
| `Cors.CorsHeaders` | src/middleware.ts:10-28 | Allow-Origin is set, to the origin, iff the origin is non-empty and one of the two allowed ones. Allow-Methods and Allow-Headers are always set, and nothing else. |
| `Cors.Middleware` | src/middleware.ts:4-39 | Paths outside `/api/` pass through. OPTIONS gets 200 with the headers; other methods continue with them. |
| `Cors.OnlyOwnOriginsGranted` | src/middleware.ts:17-19 | A granted origin is the request's own and is allowed. |
| `Cors.OwnOriginGranted` | src/middleware.ts:10-19 | Either allowed origin is granted on an API path. |
| `Cors.PreflightAlwaysOk` | src/middleware.ts:31-33 | A preflight from a foreign origin still gets 200, without a grant. |
| `Cors.BareApiPathPassesThrough` | src/middleware.ts:6 | The bare `/api` path is not handled. |

## Left out

- Network and process I/O are out of scope. Requests, `fetch`, `request.json()`, the limiter's Redis calls and `process.env` become inputs and oracles.
- The Upstash sliding-window algorithm belongs to an external library. Its decision is an oracle, `PostOracles.limit`.
- Zod's email regular expression is a parameter, `isEmail`. Zod v3 behaviour is assumed: a custom type message covers both a missing and a non-string value, and the default is "Required".
- Lengths count characters, not UTF-16 code units. Characters outside the Basic Multilingual Plane are counted once.
- Lower-casing covers ASCII and Latin-1 only. The full Unicode case mapping is not modelled.
- JSON numbers are integers. No body field here is a number.
- `Text.ParseInt`: the result is the exact integer. `Number.parseInt` rounds to a double, so above 2^53 it differs; for instance "9007199254740993" reads as 9007199254740992.
- `WaitlistStore.ListEntries`: the skip `(page - 1) * limit` is exact integer arithmetic. In the source it is a double product, which loses precision for huge page numbers.
- `Date` is a natural-number clock. The 429 reply's `resetAt` ISO string is kept as the limiter's reset number.
- The MongoDB driver is out of scope: connection, `initialize`, index creation and the error code 11000.
  - The store is an in-memory sequence of documents, and the unique index is a flag.
  - A failed index creation is swallowed in the source, so duplicates can be admitted; the model allows this when the flag is off.
  - The "Falha ao conectar ao banco de dados" errors are store faults. POST and GET each take one as a `Fault`; other service methods do not.
- ObjectId is a counter, rendered as decimal text.
- Documents with equal createdAt keep insertion order. MongoDB does not promise any order for such ties.
- `src/lib/mongodb.ts` is not part of this model. It is the connection singleton; it throws at import when `MONGODB_URI` is unset, before the route's own check can run.
- The runtime's handling of method names is not modelled. Fetch upper-cases the standard methods and Node's parser refuses lower-case ones. The middleware model compares the method string it is given exactly, as `src/middleware.ts` does.
- `Headers.get` joining repeated headers with ", " is not modelled. A header has one value.
- PostHog telemetry, console logging and all rendering are out of scope. The modal model does use two facts from its JSX: the form is hidden once submitted, and the submit button is disabled while submitting.
- The translated texts are out of scope. The generic error text is a parameter of `HandleOutcome`.
- `onClose` and `isOpen` belong to the parent component.
- The 2.5-second timer is a `Timer` event. Each success schedules one more; each fires once, in any order relative to other events. Its delay is not modelled.
- `WaitlistModal.HandleBlur`: its contract is stated on `ApplyBlur`, given the local validation result `LocalErrors`. Restating it on `HandleBlur` over the schema parse is too costly for the solver. `BlurShowsFailingField` connects the two.
- `RdStationRoute.Relay`: reading `event_uuid` of a `null` answer throws a `TypeError` whose message comes from the runtime. That message is a parameter.
