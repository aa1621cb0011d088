/** The signup modal's form controller as a state machine. Its state is what the
    component keeps: the form data, the submitting and submitted flags, one error text per
    field, the submit error and the touched fields. The close timers each success
    schedules are counted; nothing cancels them. Handlers are functions from state to state; the request to the server
    and its answer are separate events. */
module WaitlistModal {
  import opened Wrappers
  import opened JsonValue
  import opened ZodString
  import opened WaitlistSchema
  import opened WaitlistRoute
  import WaitlistStore

  /** One error text per field; an absent field has no error. */
  type FormErrors = map<Field, string>

  datatype ModalState = ModalState(
    formData: WaitlistForm,
    isSubmitting: bool,
    isSubmitted: bool,
    errors: FormErrors,
    submitError: string,
    touched: set<Field>,
    pendingTimers: nat)

  const EmptyForm: WaitlistForm := WaitlistForm("", "", "", "")

  const Initial: ModalState := ModalState(EmptyForm, false, false, map[], "", {}, 0)

  /** `errors[field]` is truthy: present and non-empty. */
  predicate HasError(s: ModalState, f: Field) {
    f in s.errors && |s.errors[f]| > 0
  }

  /** The display rule: a field shows its error only when touched and in error. */
  predicate ShowsError(s: ModalState, f: Field) {
    f in s.touched && HasError(s, f)
  }

  lemma MessageTextNonEmpty(m: Message)
    ensures |MessageText(m)| > 0
  {
  }

  /** `zodErrorsToFormErrors`: the first message of each field that has one. */
  function ZodErrorsToFormErrors(errors: FieldErrors): (fe: FormErrors)
    ensures forall f :: f in fe <==> f in errors && |errors[f]| > 0
    ensures forall f | f in fe :: fe[f] == MessageText(errors[f][0]) && |fe[f]| > 0
  {
    forall m: Message ensures |MessageText(m)| > 0 {
      MessageTextNonEmpty(m);
    }
    map f | f in errors && |errors[f]| > 0 && |MessageText(errors[f][0])| > 0 :: MessageText(errors[f][0])
  }

  lemma AllFieldsComplete()
    ensures forall f :: f in AllFields
  {
    forall f ensures f in AllFields {
      match f
      case Name =>
      case Email =>
      case Company =>
      case Position =>
    }
  }

  /** The server's field errors as the modal reads them: the first text of each field
      whose first text is non-empty. */
  function FirstMessages(w: WireErrors): (fe: FormErrors)
    ensures forall f :: f in fe <==> Key(f) in w && |w[Key(f)]| > 0 && |w[Key(f)][0]| > 0
    ensures forall f | f in fe :: fe[f] == w[Key(f)][0]
  {
    AllFieldsComplete();
    map f | f in AllFields && Key(f) in w && |w[Key(f)]| > 0 && |w[Key(f)][0]| > 0 :: w[Key(f)][0]
  }

  /** The modal reads the server's serialised field errors exactly as it reads its own
      validation's errors. */
  lemma ServerErrorsMatchLocal(errors: FieldErrors)
    ensures FirstMessages(ToWire(errors)) == ZodErrorsToFormErrors(errors)
  {
    var a := FirstMessages(ToWire(errors));
    var b := ZodErrorsToFormErrors(errors);
    forall f ensures f in a <==> f in b {
      FirstMessageOf(errors, f);
    }
    forall f | f in a && f in b ensures a[f] == b[f] {
      FirstMessageOf(errors, f);
    }
    SameEntries(a, b);
  }

  /** Two error maps with the same fields and the same texts are equal. */
  lemma SameEntries(a: FormErrors, b: FormErrors)
    requires forall f :: f in a <==> f in b
    requires forall f | f in a && f in b :: a[f] == b[f]
    ensures a == b
  {
  }

  /** One field of the above. */
  lemma FirstMessageOf(errors: FieldErrors, f: Field)
    ensures f in FirstMessages(ToWire(errors)) <==> f in errors && |errors[f]| > 0
    ensures f in errors && |errors[f]| > 0 ==> FirstMessages(ToWire(errors))[f] == MessageText(errors[f][0])
  {
    var w := ToWire(errors);
    assert Key(f) in w <==> f in errors;
    if f in errors {
      var ts := w[Key(f)];
      assert ts == Texts(errors[f]);
      if |errors[f]| > 0 {
        assert ts[0] == MessageText(errors[f][0]);
        MessageTextNonEmpty(errors[f][0]);
      }
    }
  }

  // ----- handleSubmit -----

  datatype Submitted = Submitted(state: ModalState, request: Option<WaitlistForm>)

  /** `handleSubmit`: validates the form data locally. If it fails, no request is sent,
      the errors are shown on all four fields. Otherwise the modal starts submitting and
      sends the validated, normalised data. */
  function HandleSubmit(s: ModalState, isEmail: string -> bool): (r: Submitted)
    ensures r.state.submitError == "" && r.state.formData == s.formData
    ensures r.state.isSubmitted == s.isSubmitted && r.state.pendingTimers == s.pendingTimers
    ensures r.request.None? <==> Parse(ToJson(s.formData), isEmail).Failure?
    ensures r.request.None? ==>
      && r.state.errors == ZodErrorsToFormErrors(Parse(ToJson(s.formData), isEmail).error)
      && r.state.touched == AllFields
      && r.state.isSubmitting == s.isSubmitting
    ensures r.request.Some? ==>
      && r.request.value == Parse(ToJson(s.formData), isEmail).value
      && r.state.isSubmitting
      && r.state.errors == s.errors && r.state.touched == s.touched
  {
    var cleared := s.(submitError := "");
    match Parse(ToJson(s.formData), isEmail)
    case Failure(errors) => Submitted(cleared.(errors := ZodErrorsToFormErrors(errors), touched := AllFields), None)
    case Success(data) => Submitted(cleared.(isSubmitting := true), Some(data))
  }

  /** What a valid submit sends is normalised, and it is the raw form data normalised
      field by field, not the raw form data. */
  lemma SubmitSendsNormalised(s: ModalState, isEmail: string -> bool)
    requires HandleSubmit(s, isEmail).request.Some?
    ensures var sent := HandleSubmit(s, isEmail).request.value;
      && Normalised(sent)
      && forall f :: Value(sent, f) == Normalise(f, Value(s.formData, f))
  {
    var input := ToJson(s.formData);
    ToJsonFields(s.formData);
    AcceptedIsNormalised(input, isEmail);
  }

  /** After a submit that fails locally, exactly the failing fields show an error. */
  lemma InvalidSubmitShowsFailingFields(s: ModalState, isEmail: string -> bool)
    requires HandleSubmit(s, isEmail).request.None?
    ensures var t := HandleSubmit(s, isEmail).state;
      forall f :: ShowsError(t, f) <==> !RawAccepted(f, Value(s.formData, f), isEmail)
  {
    var input := ToJson(s.formData);
    var t := HandleSubmit(s, isEmail).state;
    ToJsonFields(s.formData);
    RejectedReportsFailingFields(input, isEmail);
    forall f
      ensures ShowsError(t, f) <==> !RawAccepted(f, Value(s.formData, f), isEmail)
    {
      FieldRule(input, f, isEmail);
    }
  }

  // ----- The answer to the request -----

  /** How the request ended: `fetch` or `response.json()` threw, or a response arrived. */
  datatype Outcome = Threw | Responded(reply: Reply)

  const DuplicateFallback: string := "Este email já está cadastrado na lista de espera."
  const RateLimitFallback: string := "Muitas tentativas. Por favor, aguarde um momento antes de tentar novamente."

  /** `data.message || fallback`. */
  function MessageOr(message: Option<string>, fallback: string): (m: string)
    ensures message.Some? && |message.value| > 0 ==> m == message.value
    ensures !(message.Some? && |message.value| > 0) ==> m == fallback
  {
    if message.Some? && |message.value| > 0 then message.value else fallback
  }

  /** The rest of `handleSubmit`, once the request ends. `submitErrorText` is the
      translated generic error of the current language. */
  function HandleOutcome(s: ModalState, outcome: Outcome, submitErrorText: string): (t: ModalState)
    ensures !t.isSubmitting
    ensures t.formData == s.formData
    ensures t.isSubmitted <==> s.isSubmitted || (outcome.Responded? && IsOk(outcome.reply.status))
    ensures t.pendingTimers == s.pendingTimers + (if outcome.Responded? && IsOk(outcome.reply.status) then 1 else 0)
    ensures outcome.Threw? ==> t.submitError == submitErrorText && t.errors == s.errors
    ensures outcome.Responded? && outcome.reply.status == 400 && outcome.reply.errors.Some? ==>
      && t.errors == FirstMessages(outcome.reply.errors.value)
      && t.touched == AllFields
      && t.submitError == s.submitError
    ensures outcome.Responded? && !IsOk(outcome.reply.status) && !(outcome.reply.status == 400 && outcome.reply.errors.Some?) ==>
      && t.errors == s.errors && t.touched == s.touched
      && (outcome.reply.message.Some? && |outcome.reply.message.value| > 0 ==> t.submitError == outcome.reply.message.value)
      && t.submitError == MessageOr(outcome.reply.message,
                                    if outcome.reply.status == 409 then DuplicateFallback
                                    else if outcome.reply.status == 429 then RateLimitFallback
                                    else submitErrorText)
    ensures outcome.Responded? && IsOk(outcome.reply.status) ==>
      t.errors == s.errors && t.touched == s.touched && t.submitError == s.submitError
  {
    match outcome
    case Threw => s.(isSubmitting := false, submitError := submitErrorText)
    case Responded(reply) =>
      if IsOk(reply.status) then
        s.(isSubmitting := false, isSubmitted := true, pendingTimers := s.pendingTimers + 1)
      else if reply.status == 400 && reply.errors.Some? then
        s.(errors := FirstMessages(reply.errors.value), touched := AllFields, isSubmitting := false)
      else if reply.status == 409 then
        s.(submitError := MessageOr(reply.message, DuplicateFallback), isSubmitting := false)
      else if reply.status == 429 then
        s.(submitError := MessageOr(reply.message, RateLimitFallback), isSubmitting := false)
      else
        s.(submitError := MessageOr(reply.message, submitErrorText), isSubmitting := false)
  }

  /** The server's validation errors land in the modal as its own validation would have
      put them. */
  lemma ServerFieldErrors(s: ModalState, errors: FieldErrors, submitErrorText: string)
    ensures var t := HandleOutcome(s, Responded(ReplyOf(InvalidData(errors))), submitErrorText);
      t.errors == ZodErrorsToFormErrors(errors) && t.touched == AllFields && !t.isSubmitting
  {
    var reply := ReplyOf(InvalidData(errors));
    assert reply.status == 400 && reply.errors == Some(ToWire(errors));
    ServerErrorsMatchLocal(errors);
  }

  /** A duplicate email shows the server's message. */
  lemma ServerDuplicate(s: ModalState, submitErrorText: string)
    ensures HandleOutcome(s, Responded(ReplyOf(AlreadyRegistered(WaitlistStore.DuplicateEmailMessage))), submitErrorText).submitError
            == WaitlistStore.DuplicateEmailMessage
  {
    var reply := ReplyOf(AlreadyRegistered(WaitlistStore.DuplicateEmailMessage));
    assert reply.status == 409 && reply.message == Some(WaitlistStore.DuplicateEmailMessage);
  }

  /** A malformed-body 400 carries no field errors, so it is shown as a submit error. */
  lemma MalformedShownAsSubmitError(s: ModalState, submitErrorText: string)
    ensures var t := HandleOutcome(s, Responded(ReplyOf(MalformedBody)), submitErrorText);
      t.submitError == "Corpo da requisição inválido" && t.errors == s.errors
  {
  }

  // ----- Field events, closing and the timer -----

  function SetValue(form: WaitlistForm, f: Field, v: string): (r: WaitlistForm)
    ensures Value(r, f) == v
    ensures forall g | g != f :: Value(r, g) == Value(form, g)
  {
    match f
    case Name => form.(name := v)
    case Email => form.(email := v)
    case Company => form.(company := v)
    case Position => form.(position := v)
  }

  /** `handleChange`: stores the new value, clears that field's error and the submit
      error, and nothing else. */
  function HandleChange(s: ModalState, f: Field, v: string): (t: ModalState)
    ensures Value(t.formData, f) == v
    ensures forall g | g != f :: Value(t.formData, g) == Value(s.formData, g)
    ensures !HasError(t, f)
    ensures forall g | g != f :: (g in t.errors <==> g in s.errors) && (g in t.errors ==> t.errors[g] == s.errors[g])
    ensures t.submitError == ""
    ensures t.touched == s.touched && t.isSubmitting == s.isSubmitting && t.isSubmitted == s.isSubmitted
  {
    var errors := if f in s.errors && |s.errors[f]| > 0 then s.errors - {f} else s.errors;
    s.(formData := SetValue(s.formData, f, v), errors := errors, submitError := "")
  }

  /** The errors local validation of `form` reports, one text per failing field. */
  function LocalErrors(form: WaitlistForm, isEmail: string -> bool): (fe: FormErrors)
    ensures forall f | f in fe :: |fe[f]| > 0
  {
    match Parse(ToJson(form), isEmail)
    case Success(_) => map[]
    case Failure(errors) => ZodErrorsToFormErrors(errors)
  }

  /** Local validation reports exactly the fields whose value breaks their rule. */
  lemma LocalErrorsRule(form: WaitlistForm, isEmail: string -> bool)
    ensures forall f :: f in LocalErrors(form, isEmail) <==> !RawAccepted(f, Value(form, f), isEmail)
  {
    var input := ToJson(form);
    ToJsonFields(form);
    if Parse(input, isEmail).Failure? {
      RejectedReportsFailingFields(input, isEmail);
      forall f ensures f in LocalErrors(form, isEmail) <==> !RawAccepted(f, Value(form, f), isEmail) {
        FieldRule(input, f, isEmail);
      }
    } else {
      forall f ensures RawAccepted(f, Value(form, f), isEmail) {
        FieldRule(input, f, isEmail);
      }
    }
  }

  /** `handleBlur` once local validation has reported `local`: marks the field touched
      and, if `local` has an error for it, sets that error. It never clears an error and
      never touches another field's. */
  function ApplyBlur(s: ModalState, f: Field, local: FormErrors): (t: ModalState)
    ensures t.touched == s.touched + {f}
    ensures HasError(s, f) ==> HasError(t, f)
    ensures f in local && |local[f]| > 0 ==> f in t.errors && t.errors[f] == local[f]
    ensures !(f in local && |local[f]| > 0) ==> t.errors == s.errors
    ensures forall g | g != f :: (g in t.errors <==> g in s.errors) && (g in t.errors ==> t.errors[g] == s.errors[g])
    ensures t.formData == s.formData && t.submitError == s.submitError
    ensures t.isSubmitting == s.isSubmitting && t.isSubmitted == s.isSubmitted
  {
    var touched := s.touched + {f};
    if f in local && |local[f]| > 0 then s.(touched := touched, errors := s.errors[f := local[f]])
    else s.(touched := touched)
  }

  /** `handleBlur`: validates the whole form locally and applies the result to the
      blurred field. */
  function HandleBlur(s: ModalState, f: Field, isEmail: string -> bool): (t: ModalState)
  {
    ApplyBlur(s, f, LocalErrors(s.formData, isEmail))
  }

  /** A blurred field whose value breaks its rule shows the error. */
  lemma BlurShowsFailingField(s: ModalState, f: Field, isEmail: string -> bool)
    requires !RawAccepted(f, Value(s.formData, f), isEmail)
    ensures ShowsError(HandleBlur(s, f, isEmail), f)
  {
    LocalErrorsRule(s.formData, isEmail);
  }

  /** `handleClose`: empties the form, errors, touched fields and submit error, and
      leaves the submitted state. A request in flight stays in flight, and a close timer
      already scheduled stays scheduled. */
  function HandleClose(s: ModalState): (t: ModalState)
    ensures t.formData == EmptyForm && t.errors == map[] && t.touched == {} && t.submitError == ""
    ensures !t.isSubmitted
    ensures t.isSubmitting == s.isSubmitting && t.pendingTimers == s.pendingTimers
    ensures forall f :: !ShowsError(t, f)
  {
    s.(formData := EmptyForm, errors := map[], touched := {}, submitError := "", isSubmitted := false)
  }

  /** One pending close timer fires: it empties the form, errors and touched fields and
      leaves the submitted state, whatever happened since it was scheduled. */
  function TimerFired(s: ModalState): (t: ModalState)
    requires s.pendingTimers > 0
    ensures t.formData == EmptyForm && t.errors == map[] && t.touched == {}
    ensures !t.isSubmitted && t.pendingTimers == s.pendingTimers - 1
    ensures t.isSubmitting == s.isSubmitting && t.submitError == s.submitError
  {
    s.(formData := EmptyForm, isSubmitted := false, errors := map[], touched := {}, pendingTimers := s.pendingTimers - 1)
  }

  // ----- The machine -----

  datatype Event =
    | Submit
    | Change(field: Field, value: string)
    | Blur(field: Field)
    | Close
    | Finished(outcome: Outcome)
    | Timer

  /** Which events can happen. The form is only on screen before success, the submit
      button is disabled while submitting, an answer comes only for a request in flight,
      and each scheduled timer fires once. */
  predicate Enabled(s: ModalState, e: Event) {
    match e
    case Submit => !s.isSubmitted && !s.isSubmitting
    case Change(_, _) => !s.isSubmitted
    case Blur(_) => !s.isSubmitted
    case Close => true
    case Finished(_) => s.isSubmitting
    case Timer => s.pendingTimers > 0
  }

  datatype StepResult = StepResult(state: ModalState, request: Option<WaitlistForm>)

  /** One event. A disabled event changes nothing. */
  function Step(s: ModalState, e: Event, isEmail: string -> bool, submitErrorText: string): (r: StepResult)
    ensures !Enabled(s, e) ==> r == StepResult(s, None)
    ensures r.request.Some? ==> e.Submit? && r.state.isSubmitting && !s.isSubmitting
  {
    if !Enabled(s, e) then StepResult(s, None)
    else
      match e
      case Submit =>
        var sub := HandleSubmit(s, isEmail);
        StepResult(sub.state, sub.request)
      case Change(f, v) => StepResult(HandleChange(s, f, v), None)
      case Blur(f) => StepResult(HandleBlur(s, f, isEmail), None)
      case Close => StepResult(HandleClose(s), None)
      case Finished(outcome) => StepResult(HandleOutcome(s, outcome, submitErrorText), None)
      case Timer => StepResult(TimerFired(s), None)
  }

  /** The modal is never submitting and submitted at once, a submitted modal has a close
      timer pending, and every error it holds is a non-empty text. */
  predicate Inv(s: ModalState) {
    && !(s.isSubmitting && s.isSubmitted)
    && (s.isSubmitted ==> s.pendingTimers > 0)
    && forall f | f in s.errors :: |s.errors[f]| > 0
  }

  lemma InitialInv()
    ensures Inv(Initial)
  {
  }

  /** Every step keeps the invariant. */
  lemma StepPreservesInv(s: ModalState, e: Event, isEmail: string -> bool, submitErrorText: string)
    requires Inv(s)
    ensures Inv(Step(s, e, isEmail, submitErrorText).state)
  {
    if Enabled(s, e) {
      match e
      case Submit =>
        var t := HandleSubmit(s, isEmail).state;
        assert forall f | f in t.errors :: |t.errors[f]| > 0;
      case Change(f, v) =>
      case Blur(f) =>
      case Close =>
      case Finished(outcome) =>
        if outcome.Responded? && outcome.reply.status == 400 && outcome.reply.errors.Some? {
          var t := HandleOutcome(s, outcome, submitErrorText);
          assert forall g | g in t.errors :: |t.errors[g]| > 0;
        }
      case Timer =>
    }
  }

  /** Closing does not cancel a close timer: input typed after closing and reopening is
      wiped when the earlier success's timer fires. */
  lemma StaleTimerWipesInput(s: ModalState, f: Field, v: string, isEmail: string -> bool, submitErrorText: string)
    requires s.pendingTimers > 0
    ensures var closed := Step(s, Close, isEmail, submitErrorText).state;
      var typed := Step(closed, Change(f, v), isEmail, submitErrorText).state;
      var fired := Step(typed, Timer, isEmail, submitErrorText).state;
      && closed.pendingTimers == s.pendingTimers
      && Value(typed.formData, f) == v
      && fired.formData == EmptyForm
      && fired.pendingTimers == s.pendingTimers - 1
  {
  }
}
