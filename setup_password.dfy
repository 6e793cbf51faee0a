/** The password-setup page reached after payment: its session-verification
    effect, which loads the paying customer's e-mail, and its submit
    handler, which checks the password, stores its hash and logs in. */
module SetupPassword {
  import opened Wrappers
  import RegisterModal

  const MinPasswordLength: nat := 8

  /** The validation failures, in the order this page checks them. */
  datatype ValidationError = TooShort | Mismatch

  const TooShortMessage: string := "Le mot de passe doit contenir au moins 8 caractères"
  const MismatchMessage: string := "Les mots de passe ne correspondent pas"
  const SetupFailedMessage: string := "Erreur lors de la création du mot de passe"
  const InvalidSessionMessage: string := "Session invalide"
  const VerificationFailedMessage: string := "Erreur lors de la vérification de votre paiement"

  function ValidationMessage(e: ValidationError): string {
    match e
    case TooShort => TooShortMessage
    case Mismatch => MismatchMessage
  }

  /** The checks of the submit handler: the length first, then the match. */
  function Validate(password: string, confirmPassword: string): Option<ValidationError> {
    if |password| < MinPasswordLength then Some(TooShort)
    else if password != confirmPassword then Some(Mismatch)
    else None
  }

  /** A password shorter than 8 is reported as too short whatever the
      confirmation; a mismatch is reported only for a long enough password;
      a submission passes exactly when the password is long enough and
      confirmed. */
  lemma ValidationOrder(password: string, confirmPassword: string)
    ensures var r := Validate(password, confirmPassword);
      && (r == Some(TooShort) <==> |password| < MinPasswordLength)
      && (r == Some(Mismatch) <==> |password| >= MinPasswordLength && password != confirmPassword)
      && (r == None <==> |password| >= MinPasswordLength && password == confirmPassword)
  {
  }

  /** The two forms check the same two conditions in opposite orders: a
      short, mismatched (non-empty) password is reported as a mismatch by
      the registration dialog and as too short here, each with the message
      the other form uses for that failure. */
  lemma ShortMismatchReportedDifferently(email: string, password: string, confirmPassword: string)
    requires email != "" && password != "" && confirmPassword != ""
    requires |password| < MinPasswordLength && password != confirmPassword
    ensures RegisterModal.Validate(email, password, confirmPassword) == Some(RegisterModal.PasswordMismatch)
    ensures Validate(password, confirmPassword) == Some(TooShort)
    ensures RegisterModal.ValidationMessage(RegisterModal.Validate(email, password, confirmPassword).value)
            != ValidationMessage(Validate(password, confirmPassword).value)
  {
  }

  /** On passwords that both forms accept as to length and confirmation,
      they agree: what this page accepts, the registration dialog accepts
      for any filled-in e-mail matching its pattern, and conversely. */
  lemma PasswordRulesAgree(email: string, password: string, confirmPassword: string)
    requires RegisterModal.EmailPattern(email)
    ensures Validate(password, confirmPassword) == None <==>
            RegisterModal.Validate(email, password, confirmPassword) == None
  {
    RegisterModal.ValidationOrder(email, password, confirmPassword);
  }

  // ---------------------------------------------------------------------
  // The page's state, its effect and its submit handler
  // ---------------------------------------------------------------------

  /** A call the page makes to a service: the payment-session check, the
      customer lookup, the password hashing, the stored-hash update and the
      login. */
  datatype ServiceCall =
    | VerifyPaymentSession(sessionId: string)
    | LookupCustomer(email: string)
    | HashPassword(password: string)
    | StorePasswordHash(email: string)
    | Login(email: string, password: string)

  /** What the customer lookup yields: it throws, finds nobody, finds a
      customer without a password hash, or one who already has one. */
  datatype CustomerLookup = LookupThrows | NoCustomer | CustomerWithoutPassword | CustomerWithPassword

  /** What the session check yields: the request or the JSON decoding
      throws, or a payload whose `email` is absent or a string. */
  datatype SessionResponse = RequestThrows | Payload(email: Option<string>, lookup: CustomerLookup)

  /** How the awaited steps after validation end: the hashing throws, the
      hash update fails, the login fails, or everything succeeds. */
  datatype SetupOutcome = HashFails | StoreFails | LoginFails | LoggedIn

  /** The page's state. `navigations` records every `navigate` target,
      `calls` every service call, `errorWrites` and `loadingWrites` every
      call of the `error` and `loading` setters. */
  class SetupPasswordPage {
    var email: string
    var password: string
    var confirmPassword: string
    var loading: bool
    var error: string
    var verifying: bool
    ghost var navigations: seq<string>
    ghost var calls: seq<ServiceCall>
    ghost var errorWrites: seq<string>
    ghost var loadingWrites: seq<bool>

    constructor ()
      ensures email == "" && password == "" && confirmPassword == ""
      ensures !loading && error == "" && verifying
      ensures navigations == [] && calls == [] && errorWrites == [] && loadingWrites == []
    {
      email, password, confirmPassword := "", "", "";
      loading, error, verifying := false, "", true;
      navigations, calls, errorWrites, loadingWrites := [], [], [], [];
    }

    /** The mount effect. `sessionId` is the `session_id` query parameter.
        A missing or empty one sends the visitor to '/' and checks nothing
        (and `verifying` is left as it was). Otherwise the session is
        checked; a payload without an e-mail shows 'Session invalide', a
        thrown error shows the verification-failure message, an e-mail is
        stored and its customer looked up, and a customer who already has a
        password is sent to '/success'. `verifying` ends false on every
        path where the check was started. */
    method VerifySession(sessionId: Option<string>, response: SessionResponse)
      modifies this`email, this`error, this`verifying, this`navigations, this`calls, this`errorWrites
      ensures sessionId == None || sessionId == Some("") ==>
        && navigations == old(navigations) + ["/"] && calls == old(calls)
        && email == old(email) && error == old(error) && verifying == old(verifying)
        && errorWrites == old(errorWrites)
      ensures sessionId.Some? && sessionId.value != "" ==>
        && !verifying
        && |calls| >= |old(calls)| + 1 && calls[..|old(calls)| + 1] == old(calls) + [VerifyPaymentSession(sessionId.value)]
      ensures sessionId.Some? && sessionId.value != "" && response.RequestThrows? ==>
        && error == VerificationFailedMessage && email == old(email)
        && errorWrites == old(errorWrites) + [VerificationFailedMessage]
        && navigations == old(navigations) && calls == old(calls) + [VerifyPaymentSession(sessionId.value)]
      ensures sessionId.Some? && sessionId.value != "" && response.Payload? && (response.email == None || response.email == Some("")) ==>
        && error == InvalidSessionMessage && email == old(email)
        && errorWrites == old(errorWrites) + [InvalidSessionMessage]
        && navigations == old(navigations) && calls == old(calls) + [VerifyPaymentSession(sessionId.value)]
      ensures sessionId.Some? && sessionId.value != "" && response.Payload? && response.email.Some? && response.email.value != "" ==>
        && email == response.email.value
        && calls == old(calls) + [VerifyPaymentSession(sessionId.value), LookupCustomer(response.email.value)]
        && error == (if response.lookup == LookupThrows then VerificationFailedMessage else old(error))
        && errorWrites == old(errorWrites) + (if response.lookup == LookupThrows then [VerificationFailedMessage] else [])
        && navigations == old(navigations) + (if response.lookup == CustomerWithPassword then ["/success"] else [])
    {
      if sessionId == None || sessionId == Some("") {
        navigations := navigations + ["/"];
        return;
      }
      var id := sessionId.value;
      calls := calls + [VerifyPaymentSession(id)];
      match response {
        case RequestThrows =>
          error, errorWrites := VerificationFailedMessage, errorWrites + [VerificationFailedMessage];
        case Payload(found, lookup) =>
          if found.Some? && found.value != "" {
            email := found.value;
            calls := calls + [LookupCustomer(found.value)];
            if lookup == LookupThrows {
              error, errorWrites := VerificationFailedMessage, errorWrites + [VerificationFailedMessage];
            } else if lookup == CustomerWithPassword {
              navigations := navigations + ["/success"];
            }
          } else {
            error, errorWrites := InvalidSessionMessage, errorWrites + [InvalidSessionMessage];
          }
      }
      verifying := false;
    }

    /** `handleSubmit`. The error is cleared first. A validation failure
        shows its message and returns before `loading` is written and before
        any hashing, update or login. Otherwise `loading` goes up, the
        password is hashed, the hash stored under the page's e-mail and a
        login attempted, stopping at the first failure; any failure shows
        the single setup-failure message, and `loading` comes down again on
        every path. */
    method HandleSubmit(outcome: SetupOutcome)
      modifies this`error, this`loading, this`errorWrites, this`loadingWrites, this`calls
      ensures Validate(password, confirmPassword).Some? ==>
        && error == ValidationMessage(Validate(password, confirmPassword).value)
        && errorWrites == old(errorWrites) + ["", error]
        && loading == old(loading) && loadingWrites == old(loadingWrites) && calls == old(calls)
      ensures Validate(password, confirmPassword).None? ==>
        && !loading && loadingWrites == old(loadingWrites) + [true, false]
        && error == (if outcome == LoggedIn then "" else SetupFailedMessage)
        && errorWrites == old(errorWrites) + (if outcome == LoggedIn then [""] else ["", SetupFailedMessage])
        && calls == old(calls) + AttemptedCalls(email, password, outcome)
    {
      error, errorWrites := "", errorWrites + [""];
      var v := Validate(password, confirmPassword);
      if v.Some? {
        var m := ValidationMessage(v.value);
        error, errorWrites := m, errorWrites + [m];
      } else {
        loading, loadingWrites := true, loadingWrites + [true];
        // hash, store, login: each step is reached only if the one before succeeded
        var attempted := [HashPassword(password)];
        if outcome != HashFails {
          attempted := attempted + [StorePasswordHash(email)];
          if outcome != StoreFails {
            attempted := attempted + [Login(email, password)];
          }
        }
        calls := calls + attempted;
        if outcome != LoggedIn {
          error, errorWrites := SetupFailedMessage, errorWrites + [SetupFailedMessage];
        }
        loading, loadingWrites := false, loadingWrites + [false];
      }
    }
  }

  /** The service calls made after validation passes, up to and including
      the first one that fails. */
  function AttemptedCalls(email: string, password: string, outcome: SetupOutcome): (r: seq<ServiceCall>)
    ensures |r| >= 1 && r[0] == HashPassword(password)
    ensures r <= [HashPassword(password), StorePasswordHash(email), Login(email, password)]
    ensures StorePasswordHash(email) in r <==> outcome != HashFails
    ensures outcome == LoggedIn || outcome == LoginFails <==> Login(email, password) in r
  {
    match outcome
    case HashFails => [HashPassword(password)]
    case StoreFails => [HashPassword(password), StorePasswordHash(email)]
    case LoginFails => [HashPassword(password), StorePasswordHash(email), Login(email, password)]
    case LoggedIn => [HashPassword(password), StorePasswordHash(email), Login(email, password)]
  }
}
