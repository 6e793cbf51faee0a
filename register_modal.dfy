/** The registration dialog's submit handler: an ordered chain of field
    checks (required fields, matching confirmation, minimum length, e-mail
    pattern), the e-mail normalisation applied before the account is
    created, and the message chosen when account creation throws. */
module RegisterModal {
  import opened Wrappers
  import opened JsText

  const MinPasswordLength: nat := 8

  /** The validation failures, in the order the handler checks them. */
  datatype ValidationError = MissingField | PasswordMismatch | PasswordTooShort | InvalidEmail

  const MissingFieldMessage: string := "Tous les champs sont requis"
  const MismatchMessage: string := "Les mots de passe ne correspondent pas"
  const TooShortMessage: string := "Le mot de passe doit contenir au moins 8 caractères"
  const InvalidEmailMessage: string := "Adresse email invalide"
  const CreationFailedMessage: string := "Erreur lors de la création du compte"
  const DuplicateAccountMessage: string := "Un compte avec cet email existe déjà"
  const RetryMessage: string := "Erreur lors de la création du compte. Veuillez réessayer."

  /** The message shown for each validation failure. */
  function ValidationMessage(e: ValidationError): string {
    match e
    case MissingField => MissingFieldMessage
    case PasswordMismatch => MismatchMessage
    case PasswordTooShort => TooShortMessage
    case InvalidEmail => InvalidEmailMessage
  }

  // ---------------------------------------------------------------------
  // The e-mail pattern /^[^\s@]+@[^\s@]+\.[^\s@]+$/
  // ---------------------------------------------------------------------

  /** A non-empty run of the class [^\s@]. */
  predicate PlainRun(t: string) {
    |t| > 0 && forall k :: 0 <= k < |t| ==> !IsWhitespace(t[k]) && t[k] != '@'
  }

  /** The language of the pattern, read off its structure: a plain run, '@',
      a plain run, '.', a plain run, and nothing else. */
  ghost predicate EmailPattern(s: string) {
    exists at, dot ::
      && 0 <= at < dot < |s| && s[at] == '@' && s[dot] == '.'
      && PlainRun(s[..at]) && PlainRun(s[at + 1..dot]) && PlainRun(s[dot + 1..])
  }

  /** The pattern test as a scan: no whitespace, a first '@' that is not the
      first character and has no other '@' after it, and a '.' in the part
      after the '@' that is neither that part's first nor its last character. */
  predicate EmailScan(s: string) {
    var at := IndexOf(s, '@');
    && HasNoWhitespace(s)
    && at > 0
    && at + 3 <= |s|
    && IndexOf(s[at + 1..], '@') < 0
    && IndexOf(s[at + 2..|s| - 1], '.') >= 0
  }

  lemma EmailScanMatchesPattern(s: string)
    ensures EmailScan(s) <==> EmailPattern(s)
  {
    if EmailScan(s) {
      ScanGivesPattern(s);
    }
    if EmailPattern(s) {
      PatternGivesScan(s);
    }
  }

  lemma ScanGivesPattern(s: string)
    requires EmailScan(s)
    ensures EmailPattern(s)
  {
    var at := IndexOf(s, '@');
    IndexOfFirst(s, '@');
    var tail := s[at + 1..];
    IndexOfFirst(tail, '@');
    var rest := s[at + 2..|s| - 1];
    IndexOfFirst(rest, '.');
    var dot := at + 2 + IndexOf(rest, '.');
    assert s[dot] == rest[dot - at - 2];
    forall k | at < k < |s| ensures s[k] != '@' {
      assert tail[k - at - 1] == s[k];
    }
    assert PlainRun(s[..at]);
    assert PlainRun(s[at + 1..dot]);
    assert PlainRun(s[dot + 1..]);
  }

  lemma PatternGivesScan(s: string)
    requires EmailPattern(s)
    ensures EmailScan(s)
  {
    var a, d :| && 0 <= a < d < |s| && s[a] == '@' && s[d] == '.'
                && PlainRun(s[..a]) && PlainRun(s[a + 1..d]) && PlainRun(s[d + 1..]);
    PatternHasNoWhitespace(s, a, d);
    ScanFindsParts(s, a, d);
  }

  /** With its '@' at `a` and a '.' at `d` after it, a string without
      whitespace and without another '@' passes the scan. */
  lemma ScanFindsParts(s: string, a: int, d: int)
    requires 0 < a && a + 2 <= d < |s| - 1 && s[a] == '@' && s[d] == '.'
    requires HasNoWhitespace(s)
    requires forall k :: 0 <= k < |s| && k != a ==> s[k] != '@'
    ensures EmailScan(s)
  {
    IndexOfAt(s, '@', a);
    var tail := s[a + 1..];
    forall k | 0 <= k < |tail| ensures tail[k] != '@' {
      assert tail[k] == s[a + 1 + k];
    }
    IndexOfAbsent(tail, '@');
    var rest := s[a + 2..|s| - 1];
    assert rest[d - a - 2] == '.';
    IndexOfPresent(rest, '.', d - a - 2);
  }

  /** Only the '@' of a matching string is outside the class [^\s@]. */
  lemma PatternHasNoWhitespace(s: string, a: int, d: int)
    requires && 0 <= a < d < |s| && s[a] == '@' && s[d] == '.'
             && PlainRun(s[..a]) && PlainRun(s[a + 1..d]) && PlainRun(s[d + 1..])
    ensures HasNoWhitespace(s)
    ensures forall k :: 0 <= k < |s| && k != a ==> s[k] != '@'
  {
    forall k | 0 <= k < |s| && k != a ensures !IsWhitespace(s[k]) && s[k] != '@' {
      if k < a {
        assert s[..a][k] == s[k];
      } else if k < d {
        assert s[a + 1..d][k - a - 1] == s[k];
      } else if k > d {
        assert s[d + 1..][k - d - 1] == s[k];
      }
    }
  }

  // ---------------------------------------------------------------------
  // The validation chain
  // ---------------------------------------------------------------------

  /** The checks of the submit handler, in order; the first failure wins. */
  function Validate(email: string, password: string, confirmPassword: string): Option<ValidationError> {
    if email == "" || password == "" || confirmPassword == "" then Some(MissingField)
    else if password != confirmPassword then Some(PasswordMismatch)
    else if |password| < MinPasswordLength then Some(PasswordTooShort)
    else if !EmailScan(email) then Some(InvalidEmail)
    else None
  }

  /** Which failure is reported: a missing field before anything else, then
      a confirmation that differs, then a password shorter than 8, then an
      e-mail outside the pattern; a submission passes exactly when the
      password is long enough, confirmed, and the e-mail matches. */
  lemma ValidationOrder(email: string, password: string, confirmPassword: string)
    ensures var r := Validate(email, password, confirmPassword);
      && (r == Some(MissingField) <==> email == "" || password == "" || confirmPassword == "")
      && (r == Some(PasswordMismatch) <==>
           email != "" && password != "" && confirmPassword != "" && password != confirmPassword)
      && (r == Some(PasswordTooShort) <==>
           email != "" && password != "" && password == confirmPassword && |password| < MinPasswordLength)
      && (r == Some(InvalidEmail) <==>
           email != "" && password == confirmPassword && |password| >= MinPasswordLength && !EmailPattern(email))
      && (r == None <==>
           password == confirmPassword && |password| >= MinPasswordLength && EmailPattern(email))
  {
    EmailScanMatchesPattern(email);
  }

  /** `email.trim().toLowerCase()`, the address sent to account creation. */
  function NormalizeEmail(email: string): string {
    ToLowerCase(Trim(email))
  }

  /** A validated address has no surrounding whitespace, so normalising it
      only lower-cases it; the result keeps its length and still matches the
      pattern. */
  lemma NormalizeValidatedEmail(email: string)
    requires EmailPattern(email)
    ensures NormalizeEmail(email) == ToLowerCase(email)
    ensures |NormalizeEmail(email)| == |email|
    ensures EmailPattern(NormalizeEmail(email))
  {
    PatternGivesScan(email);
    TrimProperties(email);
    LowerKeepsPattern(email);
  }

  /** Lower-casing maps each of the three runs to a run and keeps '@' and '.'. */
  lemma LowerKeepsPattern(s: string)
    requires EmailPattern(s)
    ensures EmailPattern(ToLowerCase(s))
  {
    var lower := ToLowerCase(s);
    var at, dot :| && 0 <= at < dot < |s| && s[at] == '@' && s[dot] == '.'
                   && PlainRun(s[..at]) && PlainRun(s[at + 1..dot]) && PlainRun(s[dot + 1..]);
    ToLowerCaseSlice(s, 0, at);
    ToLowerCaseSlice(s, at + 1, dot);
    ToLowerCaseSlice(s, dot + 1, |s|);
    assert s[..at] == s[0..at] && lower[..at] == lower[0..at];
    assert s[dot + 1..] == s[dot + 1..|s|] && lower[dot + 1..] == lower[dot + 1..|s|];
    LowerKeepsPlainRun(s[..at]);
    LowerKeepsPlainRun(s[at + 1..dot]);
    LowerKeepsPlainRun(s[dot + 1..]);
    assert lower[at] == '@' && lower[dot] == '.';
  }

  lemma LowerKeepsPlainRun(t: string)
    requires PlainRun(t)
    ensures PlainRun(ToLowerCase(t))
  {
    forall k | 0 <= k < |t| ensures !IsWhitespace(ToLowerCase(t)[k]) && ToLowerCase(t)[k] != '@' {
      LowerCharKeepsSeparators(t[k]);
    }
  }

  /** Normalising twice is normalising once. */
  lemma NormalizeEmailIdempotent(email: string)
    ensures NormalizeEmail(NormalizeEmail(email)) == NormalizeEmail(email)
  {
    var t := Trim(email);
    TrimProperties(email);
    var lower := ToLowerCase(t);
    forall k | 0 <= k < |t| ensures IsWhitespace(lower[k]) <==> IsWhitespace(t[k]) {
      LowerCharKeepsSeparators(t[k]);
    }
    if lower != [] {
      assert !IsWhitespace(lower[0]) && !IsWhitespace(lower[|lower| - 1]);
      TrimOfTrimmed(lower);
    } else {
      TrimProperties(lower);
    }
    ToLowerCaseIdempotent(t);
  }

  /** A string that neither starts nor ends with whitespace is its own trim. */
  lemma TrimOfTrimmed(s: string)
    requires s != [] && !IsWhitespace(s[0]) && !IsWhitespace(s[|s| - 1])
    ensures Trim(s) == s
  {
    assert TrimStart(s) == s;
    assert TrimEnd(s) == s;
  }

  /** Whenever account creation is reached, the password has at least 8
      characters and equals its confirmation, and the address sent is the
      lower-cased input, which matches the pattern. */
  lemma AcceptedSubmission(email: string, password: string, confirmPassword: string)
    requires Validate(email, password, confirmPassword) == None
    ensures |password| >= MinPasswordLength && password == confirmPassword
    ensures NormalizeEmail(email) == ToLowerCase(email) && EmailPattern(NormalizeEmail(email))
  {
    ValidationOrder(email, password, confirmPassword);
    NormalizeValidatedEmail(email);
  }

  // ---------------------------------------------------------------------
  // Exceptions from account creation
  // ---------------------------------------------------------------------

  /** A thrown value: an `Error` with its message, or anything else. */
  datatype Thrown = ErrorValue(message: string) | OtherValue

  /** The message shown when account creation throws. A thrown value that
      is not an `Error` counts as the empty message. */
  function CaughtMessage(err: Thrown): string {
    var message := if err.ErrorValue? then err.message else "";
    if Includes(message, "duplicate") || Includes(message, "already exists") then DuplicateAccountMessage
    else RetryMessage
  }

  /** The duplicate-account message is chosen exactly when the thrown value
      is an `Error` whose message contains "duplicate" or "already exists";
      every other exception gets the generic retry message. */
  lemma CaughtMessageChoice(err: Thrown)
    ensures CaughtMessage(err) == DuplicateAccountMessage || CaughtMessage(err) == RetryMessage
    ensures CaughtMessage(err) == DuplicateAccountMessage <==>
      err.ErrorValue? &&
      ((exists i :: OccursAt(err.message, "duplicate", i)) || (exists i :: OccursAt(err.message, "already exists", i)))
  {
    var message := if err.ErrorValue? then err.message else "";
    IncludesOccurs(message, "duplicate");
    IncludesOccurs(message, "already exists");
    if !err.ErrorValue? {
      assert !OccursAt(message, "duplicate", 0);
    }
  }

  // ---------------------------------------------------------------------
  // The dialog's state and its submit handler
  // ---------------------------------------------------------------------

  /** A call made to the account back end. */
  datatype BackendCall = RegisterPremium(email: string, password: string)

  /** How the awaited account creation ends: it resolves to a truthy or a
      falsy value, or it throws. */
  datatype CreationOutcome = Resolved(truthy: bool) | Rejected(err: Thrown)

  /** The dialog's state. The ghost sequences record every call of the
      `error` and `loading` setters and every back-end call. */
  class RegisterForm {
    var email: string
    var password: string
    var confirmPassword: string
    var loading: bool
    var error: string
    var success: bool
    ghost var errorWrites: seq<string>
    ghost var loadingWrites: seq<bool>
    ghost var calls: seq<BackendCall>

    constructor ()
      ensures email == "" && password == "" && confirmPassword == ""
      ensures !loading && error == "" && !success
      ensures errorWrites == [] && loadingWrites == [] && calls == []
    {
      email, password, confirmPassword := "", "", "";
      loading, error, success := false, "", false;
      errorWrites, loadingWrites, calls := [], [], [];
    }

    /** `handleSubmit`. The error is cleared first. A validation failure
        shows its message and returns: no back-end call, `loading` never
        written. Otherwise `loading` goes up, account creation is called
        once with the normalised address and the password, and `loading`
        comes down again on every path. */
    method HandleSubmit(outcome: CreationOutcome)
      modifies this`error, this`loading, this`success, this`errorWrites, this`loadingWrites, this`calls
      ensures Validate(email, password, confirmPassword).Some? ==>
        && error == ValidationMessage(Validate(email, password, confirmPassword).value)
        && errorWrites == old(errorWrites) + ["", error]
        && loading == old(loading) && loadingWrites == old(loadingWrites)
        && calls == old(calls) && success == old(success)
      ensures Validate(email, password, confirmPassword).None? ==>
        && calls == old(calls) + [RegisterPremium(NormalizeEmail(email), password)]
        && !loading && loadingWrites == old(loadingWrites) + [true, false]
      ensures Validate(email, password, confirmPassword).None? && outcome == Resolved(true) ==>
        success && error == "" && errorWrites == old(errorWrites) + [""]
      ensures Validate(email, password, confirmPassword).None? && outcome == Resolved(false) ==>
        && success == old(success) && error == CreationFailedMessage
        && errorWrites == old(errorWrites) + ["", CreationFailedMessage]
      ensures Validate(email, password, confirmPassword).None? && outcome.Rejected? ==>
        && success == old(success) && error == CaughtMessage(outcome.err)
        && errorWrites == old(errorWrites) + ["", error]
    {
      error, errorWrites := "", errorWrites + [""];
      var v := Validate(email, password, confirmPassword);
      if v.Some? {
        var m := ValidationMessage(v.value);
        error, errorWrites := m, errorWrites + [m];
        assert errorWrites == old(errorWrites) + ["", m];
      } else {
        loading, loadingWrites := true, loadingWrites + [true];
        calls := calls + [RegisterPremium(NormalizeEmail(email), password)];
        match outcome {
          case Resolved(truthy) =>
            if truthy {
              success := true;
              assert errorWrites == old(errorWrites) + [""];
            } else {
              error, errorWrites := CreationFailedMessage, errorWrites + [CreationFailedMessage];
              assert errorWrites == old(errorWrites) + ["", CreationFailedMessage];
            }
          case Rejected(err) =>
            var m := CaughtMessage(err);
            error, errorWrites := m, errorWrites + [m];
            assert errorWrites == old(errorWrites) + ["", m];
        }
        loading, loadingWrites := false, loadingWrites + [false];
        assert loadingWrites == old(loadingWrites) + [true, false];
      }
    }
  }
}
