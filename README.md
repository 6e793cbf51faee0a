# pdfconvert core, modelled in Dafny

pdfconvert is a web application that turns Markdown into a downloadable PDF and
sells a premium account. This project models the three pieces of it that hold
logic of their own:

- **The converter** (`App.handleConvert`, `src/App.tsx`). The Markdown parser,
  the HTML-to-text step and jsPDF's line wrapper are foreign libraries. The
  model therefore starts from the wrapped lines. It covers the handler's own
  pagination loop: a cursor `y` starts at 20 and moves down 7 per line, and a
  new page is opened (with `y` back at 20) whenever `y` is past 280 before a
  line is drawn. The loop (`Converter.WriteLines`) is proved to build exactly a
  reference layout (`Converter.Layout`) defined by counting: consecutive pages
  of 38 lines. Lemmas about that layout give the page count (`ceil(n / 38)`,
  and one page for no lines), the page sizes, the position of every line, and
  the margins. The handler's blank-input guard, its `isConverting` flag and
  the convert button's enable rule are modelled too.
- **The registration dialog** (`RegisterModal.handleSubmit`). Modelled: its
  ordered validation chain, the language of its e-mail regular expression
  `/^[^\s@]+@[^\s@]+\.[^\s@]+$/` (proved equal to a scan-based test), the
  e-mail normalisation `trim().toLowerCase()`, the mapping from a thrown error
  to a message, and the state updates around the awaited account creation.
- **The password-setup page** (`SetupPassword`). Modelled: its validation
  chain, which checks the same two conditions as the dialog in the opposite
  order; its submit handler with the hash, store and login steps; and its
  session-verification effect.

React state setters are modelled as field assignments. Ghost sequences record
every call of the `error` and `loading` setters of both forms and of the
converter's `isConverting` setter, every `navigate` target except the
delayed one after a successful setup, and every back-end call. That is how "never set", "cleared
first" and "not called" are stated. Awaited back-end results and thrown
exceptions are parameters of the handlers.

Files: `wrappers.dfy` (Option), `js_text.dfy` (the JavaScript string
operations used: `trim`, `\s`, `toLowerCase`, `includes`, and a first-index
search that states the e-mail test as a scan),
`converter.dfy`, `register_modal.dfy`, `setup_password.dfy`.

## Model

| member | source | states |
|---|---|---|
| `Converter.LayoutPageCount` | src/App.tsx:17-33 | the document has 1 page for no lines and ceil(n/38) pages for n >= 1 lines |
| `Converter.LayoutPageSizes` | src/App.tsx:24-33 | every page but the last holds exactly 38 lines; the last holds at most 38, and at least 1 when there are lines |
| `Converter.LayoutDrawsEachLineOnce` | src/App.tsx:26-33 | reading the draws page after page gives back the input lines: each drawn exactly once, in order |
| `Converter.LayoutPosition` | src/App.tsx:26-33 | line i is drawn on page i/38 at x = 15, y = 20 + 7·(i mod 38) |
| `Converter.LayoutWithinMargins` | src/App.tsx:24-32 | every draw is at x = 15 with 20 <= y <= 280 |
| `Converter.LayoutConsecutive` | src/App.tsx:27-32 | the next line is either 7 lower on the same page, or opens the next page at y = 20 after the cursor went past 280 |
| `Converter.LayoutAppend` | src/App.tsx:26-33 | one more line extends the last page at y = 20 + 7·(lines on it), or opens a new page at y = 20 when the last page is full |
| `Converter.Pdf.constructor` | src/App.tsx:17 | a new document has one empty page |
| `Converter.Pdf.AddPage` | src/App.tsx:28 | appends an empty page, which becomes the current one |
| `Converter.Pdf.Text` | src/App.tsx:31 | appends a draw to the current (last) page and changes no other page |
| `Converter.WriteLines` | src/App.tsx:23-33 | the cursor loop over the lines builds exactly the 38-lines-per-page reference layout |
| `Converter.App.constructor` | src/App.tsx:7-8 | the editor starts empty and no conversion is in progress |
| `Converter.App.SetMarkdown` | src/App.tsx:72 | the editor's change handler stores the new text |
| `Converter.App.ConvertDisabled` | src/App.tsx:96 | the button is disabled iff the input is whitespace only or a conversion is in progress |
| `Converter.App.HandleConvert` | src/App.tsx:10-41 | blank input: nothing saved and the flag never written; otherwise the flag is set then cleared on every path, and without an exception the saved document is the reference layout of the lines |
| `JsText.TrimProperties` | src/App.tsx:11 | `trim` yields the part of the input between its leading and its trailing whitespace, which neither starts nor ends with whitespace; it is empty iff the input is blank, and the input itself when it has no whitespace |
| `JsText.IncludesOccurs` | src/components/RegisterModal.tsx:70 | `includes` holds iff the substring occurs at some index |
| `RegisterModal.EmailScanMatchesPattern` | src/components/RegisterModal.tsx:40-41 | the regex accepts exactly the strings with no whitespace, exactly one '@' with something before it, and a '.' after it that is neither first nor last there |
| `RegisterModal.ValidationOrder` | src/components/RegisterModal.tsx:21-44 | first failure wins, in the order missing field, mismatch, length < 8, bad e-mail; a submission passes iff the password is confirmed, at least 8 long, and the e-mail matches |
| `RegisterModal.NormalizeValidatedEmail` | src/components/RegisterModal.tsx:40-49 | on a validated e-mail, `trim` changes nothing, so normalising only lower-cases it; length and pattern are kept |
| `RegisterModal.NormalizeEmailIdempotent` | src/components/RegisterModal.tsx:49 | normalising twice is normalising once |
| `RegisterModal.AcceptedSubmission` | src/components/RegisterModal.tsx:29-49 | when account creation is reached, the password has length >= 8 and equals the confirmation, and the address sent is the lower-cased input, still matching the pattern |
| `RegisterModal.CaughtMessageChoice` | src/components/RegisterModal.tsx:69-74 | the duplicate-account message iff the thrown Error's message contains "duplicate" or "already exists", the retry message otherwise |
| `RegisterModal.RegisterForm.constructor` | src/components/RegisterModal.tsx:12-17 | all fields empty, not loading, no error, no success |
| `RegisterModal.RegisterForm.HandleSubmit` | src/components/RegisterModal.tsx:19-78 | error cleared first; a validation failure shows its message, with no call and `loading` never written; otherwise one call with the normalised e-mail, `loading` set then cleared on every path, and the message chosen by the outcome |
| `SetupPassword.ValidationOrder` | src/pages/SetupPassword.tsx:63-72 | length first, then mismatch; passes iff length >= 8 and confirmed |
| `SetupPassword.ShortMismatchReportedDifferently` | src/pages/SetupPassword.tsx:64-72 | when the handlers are called on a short, mismatched password, the dialog's reports a mismatch and this page's reports the length, so the two show different messages |
| `SetupPassword.PasswordRulesAgree` | src/pages/SetupPassword.tsx:64-72 | for an e-mail matching the pattern, the page and the dialog accept exactly the same password pairs |
| `SetupPassword.AttemptedCalls` | src/pages/SetupPassword.tsx:76-103 | the calls are a prefix of hash, store, login that starts with the hash; the store is reached iff hashing succeeded, and the login iff hashing and storing succeeded |
| `SetupPassword.SetupPasswordPage.constructor` | src/pages/SetupPassword.tsx:10-15 | empty fields, no error, not loading, `verifying` true |
| `SetupPassword.SetupPasswordPage.VerifySession` | src/pages/SetupPassword.tsx:17-57 | a missing session id redirects to '/' with no check and no error write; a payload without e-mail writes 'Session invalide' once; an exception writes the verification error once; a customer with a password is sent to '/success'; `verifying` ends false whenever the check ran |
| `SetupPassword.SetupPasswordPage.HandleSubmit` | src/pages/SetupPassword.tsx:59-110 | the error is cleared first; a validation failure writes its message and returns before `loading` and before any service call; otherwise the calls are the attempted prefix, any failure writes the single setup-failure message, and `loading` goes up then down on every path |

## Left out

- `handleConvert` draws plain wrapped lines in jsPDF's default font; it lays out no headings, lists, code blocks, borders or page furniture, so neither does the model.
- Markdown parsing (`marked.parse`), the HTML-to-text step and jsPDF's `splitTextToSize`: foreign libraries. The wrapped lines are a parameter of `HandleConvert`, and `parseThrows` stands for an exception from them.
- `pdf.save` writes a file: the model returns the document that would be saved. Exceptions thrown by jsPDF during drawing are not modelled separately from `parseThrows`.
- The Markdown preview pane (`marked.parse` rendered as HTML), all markup, styling and advertising slots: display only.
- Network and storage: `fetch`, Supabase queries and updates, bcrypt hashing, `loginPremium` and `registerPremium` are represented by their outcome, passed as a parameter, and by a record of the calls made.
- `localStorage` writes, `setTimeout` delays, the navigation scheduled after a successful setup, the `console.error` logging in every catch block (src/App.tsx:37, src/components/RegisterModal.tsx:67, src/pages/SetupPassword.tsx:49 and :105), and the dialog's `onRegisterSuccess`/`onClose` callbacks: side effects outside the page's state.
- The success path of the registration dialog reads `sessionToken` and `email` from the result of `registerPremium` (src/lib/auth.ts:119), which returns an object `{success, user, error}`. The model records only whether that result is truthy, which is the only thing the dialog tests. What `registerPremium` itself does is not part of this model.
- Controlled-input change handlers of the two forms: the model reads the fields as they are when the form is submitted.
- The browser's constraint validation in front of both submit handlers: the `required` attributes (src/components/RegisterModal.tsx:130,146,163 and src/pages/SetupPassword.tsx:168,186), `minLength={8}` (src/components/RegisterModal.tsx:148,165 and src/pages/SetupPassword.tsx:170,188) and `type="email"` (src/components/RegisterModal.tsx:124). For empty fields or a too-short typed value the browser does not fire `submit`, so the missing-field and too-short branches cannot be reached by typing. The model covers the handlers as called; `SetupPassword.ShortMismatchReportedDifferently` is about the handlers, not about what a user filling in the forms sees.
- React's asynchronous state batching, stale closures and the development-mode double run of effects.
- `VerifySession` treats `data.email` as absent or a string. Other JSON values are not modelled.
- `JsText.ToLowerCase`: maps only the ASCII capitals, one character to one. JavaScript's full Unicode case mapping, which can change a string's length, is not modelled.
- `RegisterModal.NormalizeValidatedEmail`: its clause that normalising keeps the length holds only for the ASCII lower-casing modelled here. In JavaScript, `toLowerCase` maps U+0130 to two characters, so a matching address containing it becomes one character longer.
- String lengths count Unicode scalar values. JavaScript counts UTF-16 code units, so a password with characters outside the Basic Multilingual Plane is longer in the source than in the model.
- The other source files (authentication and Supabase helpers, Stripe and webhook endpoints, the welcome e-mail function, the login, upgrade and cookie dialogs, the legal, success and auth-callback pages, the premium banner, the router): back-end plumbing and UI.
