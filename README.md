# User registration form: a Dafny model

This project models the validation core of a small PHP/JavaScript user
registration form.

It has two sides:

- **The server class `RegistrationSystem`** (RegistrationSystem.php). It holds:
  - a five-field rule table (first name, last name, e-mail, account number, year);
  - a sanitiser that trims and HTML-escapes every posted value;
  - a per-field validator that writes messages into an error map;
  - a whole-form validator that records the sanitised values;
  - a per-session anti-forgery token;
  - `processForm`, whose outcome is `false`, `'validation_passed'` or `true`.
- **The browser's `FormManager`** (script.js). It holds:
  - a mirror of the rule table and its field check, run on the trimmed input value;
  - the field labels;
  - the account-number normaliser and its dash-grouped preview;
  - the flow of the verification modal: open, cancel, confirm and submit.

Files:

- `wrappers.dfy`: the `Option` type.
- `charset.dfy`: the character classes both sides share. It also holds the name and account patterns, and a generic trim with its properties.
- `server.dfy`: module `Server`. The pure parts are functions. The `RegistrationSystem` class keeps `errors`, `formData` and `successMessage` as fields that its methods update. The session's token is a field of a `Session` object.
- `client.dfy`: module `Client`. The pure checks, the normaliser and the preview are functions. `FormManager` is a class whose fields stand for the parts of the page its methods change.
- `divergence.dfy`: module `Divergence`. Lemmas that state where the two sides agree and where they disagree on the same submitted value.

Three things are parameters of the model:

- PHP's `FILTER_VALIDATE_EMAIL` filter is the function `validEmail`, given to the constructor.
- The fresh token from `bin2hex(random_bytes(32))` is an argument required to be 64 lower-case hex digits.
- The request is a `Request` value holding the method and the posted fields.

`processForm`'s three results are the `Outcome` values `Failed`, `ValidationPassed` and `Succeeded`. The page treats only `Succeeded` as a completed registration (registration.php:62, `=== true`).

## Model

| member | source | states |
|---|---|---|
| Charset.TrimSlice | RegistrationSystem.php:72 | trimming removes a prefix and a suffix made only of stripped characters and keeps the middle as it is |
| Charset.TrimEnds | script.js:107 | a trimmed text neither starts nor ends with a stripped character |
| Charset.TrimKeeps | RegistrationSystem.php:72 | a character that trim does not strip survives trimming |
| Charset.TrimIdempotent | script.js:107 | trimming twice is trimming once |
| Server.Ucfirst | RegistrationSystem.php:87 | `ucfirst` upper-cases a leading lower-case ASCII letter, keeps the rest, and keeps the length |
| Server.PhpTrim | RegistrationSystem.php:72 | `trim` never lengthens the text, and the result neither starts nor ends with one of PHP's six trimmed characters |
| Server.PhpEmpty | RegistrationSystem.php:86 | `empty` holds for "" and "0", and no PHP-empty value satisfies the name pattern, the account pattern or the year list |
| Server.HtmlEscape | RegistrationSystem.php:72 | the escaped text has no `<`, `>`, `"` or `'`, and text without the five special characters is returned unchanged |
| Server.UnescapeEscape | RegistrationSystem.php:72 | escaping loses nothing: unescaping the five entities gives the text back |
| Server.EscapeKeepsAmpersand | RegistrationSystem.php:72 | any special character in the input leaves a `&` in the output |
| Server.Sanitize | RegistrationSystem.php:68-73 | `sanitizeInput` yields no `<`, `>`, `"` or `'`; a trimmed value without specials comes back unchanged; unescaping the result gives the trimmed input |
| Server.SanitizeClean | RegistrationSystem.php:68-73 | a value with nothing to trim and nothing to escape is unchanged by sanitising |
| Server.SanitizedApostrophe | RegistrationSystem.php:72 | a raw apostrophe always leaves a `&` (from `&#039;`) in the sanitised value |
| Server.UnknownFieldPasses | RegistrationSystem.php:79-81 | a name outside the rule table always validates |
| Server.FieldCheck | RegistrationSystem.php:78-115 | `validateField`'s decision: only a field of the table can fail; a PHP-empty failure stores `ucfirst(name) . ' is required'`, any other failure the rule's fixed message |
| Server.FirstNameCheck | RegistrationSystem.php:16-20 | first name: PHP-empty gives "FirstName is required"; otherwise it passes exactly when it matches the name pattern, else it gets the rule's message |
| Server.LastNameCheck | RegistrationSystem.php:21-25 | last name: the same, with "LastName is required" and the last-name message |
| Server.EmailCheck | RegistrationSystem.php:96-100 | e-mail: PHP-empty gives "Email is required"; otherwise it passes exactly when the e-mail filter accepts it |
| Server.AccountNumberCheck | RegistrationSystem.php:30-34 | account number: PHP-empty gives "AccountNumber is required"; otherwise it passes exactly on 12 ASCII letters or digits |
| Server.YearCheck | RegistrationSystem.php:108-112 | year: PHP-empty gives "Year is required"; otherwise it passes exactly when it is one of 2025 to 2021 |
| Server.FieldCheckByField | RegistrationSystem.php:78-115 | the verdict and stored message of `validateField` for each of the five fields |
| Server.FieldPassesExactly | RegistrationSystem.php:103-112 | each field passes if and only if its pattern, list or filter accepts it ("" and "0" are accepted by none) |
| Server.AmpersandNotName | RegistrationSystem.php:18 | no text containing `&` matches the name pattern |
| Server.ServerRejectsApostrophe | RegistrationSystem.php:125 | a raw first or last name with an apostrophe always fails, because it is matched after escaping |
| Server.CollectErrorsSpec | RegistrationSystem.php:124-131 | after visiting names in order, each visited name's entry is its verdict and no other key is present |
| Server.CollectValuesSpec | RegistrationSystem.php:124-126 | after visiting names in order, each visited name maps to its value and no other key is present |
| Server.ErrorsStep | RegistrationSystem.php:128-130 | one loop pass extends the error map by that field's verdict; a pass leaves it unchanged and a failure leaves it non-empty |
| Server.ValuesStep | RegistrationSystem.php:125-126 | one loop pass records that field's sanitised value, or "" when the field is absent |
| Server.FormErrorsSpec | RegistrationSystem.php:120-134 | `validateForm`'s error keys are field names of the table, and every field's entry is exactly its own verdict (no short-circuit) |
| Server.FormValuesSpec | RegistrationSystem.php:124-126 | `validateForm` records for every field, and for no other key, the sanitised posted value or "" when it is absent |
| Server.RequiredWhenEmpty | RegistrationSystem.php:86-89 | every table field with a PHP-empty value ("" or "0") gets exactly `ucfirst(name) . ' is required'` |
| Server.MissingFieldRequired | RegistrationSystem.php:125 | a field missing from the post is in the error map with its "is required" message |
| Server.NoErrorsWhenAllPass | RegistrationSystem.php:120-134 | when every field passes, the error map is empty |
| Server.CleanSubmissionPasses | RegistrationSystem.php:120-134 | clean values that pass their rules yield no errors, and the form data holds them as sent |
| Server.TokenIssuedOnce | RegistrationSystem.php:49-53 | a token is stored only when none is set; once set, issuing again never changes it |
| Server.IssueToken | RegistrationSystem.php:49-53 | after `generateCSRFToken` the session always holds a token, and a token already set is kept |
| Server.TokenAccepted | RegistrationSystem.php:58-63 | `validateCSRFToken` accepts exactly when the session holds a token equal to the submitted one and the submitted one is not PHP-empty |
| Server.TokenCheck | RegistrationSystem.php:58-63 | no session token, or a PHP-empty or different submitted token, is refused; a non-empty equal token is accepted, and a freshly issued one always is |
| Server.RegistrationSystem.constructor | RegistrationSystem.php:42-44 | starts with no errors, no form data and no success message, and issues the session token if none is set |
| Server.RegistrationSystem.GenerateCSRFToken | RegistrationSystem.php:49-53 | the session's token is set to the fresh token exactly when none was set |
| Server.RegistrationSystem.ValidateField | RegistrationSystem.php:78-115 | returns true exactly when the field passes; a failure stores the field's message, and a pass leaves `errors` alone |
| Server.RegistrationSystem.ValidateForm | RegistrationSystem.php:120-134 | `errors` becomes the error map of all five fields from scratch; the five sanitised values are added to `formData`; the result is true exactly when `errors` is empty |
| Server.RegistrationSystem.VisitField | RegistrationSystem.php:124-131 | one loop pass keeps the invariants: `errors` and `formData` equal the folds over the fields visited so far |
| Server.RegistrationSystem.ProcessForm | RegistrationSystem.php:139-167 | non-POST: `false`, nothing changes; bad token: `false`, only `errors['general']` set to the security message; otherwise the form's errors, then `false`, `'validation_passed'` (form data kept) or `true` (success message set, form data cleared) |
| Server.RegistrationSystem.HandleSuccessfulSubmission | RegistrationSystem.php:172-193 | returns `true`, sets the fixed success message and empties `formData` |
| Server.RegistrationSystem.HasErrors | RegistrationSystem.php:212-214 | `hasErrors` holds exactly when some key has an error recorded (`hasFieldError`) |
| Server.RegistrationSystem.GettersAgree | RegistrationSystem.php:196-234 | the getters give one consistent view: `hasErrors` iff the error map is non-empty; `hasGeneralError`/`getGeneralError` are the field getters at "general"; `getFieldError`/`getFieldValue` return the entry or "" when absent; the page's own token (`getCSRFToken`) passes the token check exactly when the session holds a non-empty token |
| Client.AtIndex | script.js:29 | the position of the first `@`, or the length when there is none |
| Client.JsTrim | script.js:107 | `trim` never lengthens the text, and the result neither starts nor ends with white space |
| Client.MatchesEmail | script.js:29 | the e-mail pattern; an accepted text holds an `@` and is at least five characters long |
| Client.EmailMatchHasShape | script.js:29 | a text the e-mail pattern accepts has no white space, one `@` not at the start, and a dot after it with text on both sides |
| Client.OthersAreEmailChars | script.js:29 | in a white-space-free text whose only `@` is at `i`, both sides of `i` are runs of `[^\s@]` |
| Client.EmailShapeMatches | script.js:29 | every text of that shape is accepted by the e-mail pattern |
| Client.EmailPatternMeaning | script.js:29 | the e-mail pattern accepts a text if and only if it has that shape |
| Client.DisplayName | script.js:162-171 | a name without a label is shown as it is; each of the five fields is shown by a label starting with a capital letter |
| Client.DisplayNames | script.js:162-171 | each of the five fields has a label different from its key; every other name is shown as it is |
| Client.FieldVerdict | script.js:112-124 | only a field of the table can fail; an empty value fails with "<display name> is required", a non-empty one with its rule's message |
| Client.ClientCheck | script.js:105-128 | `validateField` on the raw value: only a field of the table can fail, and one that trims to nothing always fails |
| Client.ClientUnknownPasses | script.js:108-110 | a name without a rule always passes |
| Client.ClientRequired | script.js:116-119 | a value that trims to nothing fails with "<display name> is required" |
| Client.ClientIgnoresSurroundingSpace | script.js:107 | surrounding white space never changes the verdict |
| Client.ClientFirstName | script.js:15-20 | first name: "" is required; otherwise it passes exactly when it matches the name pattern, else it gets the rule's message |
| Client.ClientLastName | script.js:21-26 | last name: the same, with the last-name message |
| Client.ClientEmail | script.js:27-31 | e-mail: "" is required; otherwise it passes exactly when it matches the e-mail pattern |
| Client.ClientAccountNumber | script.js:32-36 | account number: "" is required; otherwise it passes exactly on 12 ASCII letters or digits |
| Client.ClientYear | script.js:37-40 | year: only "" fails; any non-empty year passes |
| Client.UpperCase | script.js:178 | `toUpperCase` on ASCII, character by character, keeping the length |
| Client.KeepUpperAlnum | script.js:178 | the replace keeps only `[A-Z0-9]` and never lengthens the text |
| Client.KeepUpperAlnumAppend | script.js:178 | the replace works character by character: a concatenation is filtered part by part |
| Client.KeepUpperAlnumChar | script.js:178 | one character is kept exactly when it is in `[A-Z0-9]` |
| Client.KeepUpperAlnumKeeps | script.js:178 | no `[A-Z0-9]` character is lost |
| Client.UpperCaseAppend | script.js:178 | upper-casing a concatenation upper-cases each part |
| Client.FormatAccount | script.js:178 | the normalised value holds only `[A-Z0-9]` and is never longer than what was typed |
| Client.FormatAccountByChar | script.js:176-183 | the normaliser works part by part, and one character becomes its upper-case form if it is an ASCII letter or digit and disappears otherwise |
| Client.FormatAccountKeeps | script.js:177-178 | every letter and digit typed survives, upper-cased |
| Client.FormatAccountDropsSeparator | script.js:177-179 | a typed separator (dash, space, anything but an ASCII letter or digit) is dropped and the text on both sides is kept, so "ab-12 cd" becomes "AB12CD" |
| Client.FormatAccountKeepsAlnum | script.js:176-183 | the normaliser yields only `[A-Z0-9]`; an input of ASCII letters and digits is upper-cased in full, never cut to 12 |
| Client.FormatAccountIdempotent | script.js:178 | normalising twice is normalising once |
| Client.FormattedAccountMatches | script.js:178 | a normalised value matches the account pattern exactly when it is 12 long |
| Client.RunLength | script.js:192 | `.{1,4}` takes the longest run of up to four characters that are not line terminators |
| Client.DotChunks | script.js:192 | `match(/.{1,4}/g)`: no matches for "", and every match is 1 to 4 characters long |
| Client.ChunkShape | script.js:192 | on text without line terminators, the matches cover the text in order: all are 4 long except the last, which is 1 to 4 long |
| Client.PreviewUndash | script.js:188-199 | removing the dashes from the preview of a dash-free value gives the value back |
| Client.PreviewTwelve | script.js:190-194 | a 12-character value is shown as `XXXX-XXXX-XXXX` |
| Client.PreviewEmpty | script.js:195-197 | an empty value shows the placeholder text |
| Client.PreviewOfFormatted | script.js:176-192 | the preview of any non-empty normalised value gives that value back once its dashes are removed |
| Client.FormManager.constructor | script.js:48-56 | the page loads with the modal closed and `confirmed` set to "false"; the preview shows the loaded account number or the placeholder |
| Client.FormManager.ValidateField | script.js:105-128 | the verdict is true exactly when the trimmed value passes its rule |
| Client.FormManager.ValidateForm | script.js:204-217 | true exactly when every required input passes, with every input checked |
| Client.FormManager.HandleSubmit | script.js:222-235 | the modal opens when the form passes and is left as it was otherwise; the submission invariant holds |
| Client.FormManager.CloseVerificationModal | script.js:283-288 | cancelling only hides the modal |
| Client.FormManager.ConfirmSubmission | script.js:293-306 | shows the spinner, sets `confirmed` to "true" and submits; a submission always carries `confirmed` "true" |
| Client.FormManager.FormatAccountNumber | script.js:176-183 | the account input becomes its normalised value, no other input changes, and the preview shows it |
| Client.FormManager.UpdateAccountPreview | script.js:188-199 | the preview shows the dash-grouped value, or the placeholder for an empty value |
| Divergence.RequiredMessagesDiffer | RegistrationSystem.php:87 | for each empty field the server's and the browser's "is required" texts differ, except for the year |
| Divergence.ZeroDiffers | RegistrationSystem.php:86 | "0" is required on every field for the server; the browser accepts it as a year and applies the patterns to the other fields |
| Divergence.YearDiffers | RegistrationSystem.php:109 | every non-blank year outside the server's list passes the browser and fails the server |
| Divergence.YearExample | RegistrationSystem.php:37 | "1999" passes the browser and fails the server |
| Divergence.ApostropheDiffers | RegistrationSystem.php:125 | every name with an apostrophe that the browser accepts is refused by the server |
| Divergence.ApostropheExample | RegistrationSystem.php:18 | "O'Neil" passes the browser and fails the server |
| Divergence.FormFeedDiffers | RegistrationSystem.php:72 | a valid account number after a form feed passes the browser (which trims it) and fails the server (whose trim keeps it) |
| Divergence.FormFeedExample | RegistrationSystem.php:72 | one such value, form feed followed by AB12CD34EF56 |
| Divergence.AccountAgrees | RegistrationSystem.php:32 | on a value with nothing to trim or escape, the two sides accept the same account numbers |
| Divergence.NameAgrees | RegistrationSystem.php:18 | on such a value, the two sides accept the same first and last names |

## Left out

- Server.FieldCheck: the year list is checked by exact membership. PHP's `in_array` compares loosely, so for example "2025.0" or "02025" would also be accepted; this is not modelled.
- Server.YearCheck and Server.FieldPassesExactly: state the year check under the same exact-membership reading as Server.FieldCheck.
- Divergence.YearDiffers: inherits the exact-membership reading. In the real program a year such as "2025.0" is off the list as text but passes `in_array`, so it passes both sides. Divergence.YearExample ("1999") fails under either reading.
- Client.DisplayName and Client.DisplayNames: `displayNames` is an object literal, so in the real program a name such as "toString", "constructor" or "__proto__" gets the member inherited from `Object.prototype`, not the name itself. The model returns the name for every name outside the table. `validateField` never asks for such a label, because those names have no rule.
- Server.RegistrationSystem.constructor: the fresh token is an argument that must be 64 lower-case hex digits. `random_bytes` and the session bootstrapping (`session_start`) are not part of this model.
- Client.ChunkShape: stated only for text without line terminators (line feed, carriage return, U+2028, U+2029), which is every ASCII value of a text input, since the browser removes line feeds and carriage returns from it. `DotChunks` itself models the skipping of line terminators that `.` does not match.
- Client.PreviewUndash and Client.PreviewTwelve: stated under the same condition as Client.ChunkShape.
- The e-mail filter `FILTER_VALIDATE_EMAIL` is a parameter (`validEmail`) with no properties of its own.
- `hash_equals` is modelled as string equality. Its constant-time guarantee cannot be stated here.
- Only ASCII text is modelled:
  - `\s` is space, tab, line feed, vertical tab, form feed and carriage return, the same on both sides;
  - PHP's `trim` strips space, tab, line feed, carriage return, NUL and vertical tab;
  - JavaScript's `trim` strips the same six characters as `\s`;
  - the Unicode white space under `/u`, Unicode `trim` and full-Unicode `toUpperCase` are not modelled.
- Array-valued posted fields (the `is_array` branch of `sanitizeInput`) are not modelled. A posted field is a string.
- The `RegistrationSystem` fields `sanitize` and `ruleNames` are constants the constructor fixes to the sanitiser and the table's field names. This keeps the loop proofs independent of the table's contents. A class built any other way is not modelled.
- Logging (`error_log`, `print_r`, `console.log`) is left out, because it changes no modelled state.
- DOM effects are left out: classes, styles, `innerHTML`, focus, error elements, event listeners and the modal's verification HTML. `FormManager` keeps only the input values, the preview text, the modal flag, the `confirmed` value, the spinner flag and the submitted flag.
- The inputs `validateForm` visits are the five required inputs of the page, in page order. `querySelectorAll` itself is not modelled.
- `confirmSubmission`'s `setTimeout` deferral and `processFormSubmission` are collapsed into one step that submits.
- `resetForm`, `resetToFreshForm` and the no-op `generateNewCSRFToken` are left out. They only reset DOM state and log.
- registration.php is not part of this model beyond noting that only `=== true` counts as success. It is the page that calls `processForm` and prints the getters.
- The getters `getErrors`, `getSuccessMessage`, `getFormData`, `getCSRFToken`, `getFieldError`, `getFieldValue`, `hasFieldError`, `hasGeneralError` and `getGeneralError` are functions on the class. What they return after each outcome is stated in `ProcessForm`'s postconditions.
