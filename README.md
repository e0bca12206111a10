# Contact form of the therapy-practice site, modelled in Dafny

This project models the one piece of behaviour on the practice's marketing
site: the contact section's form. The form keeps a record of five text fields
(`name`, `email`, `phone`, `subject`, `message`) and a consent flag
(`gdprConsent`). It also keeps an error map from field name to a Polish
message, a "submitting" flag and a "touched" flag.

The model has three modules:

- `Text` (`text.dfy`): ECMAScript white space and `String.prototype.trim`.
  The white-space set is the WhiteSpace production (section 12.2 of ECMA-262)
  plus the LineTerminator production (section 12.3 of ECMA-262). The regular
  expression class `\s` uses the same set.
- `Validation` (`validation.dfy`): the form record and the field names. It
  holds the e-mail pattern `/\S+@\S+\.\S+/` as an existence predicate
  (`EmailPattern`), proved equal to a literal reading of the regular
  expression. It holds the validator's specification: `ErrorOf` gives each
  field's message, and `Errors` is the whole error map. The lemmas state what
  the validator promises.
- `ContactForm` (`contact_form.dfy`): the class `ContactSection`. Its fields
  are the component's four pieces of state. Its methods are the handlers:
  `HandleChange`, `HandleCheckboxChange` and `HandleSubmit`. The body of the
  delayed submission callback is the method `CompleteSubmission`. The class
  also has the validator as a method that builds its map check by check, and
  the selectors the markup reads: the input border, the submit button's
  disabled flag and label, and the map frame's source. The object invariant
  `Valid()` says four things. Every key in `formErrors` is a key that
  `Errors(formData)` would produce now. Every message in `formErrors` is
  non-empty and one of the validator's five messages. No error is shown
  while a submission is in progress. Every handler keeps this invariant.

Three client methods at the end of `ContactForm` verify example event
sequences against the class contracts. One submits the blank form. One edits
a field after that failed submit. One fills in the form, submits it and
completes the submission.

The completion callback does not touch the error map.
`CompleteSubmission` leaves `formErrors` as it is. A submission starts only
from a passing submit, which finds the error map already empty, and the
invariant keeps it empty while the submission is in progress, because the
submit button is disabled then (src/components/ContactSection.tsx:298). So
`CompleteSubmission` proves that a completed submission ends with no errors.

## Model

| member | source | states |
|---|---|---|
| `Text.TrimStartSpec` | src/components/ContactSection.tsx:85 | leading trim drops only white space, and what it keeps is a suffix of the input that does not start with white space |
| `Text.TrimEndSpec` | src/components/ContactSection.tsx:85 | trailing trim drops only white space, and what it keeps is a prefix of the input that does not end with white space |
| `Text.Trim` | src/components/ContactSection.tsx:85 | `trim()` returns the slice of the input that has only white space before it and after it, and the result neither starts nor ends with white space |
| `Text.IsBlank` | src/components/ContactSection.tsx:85-88 | `!s.trim()` holds exactly when every character of `s` is ECMAScript white space (so "" and "  \n" are blank) |
| `Text.TrimEmptyIffAllWs` | src/components/ContactSection.tsx:85-88 | `trim()` returns "" exactly when the input is all white space |
| `Validation.FormData.With` | src/components/ContactSection.tsx:45 | replacing a text field sets that field, leaves every other text field and the consent flag unchanged |
| `Validation.EmailPattern` | src/components/ContactSection.tsx:87 | the e-mail test holds exactly when some slice of the input is a white-space-free run, `@`, a white-space-free run, `.`, and a white-space-free run, each run non-empty |
| `Validation.ShortestMatchIsRegex` | src/components/ContactSection.tsx:87 | a match whose first and last white-space-free runs are one character long exists exactly when `\S+@\S+\.\S+` matches some slice with runs of any length |
| `Validation.EmailPatternUnanchored` | src/components/ContactSection.tsx:87 | the test is unanchored: any text before and after a matching string keeps it matching |
| `Validation.MatchShifts` | src/components/ContactSection.tsx:87 | a shortest match in a string is a shortest match at the shifted positions once text is put before and after it |
| `Validation.EmailPatternAccepts` | src/components/ContactSection.tsx:87 | `"a@b.co"` matches the e-mail pattern |
| `Validation.EmailPatternRejects` | src/components/ContactSection.tsx:87 | `"not-an-email"` does not match the e-mail pattern |
| `Validation.EmailPatternNeedsAtAndDot` | src/components/ContactSection.tsx:87 | a match contains an `@` followed later by a `.`, and a matching string is never all white space |
| `Validation.ErrorOf` | src/components/ContactSection.tsx:85-89 | the phone and subject fields never get a message, and every message given is non-empty |
| `Validation.Errors` | src/components/ContactSection.tsx:82-92 | a field is a key of the error map exactly when its check fails, and its value is that check's message |
| `Validation.ErrorsEmptyIff` | src/components/ContactSection.tsx:82-98 | the error map is empty exactly when the trimmed name, e-mail and message are non-empty, the e-mail matches the pattern and consent is given |
| `Validation.PassesIffNotWhiteSpace` | src/components/ContactSection.tsx:85-89 | passing means: name and message not all white space, e-mail matching the pattern, consent given; the e-mail's non-blank check is implied by the pattern |
| `Validation.EmptyIffNoFieldFails` | src/components/ContactSection.tsx:85-91 | the error map is empty exactly when none of the name, e-mail, message and consent checks reports a message |
| `Validation.ErrorKeysChecked` | src/components/ContactSection.tsx:85-89 | the keys of the error map are always among name, email, message and gdprConsent |
| `Validation.ErrorValuesKnown` | src/components/ContactSection.tsx:85-89 | every value in the error map is one of the validator's five messages |
| `Validation.InitialErrors` | src/components/ContactSection.tsx:20-27 | the initial (and reset) record yields exactly the four "required" messages for name, email, message and gdprConsent |
| `Validation.EmailMessages` | src/components/ContactSection.tsx:86-87 | the e-mail gets "required" exactly when blank, "invalid" exactly when non-blank and not matching, and no error exactly when non-blank and matching |
| `Validation.ErrorsByField` | src/components/ContactSection.tsx:82-92 | key by key: name, e-mail, message and consent are keys exactly when their checks fail, each with its check's message (the e-mail's "required" when blank, else "invalid"); phone and subject are never keys |
| `Validation.ChecksDetermineErrors` | src/components/ContactSection.tsx:82-92 | any map holding exactly the failing checks' messages under their keys is the validator's error map |
| `Validation.ErrorOfLocal` | src/components/ContactSection.tsx:85-89 | a field's error depends only on that field's value: editing one text field leaves every other field's error unchanged |
| `Validation.EditKeepsOtherErrors` | src/components/ContactSection.tsx:43-56 | after editing one text field, every other field that was flagged is still flagged by the validator |
| `Validation.ConsentEditKeepsOtherErrors` | src/components/ContactSection.tsx:58-69 | after toggling consent, every other field that was flagged is still flagged by the validator |
| `Validation.OptionalFieldsIgnored` | src/components/ContactSection.tsx:85-89 | `phone` and `subject` never affect the error map, whatever their value |
| `Validation.SampleRecordPasses` | src/components/ContactSection.tsx:82-92 | the record name "Anna", e-mail "a@b.co", message "Hello", consent given produces no errors |
| `ContactForm.BorderClass` | src/components/ContactSection.tsx:214 | the red and green borders add a class name; the neutral border adds none |
| `ContactForm.MapEmbedSrc` | src/components/ContactSection.tsx:379-381 | the frame uses the configured embed URL when it is non-empty, otherwise the maps embed address followed by the encoded address; the source is never empty |
| `ContactForm.ContactSection.constructor` | src/components/ContactSection.tsx:20-30 | on mount: the all-empty record with consent false, no errors, not submitting, not touched; the invariant holds |
| `ContactForm.ContactSection.HasError` | src/components/ContactSection.tsx:49 | `formErrors[name]` is truthy; in a valid state exactly when the field is a key of the error map |
| `ContactForm.ContactSection.FieldBorder` | src/components/ContactSection.tsx:214 | for the name, e-mail (line 229) and message (line 273) inputs, the only ones with a border class, and in a valid state: red exactly when the field has an error, and then the field fails validation now; green exactly when there is no error, the form is touched and the raw value is non-empty |
| `ContactForm.ContactSection.SubmitDisabled` | src/components/ContactSection.tsx:298 | the submit button is disabled exactly while submitting |
| `ContactForm.ContactSection.SubmitLabel` | src/components/ContactSection.tsx:303 | the button reads "Wysyłanie..." while submitting and the configured text otherwise |
| `ContactForm.ContactSection.Validate` | src/components/ContactSection.tsx:82-92 | the map built check by check equals the specified error map, and is empty exactly when the record passes |
| `ContactForm.ContactSection.HandleChange` | src/components/ContactSection.tsx:43-56 | only the edited field's value changes, the form becomes touched, the flag for submitting is kept, exactly that field's error key is removed, and the invariant is kept; a bordered field's border becomes green, or neutral for an empty value |
| `ContactForm.ContactSection.HandleCheckboxChange` | src/components/ContactSection.tsx:58-69 | only the consent flag changes, the form becomes touched, exactly the consent error is removed, and the invariant is kept |
| `ContactForm.ContactSection.HandleSubmit` | src/components/ContactSection.tsx:94-121 | on an idle form (the submit button is disabled while submitting, line 298): on a failing record the error map becomes exactly the validator's and nothing else changes; on a passing one only the submitting flag becomes true (the error map is already empty), the button is disabled and reads "Wysyłanie..." whatever its configured text; afterwards every failing bordered field shows a red border; the invariant is kept |
| `ContactForm.ContactSection.CompleteSubmission` | src/components/ContactSection.tsx:102-117 | the record is reset to its initial value, not touched, not submitting, errors unchanged, and empty when a submission was in progress; the invariant is kept, the button is enabled and no bordered field is green |
| `ContactForm.SubmitBlankForm` | src/components/ContactSection.tsx:94-121 | submitting the untouched form yields exactly the four "required" errors and does not start a submission |
| `ContactForm.EditAfterBlankSubmit` | src/components/ContactSection.tsx:43-56 | after a blank submit, typing a name clears only the name's error and keeps the other three |
| `ContactForm.SubmitSampleForm` | src/components/ContactSection.tsx:94-117 | filling in name, e-mail, message and consent, then submitting, starts a submission; completing it leaves the initial record, no errors, untouched and idle |

## Left out

- Markup, layout, icons and CSS classes other than the border classes (src/components/ContactSection.tsx:151-390): these are presentation only.
- The toast notification in the completion callback (src/components/ContactSection.tsx:103-106): it calls a foreign notification hook. `CompleteSubmission` does not record it.
- The timer of the submission (src/components/ContactSection.tsx:102, 117): the 1000 ms delay and a callback that fires after unmount are event-loop concerns. The completion is an ordinary method that may be called in any valid state.
- React's state-update scheduling: each handler's updates are modelled as one atomic step on the current state. Functional updates (`prev => ...`) and the handler's read of `formErrors` see the same state.
- Decorative particles (src/components/ContactSection.tsx:123-149): they use `Math.random`, floating-point `% 100` and an interval timer.
- The touch ripple (src/components/ContactSection.tsx:41, 71-80): it uses DOM bounding rectangles, float coordinates and a timer.
- The `useInView` entrance latch (src/components/ContactSection.tsx:32-35): its once-only behaviour comes from a third-party option, not from this code.
- src/components/HeroSection.tsx: mouse parallax is float arithmetic, the scroll flag is a browser listener, and the rest is markup.
- types.ts: it declares the content types and has no behaviour. The configured submit-button text, embed URL and address are parameters.
- `encodeURIComponent`: it is the function parameter `encode` of `MapEmbedSrc`, with no properties assumed.
- The maps embed address and its API key (src/components/ContactSection.tsx:379): they are the parameter `prefix` of `MapEmbedSrc`, required to be non-empty; the key is a deployment value, not behaviour.
- Strings are sequences of Unicode scalar values, while JavaScript strings are UTF-16 code units. No white-space character lies outside the Basic Multilingual Plane, so blankness and the e-mail pattern agree either way.
- `HandleSubmit`: it requires an idle form. The page's only submit control is disabled while submitting (src/components/ContactSection.tsx:298), and a disabled submit button also blocks implicit submission by the Enter key, so a submit event during a submission is not modelled.
- `HandleChange`: it takes a field from the five text fields only. These are the `name` attributes of the form's inputs; a change event from any other element is not modelled.
