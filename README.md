# Form logic of the Mind Care Solutions site

This project models the form logic of the site's `js/form.js` in Dafny and
proves properties of the model. It covers:

- **Phone and email rules.**
  - `isValidPhone`, the cascade over the "cleaned" number.
  - `formatPhoneNumber`.
  - The live input mask and the blur check of the phone fields.
  - `isValidEmail`, as a scan proved equal to its regular expression.
- **Field rule tables.**
  - The contact form's `validateContactForm`.
  - The four steps of the intake form's `validateStep`.
  - The cross-field rule on the preferred contact methods, `validateContact`.
  - Each validator is a run of `if`s that records a message and clears an `isValid` flag. Each is proved to give exactly the messages of a declarative rule table.
- **The intake wizard.**
  - A class whose fields are the step on show (`current`), the status line, and whether the submit button is disabled.
  - Methods for `showStep`, `nextStep` and `prevStep`.
  - The submit handler: a loop over steps 1..4 that stops at the first failing step, then the contact-method rule, then the hidden anti-spam field, then the send.
  - The rules these follow (where the buttons lead, what a submission decides) are functions and lemmas in module `Steps`.
- **The autosaved draft.**
  - What `saveDraft` stores.
  - How `loadDraft` puts stored values back into the form's controls in place.
- **The JSON bodies.**
  - The JSON bodies the two forms post, each a projection of the form's `FormData` pairs.

Modules, one per file:

| module | file | contents |
|---|---|---|
| `Text` | `text.dfy` | trimming, digits, join and split |
| `Phone` | `phone.dfy` | the phone rules |
| `Email` | `email.dfy` | the email rule |
| `Forms` | `forms.dfy` | the form records, messages, rule tables and validators |
| `FormData` | `form_data.dfy` | controls and `FormData` |
| `Draft` | `draft.dfy` | save and load of the draft |
| `Payload` | `payload.dfy` | the request bodies |
| `Steps` | `steps.dfy` | the wizard's rules |
| `Wizard` | `wizard.dfy` | the wizard class |

Inputs the model takes as parameters:

- **Dates and the clock.** Dates are day numbers. The host clock is a `Clock` value giving today and the day thirteen years earlier.
- **The page.** A form's fields are a record (`IntakeForm`, `ContactForm`) or a sequence of named controls (`Control`).
- **Messages.** Messages are a `Message` datatype. `Forms.Wording` gives each one word for word.

## Model

| member | source | states |
|---|---|---|
| Text.Trim | js/form.js:335 | `trim()` strips whitespace at both ends: the result is a middle part of the input with only whitespace before and after it, it neither starts nor ends with whitespace, and it is empty exactly when the input is all whitespace |
| Text.DigitsKeepsEveryDigit | js/form.js:44 | `replace(/\D/g, "")` gives a subsequence of the input made only of digits that holds every digit as often as the input does: every digit kept, in order, and nothing else |
| Text.DigitsConcat | js/form.js:44 | the digits of a concatenation are the digits of each part, one after the other |
| Text.JsLength | js/form.js:339-345 | `length` counts UTF-16 code units: between one and two per character, and one per character exactly when every character is in the Basic Multilingual Plane |
| Text.SplitJoin | js/form.js:159 | a list joined with ", " splits back into the same list when no item holds a comma |
| Phone.CleanKeepsEveryKept | js/form.js:6 | `replace(/[^\d+]/g, "")` gives a subsequence of the input made only of digits and `+` that holds each of them as often as the input does: every digit and `+` kept, in order, and nothing else |
| Phone.CleanConcat | js/form.js:6 | the cleaned concatenation is the concatenation of the cleaned parts |
| Phone.CleanIdempotent | js/form.js:6 | cleaning a cleaned number changes nothing |
| Phone.PhoneNeedsDigitOrPlus | js/form.js:3-9 | an empty input, or any input without a digit or `+`, is invalid |
| Phone.PhoneDependsOnCleaned | js/form.js:6-37 | validity depends on the cleaned string only |
| Phone.PhoneIgnoresNoise | js/form.js:3-9 | inserting characters other than digits and `+` anywhere never changes validity |
| Phone.PlusOneRule | js/form.js:12-14 | a cleaned number starting "+1" is valid exactly when it has 12 characters |
| Phone.PlusRule | js/form.js:27-34 | a cleaned number starting "+" but not "+1" is valid exactly when 8 to 15 digits follow the "+" |
| Phone.ValidPhoneLength | js/form.js:12-37 | every accepted number cleans to 8 to 16 characters |
| Phone.PlusOneAcceptsAnyTen | js/form.js:12-14 | "+1" followed by any ten kept characters (digits or `+`) is accepted |
| Phone.PlusOneAcceptsPlusSigns | js/form.js:12-14 | "+1++++++++++" is accepted |
| Phone.LeadingOneAcceptsAnyTen | js/form.js:17-19 | "1" followed by any ten kept characters is accepted |
| Phone.LeadingOneAcceptsPlusSigns | js/form.js:17-19 | "1++++++++++" is accepted |
| Phone.NorthAmericanSample | js/form.js:12-14 | "+14155552671" is valid |
| Phone.LeadingOneSample | js/form.js:17-19 | "14155552671" is valid |
| Phone.LocalSample | js/form.js:22-24 | "4155552671" is valid |
| Phone.PunctuatedSample | js/form.js:6-24 | "(415) 555-2671" is valid |
| Phone.InternationalSample | js/form.js:27-34 | "+44712345678" is valid |
| Phone.TooShortSample | js/form.js:37 | "123" is invalid |
| Phone.FormatEmptyIff | js/form.js:42 | `formatPhoneNumber` gives "" exactly for the empty input |
| Phone.FormatKeepsDigits | js/form.js:41-57 | formatting never adds or loses a digit |
| Phone.FormatIdempotent | js/form.js:41-57 | formatting a formatted number changes nothing |
| Phone.FormattedIsValid | js/form.js:46-53 | both formatted layouts (ten digits; eleven starting with 1) pass `isValidPhone` |
| Phone.FormatRoundTrip | js/form.js:44-49 | ten digits are formatted as "(XXX) XXX-XXXX"; their digits give them back, and the result is a valid phone |
| Phone.FormatLocalSample | js/form.js:46-49 | "4155552671" is shown as "(415) 555-2671" |
| Phone.FormatNorthAmericanSample | js/form.js:50-53 | "14155552671" is shown as "+1 (415) 555-2671" |
| Phone.MaskKeepsDigits | js/form.js:65-86 | the live mask shows exactly the typed digits, in order |
| Phone.MaskIdempotent | js/form.js:65-86 | re-running the mask on its output changes nothing |
| Phone.MaskAgreesWithFormat | js/form.js:65-86 | on ten digits, or eleven starting with 1, the mask and `formatPhoneNumber` agree |
| Phone.MaskLeavesOtherInput | js/form.js:65-86 | with more than eleven digits, or eleven not starting with 1, the field keeps what was typed |
| Phone.MaskedTenDigitsPassBlur | js/form.js:65-107 | once ten digits are typed, the masked value passes the blur check |
| Email.ScanMatchesPattern | js/form.js:402-405 | every string the scan accepts splits as `^[^\s@]+@[^\s@]+\.[^\s@]+$` requires |
| Email.PatternPassesScan | js/form.js:402-405 | every concatenation the pattern describes passes the scan |
| Email.EmailMatchesPattern | js/form.js:402-405 | the scan accepts exactly the strings the regular expression matches |
| Email.ValidEmailHasOneAt | js/form.js:403 | an accepted address has exactly one "@", not at the start |
| Email.EmailSample | js/form.js:836-839 | "jane.doe@example.org" is accepted |
| Email.EmailWithoutDotSample | js/form.js:836-839 | "jane@localhost" is refused |
| Forms.FirstFailureMeaning | js/form.js:336-345 | a row of `if`/`else if` checks shows no message exactly when no check fails, and otherwise the message of the first failing check, every earlier check passing |
| Forms.TableErrorsEmptyIff | js/form.js:544-811 | a rule table gives no message exactly when no check of any row fails |
| Forms.RecordEmptyIff | js/form.js:558-564 | applying a row adds the row's field to the messages exactly when one of its checks fails, with the first failing check's message; it never removes a message and leaves every other field's message as it was |
| Forms.ValidateContactForm | js/form.js:330-400 | `validateContactForm` gives exactly the contact table's messages, and `isValid` holds exactly when there are none |
| Forms.ContactValidIff | js/form.js:330-400 | the contact form passes exactly when the trimmed name has a `length` of 2 to 100, the email is well formed with a `length` of at most 255, the phone is valid with a `length` of at most 20, a topic is chosen, the message has a `length` of 10 to 2000 and consent is given |
| Forms.EmojiNameIsLongEnough | js/form.js:335-345 | a name of one character outside the Basic Multilingual Plane has `length` 2 and so is not too short |
| Forms.StepValidIff | js/form.js:544-811 | a step passes exactly when it shows no message |
| Forms.ValidateStep | js/form.js:544-811 | `validateStep(step)` gives exactly the step's table messages, and its verdict is the step's pass/fail; steps outside 1..4 check nothing |
| Forms.ValidateAboutYou | js/form.js:548-612 | step 1 gives exactly its table's messages, valid exactly when there are none |
| Forms.CheckDob | js/form.js:567-586 | a missing birth date is refused; otherwise the future check and then the age check each write the one "dob" message, the later replacing the earlier |
| Forms.ValidateBackground | js/form.js:613-701 | step 2 gives exactly its table's messages, valid exactly when there are none |
| Forms.ValidateConcerns | js/form.js:702-775 | step 3 gives exactly its table's messages, valid exactly when there are none |
| Forms.ValidateConsent | js/form.js:776-810 | step 4 gives exactly its table's messages, valid exactly when there are none |
| Forms.AboutYouValidIff | js/form.js:548-612 | step 1 passes exactly when the trimmed full name has a `length` of at least 2, the birth date is given, not in the future and at least thirteen years back, the email and phone are valid, and a contact method is checked |
| Forms.BackgroundValidIff | js/form.js:613-701 | step 2 passes exactly when the trimmed occupation has a `length` of at least 2, a relationship status is chosen, the trimmed children and referral notes have a `length` of at most 50 and 100, and the emergency contact has a trimmed name and relationship of `length` at least 2 and a valid phone |
| Forms.ConcernsValidIff | js/form.js:702-775 | step 3 passes exactly when a concern is checked, the trimmed description and goals have a `length` of at least 10, both yes/no questions are answered, and a checked "Other" comes with non-blank text |
| Forms.ConsentValidIff | js/form.js:776-810 | step 4 passes exactly when consent is given, the trimmed signature has a `length` of at least 2, and the signature date is given and not in the future |
| Forms.ToggleOtherConcern | js/form.js:888-893 | the "Other" box's change handler sets the box to its new state, empties the "Other" text when the box is unchecked, and leaves every other field as it was |
| Forms.ToggleOtherConcernDecidesItsCheck | js/form.js:888-893 | after unchecking "Other" its text check (js/form.js:764-773) passes and step 3 passes whenever it did before; after checking it, the text check fails exactly when the kept text is blank |
| Forms.OtherStepsPass | js/form.js:548-811 | a step number outside 1..4 passes with no message |
| Forms.ContactPrefsError | js/form.js:962-1011 | `validateContact` passes exactly when a method is checked, a checked Phone has a non-blank phone, a checked Email has a non-blank email, and Phone or Email is checked |
| Forms.ContactRuleAfterStepOne | js/form.js:586-611 | once step 1 passes the phone and email are filled in, so `validateContact` fails exactly when neither Phone nor Email is checked, and then with the "contact details" message |
| Forms.BlurAgreesWithSubmitChecks | js/form.js:97-107 | the phone blur check shows its message exactly when the submit-time check of step 1's phone (js/form.js:595-603) or of the contact form's phone (js/form.js:361-371) stops at "not a valid phone"; a blank phone passes the blur check but is refused at submit as missing |
| Forms.PhoneCheckedNeedsPhone | js/form.js:970-985 | with Phone checked and a blank phone field the rule fails with the phone message |
| FormData.Get | js/form.js:121-125 | `formData.get(name)` is null exactly when no value is under the name, and otherwise the first value |
| FormData.GetAllEntries | js/form.js:144-145 | with distinct control names, `getAll(name)` gives exactly the values of that control |
| FormData.CheckedValuesHas | js/form.js:144-145 | a group input's value is among the submitted values exactly when it is checked |
| FormData.NoneChecked | js/form.js:144-145 | a group submits no value exactly when no input is checked |
| Draft.FromEntriesKeepsLast | js/form.js:916 | `Object.fromEntries` keeps a name exactly when it occurs, with its last value |
| Draft.GroupedKeepsAll | js/form.js:928-934 | the grouped draft keeps a name exactly when it occurs, with all its values (one as a string, several as a list) |
| Draft.RestoreControl | js/form.js:929-943 | putting back a stored value keeps the control's kind and name; a group input is checked exactly when its value is in the stored list or equals the stored string, a checkbox is checked exactly when the stored value is truthy, and a field shows the stored value as text |
| Draft.Restored | js/form.js:926-944 | the restored form has the same controls, in order, under the same names; a control whose name is a key of the draft is restored from that key's value by `RestoreControl`'s rule, and every other control is left as it was |
| Draft.Lookup | js/form.js:927-928 | `form.elements[k]` finds the control with that name, or reports that there is none |
| Draft.LoadDraft | js/form.js:923-950 | with no stored draft the controls are untouched; otherwise each is restored in place from the draft |
| Draft.Blank | js/form.js:923-950 | the form as the page first shows it, before `loadDraft` runs, which `SaveLoadRoundTrip` loads the draft into: a blank control keeps its name and submits only an empty field value |
| Draft.RestoreOwnValues | js/form.js:928-944 | a blank control restored from what it submitted is the control again |
| Draft.SaveLoadRoundTrip | js/form.js:915-944 | saving the form with every value kept and loading it into the blank form gives the form back |
| Draft.AsWrittenLosesCheckedBoxes | js/form.js:916 | as written, a group with "Anxiety" and "Stress" both checked comes back different |
| Draft.AsWrittenKeepsLastChecked | js/form.js:916-934 | as written, a restored group keeps exactly one checked box, the last one that was checked |
| Payload.GetOfControls | js/form.js:121-125 | with distinct names, `get` gives the first value a control submits, null when it submits none |
| Payload.FieldSentAsTyped | js/form.js:155-175 | `get` gives a text field's value, and the body members read from it (the intake form's `fullName`, `presentingDescription` and `signature`, the contact form's `message`) carry that value as typed |
| Payload.ConsentSentIffChecked | js/form.js:182 | consent is sent as true exactly when the box is checked and carries the value "on" |
| Payload.NoConsentControl | js/form.js:126 | without a control of that name the contact consent is sent as false |
| Payload.RadioCheckedValues | js/form.js:176-178 | a radio group submits at most one value, that of its checked input |
| Payload.YesNoSentIffYesChecked | js/form.js:176 | the medications answer is sent as true exactly when its "Yes" button is checked |
| Payload.DobNullWhenEmpty | js/form.js:156 | the birth date is sent as null exactly when it is missing or empty, otherwise as given |
| Payload.ConcernsListRoundTrip | js/form.js:145-172 | the concerns are sent as "" exactly when none is checked; otherwise the sent text, split at ", ", names exactly the checked concerns |
| Steps.Advance | js/form.js:841-843 | `nextStep` moves on exactly when the step passes and is not the last, by one, staying in 1..4 |
| Steps.Retreat | js/form.js:858-860 | `prevStep` moves back exactly when not on the first step, by one, staying in 1..4 |
| Steps.NavigateKeepsEarlierStepsValid | js/form.js:841-860 | pressing Next and Back in any order, every step before the one on show passes |
| Steps.ValidFormReachesLastStep | js/form.js:841-843 | with every step passing, three presses of Next reach step 4 |
| Steps.StuckBeforeFailingStep | js/form.js:841-843 | Next never gets past a failing step |
| Steps.FirstInvalidIsFirst | js/form.js:1019-1025 | the loop's result is None exactly when every step passes, and otherwise a failing step with every earlier one passing |
| Steps.SentIff | js/form.js:1018-1042 | a submission is sent exactly when every step passes, the contact-method rule passes and the hidden field is empty |
| Steps.StopsAtFirstFailingStep | js/form.js:1019-1032 | a submission stops at a step exactly when some step fails, and then at the first failing one |
| Steps.ContactRuleAfterSteps | js/form.js:1034-1037 | the contact-method rule stops a submission exactly when every step passes and the rule fails, and its message is the outcome |
| Steps.NoMessagesWhenAllPass | js/form.js:1019-1025 | when every step passes, the last check leaves no field message on the page |
| Wizard.IntakeWizard.constructor | js/form.js:510 | the page starts on step 1 with a blank status line and nothing in flight |
| Wizard.IntakeWizard.ShowStep | js/form.js:515-532 | `showStep(n)` shows step n and clears the status line |
| Wizard.IntakeWizard.NextStep | js/form.js:841-856 | checks the step on show, returns its verdict and messages, and moves to `Advance` of it |
| Wizard.IntakeWizard.PrevStep | js/form.js:858-860 | moves to `Retreat` of the step on show |
| Wizard.IntakeWizard.CheckAllSteps | js/form.js:1018-1032 | checks steps 1..4 in order and returns the first failing one; then that step is on show with the "fix the errors" message and its messages on the page; when all pass the step and status line stay, and the last step's messages are on the page |
| Wizard.IntakeWizard.Submit | js/form.js:1014-1043 | the outcome is `SubmitDecision` of the steps' verdicts, the contact-method rule and the hidden field; each outcome leaves the step, status line and button as the handler does, a failed contact-method rule leaving step 1 on show with a blank status line |
| Wizard.IntakeWizard.CheckAndSend | js/form.js:1018-1043 | the same with the steps' verdicts given as functions |
| Wizard.IntakeWizard.FinishSubmit | js/form.js:1034-1043 | after the steps pass: the contact-method rule (which, failing, leaves step 1 with a blank status line), the hidden field, then the button is disabled |
| Wizard.IntakeWizard.SubmitIntended | js/form.js:1014-1043 | the corrected handler of the second Findings row: the same outcome as `Submit`, but a failed contact-method rule leaves its message on the status line |
| Wizard.IntakeWizard.CheckAndSendIntended | js/form.js:1018-1043 | `CheckAndSend` with the corrected contact-method rejection |
| Wizard.IntakeWizard.FinishSubmitIntended | js/form.js:1034-1043 | `FinishSubmit` with the corrected contact-method rejection: step 1 with the rule's message |
| Wizard.IntakeWizard.RejectContact | js/form.js:1034-1036 | the corrected behaviour of the second Findings row: a failed contact-method rule leaves step 1 on show with the rule's message |
| Wizard.IntakeWizard.RejectContactAsWritten | js/form.js:1034-1035 | as written, the rule's message is cleared by `showStep(1)`: step 1 with a blank status line |
| Wizard.IntakeWizard.Settle | js/form.js:1051-1072 | the button is enabled again; after a successful send step 1 is on show with a blank status line |

## Left out

- The network requests (`fetch` in `submitContactToFormspree` and `submitIntakeToFormspree`). Only the request bodies are modelled. A send's success or failure is the parameter of `Settle`.
- `localStorage`, `JSON.stringify` and `JSON.parse`. They are browser storage and serialisation. A stored draft is an `Option<Draft>`, where None stands for a missing or unparseable draft.
- The "Saved"/"Autosaving…" timer, the "clear draft" button with its page reload, and the `localStorage.removeItem` and `form.reset()` after a successful send. These are storage, timers and reloads.
- The visibility toggles after `loadDraft` and on the change handlers of the medication, therapy and "Other" inputs, and the focus the "Other" handler gives its text box. These are CSS class flips and focus. What else the "Other" handler does, emptying the text when the box is unchecked, is `Forms.ToggleOtherConcern`; the `saveDraft` call that follows it is storage.
- DOM rendering: the fieldsets' and step dots' classes, the error elements' text and classes, `scrollIntoView` in `nextStep`, the modals, banners and tabs, and the button text.
- The contact form's submit handler (js/form.js:445-500). Only its validator and request body are modelled. The handler's own button disabling and banner are DOM and network.
- The host clock and `new Date()` parsing, including the leap-year behaviour of `setFullYear`. Dates are day numbers, and `Clock` gives today and the day thirteen years back.
- `Wizard.IntakeWizard.Submit` and `CheckAndSend`: a submission while one is in flight is `Ignored`. This stands for the disabled submit button, which the browser will not submit through. The handler itself has no such check.
- `Wizard.IntakeWizard.ShowStep`: requires a step number in 1..4. `showStep` is only ever called with such numbers, so the model does not cover a call outside that range.
- `Wizard.IntakeWizard.NextStep`, `CheckAllSteps` and `Submit`: the form's values are fixed for the duration of a call. Edits made while a request is awaited are not modelled.
- `Forms.ToggleOtherConcern`: the model takes the "Other" box (read by its id, `concernOther`) to be a control of its own, outside the `concerns` checkbox group. The page markup is not part of this model. If the box is the group's "Other" input, toggling it also adds or removes "Other" in `concerns`, which the model does not capture. Then `ToggleOtherConcernDecidesItsCheck`'s clause that step 3 still passes after unchecking fails for a form whose only concern is "Other".
- `Draft.RestoreControl`: the browser's own rules for assigned values are left out. Checking a radio button unchecks the others of its group, so a stored list holding two values of one radio group leaves only the later one checked, where the model checks both. Assigning a value that is not one of a select's options, or not a valid date to a date input, leaves the control empty, where the model shows the stored text. Only a stale or edited draft reaches these cases.
- `Steps.StepCount`: the number of steps, `steps.length`, comes from the page markup, which is not part of this model; it is fixed at the four steps `validateStep` knows.
- `Forms.ValidateStep`: the checks read the form through `form.elements` and `querySelector`. The model reads an `IntakeForm` record, in which a select with no choice is "" and a radio group with nothing checked is None.
- `Payload.ContactBody`, `Payload.IntakeBody`: fields are read from the `FormData` pairs. How the browser serialises each kind of control is modelled in `FormData` only for text fields, lone checkboxes and groups of checkboxes or radio buttons.

## Findings

| source | as written | input that shows it | evidently intended | confidence | as-written member | corrected member |
|---|---|---|---|---|---|---|
| js/form.js:916 | `saveDraft` stores `Object.fromEntries(new FormData(form))`, which keeps only the last value of a repeated name. So a checkbox group is saved as one string, and the array branch of `loadDraft` (js/form.js:933-934) is never reached | the concerns group with "Anxiety" and "Stress" both checked is restored with only "Stress" checked | every checked box of a group is saved as a list, so that loading the draft restores the form | not executed | Draft.AsWrittenLosesCheckedBoxes | Draft.SaveLoadRoundTrip |
| js/form.js:1034-1035 | `validateContact` writes its message to the status line, and the handler then calls `showStep(1)`, which clears it (js/form.js:530). The user is sent back to step 1 with no explanation | a form whose four steps pass with only a contact method other than Phone and Email checked; by Forms.ContactRuleAfterStepOne this is the only way the rule can fail there | the message stays on the status line after moving to step 1 | not executed; the page markup, which lists the contact methods on offer, is not part of this model | Wizard.IntakeWizard.Submit | Wizard.IntakeWizard.SubmitIntended |
