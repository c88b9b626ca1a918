# HealthDost symptom assistant and doctor directory — a Dafny model

This project models the decision core of two pages of the HealthDost
patient app.

**The AI health assistant page** (`pages/AIHealthAssistant.tsx`):
- The intake form, the screening questionnaire and the quick-symptom chips.
- The normalisation of the form into the input of an analysis: guest defaults and the composite symptom narrative.
- The edge-case triage cascade that runs before any remote inference. It has four fixed safety rules, tried in order: pediatric age, hypertensive crisis, pregnancy, then emergency keywords or the breathing flag. The first rule that fires decides a fixed verdict.
- The branch flow of an analysis: the triage short-circuit, the remote inference, saving the consultation for signed-in users, the draft removal and the at-most-three matched doctors.
- The "Start New Screening" reset.
- The confidence tier that picks the result view.

**The doctor directory** (`pages/Doctors.tsx`):
- The case-insensitive client-side search.
- The mapping of the "All" filter to a request for no particular specialty.

Modules:

- `Wrappers`: `Option`, and `Reply` (a remote call that resolved with a value, or was rejected).
- `Text`: the JavaScript string operations the pages rely on:
  - ASCII `toLowerCase`;
  - `trim` over the ECMAScript white space and line terminators (tab to carriage return, space, no-break space, the Unicode space separators, the line and paragraph separators, the byte-order mark);
  - `includes` (`Contains`, with its characterisation as a substring at some position);
  - `join`;
  - the digit filter of the blood-pressure fields;
  - `parseInt` as a leading-digit-run parse with `NaN`.
- `Screening`: the answers record is an insertion-ordered list of entries, because `Object.entries` lists keys in insertion order and that order decides the summary text. This module holds the toggle and the "Additional markers" summary.
- `Triage`: the verdict record, the four rules, `CheckEdgeCases`, a reference definition of the cascade as a first-match-wins rule table, and the tiered result views.
- `Intake`: the form, `BuildInput` (the normalised input), the quick-select updater, and the draft as stored and restored.
- `Directory`: the doctor search and the specialty request.
- `Assistant`: the page as a class whose fields are the component state. Each handler of the modelled core is a method. The remote calls an analysis makes come back as a list of effects, and how each call settles is a parameter.

Behaviours of the code worth noting:

- A systolic reading such as `"180a"` does not bypass the crisis rule. `parseInt` reads the leading digits, so it reads 180, and the rule fires (`Triage.TrailingJunkStillFires`). In the model, only a reading that does not start with a digit, such as `""` or `"a180"`, parses to `NaN` and is treated as safe. JavaScript also accepts a leading sign or white space (`parseInt(" 180")` is 180), which the model does not (see "## Left out"). The typed fields keep digits only, so a reading with other characters can only come from a restored draft.
- No control of the page edits the existing conditions or the medications. Only a restored session draft and the reset set them, and the reset empties them. So the half of the pregnancy rule that looks for "pregnant" among the existing conditions can fire only through a restored draft; on a form filled in on the page, only the symptom text can fire that rule.
- The pregnancy and keyword scans read the symptom text as typed, not the composite narrative sent to the remote model. The blood-pressure rule reads the page's two fields, not the input record.

## Model

| member | source | states |
|---|---|---|
| `Triage.CheckEdgeCases` | pages/AIHealthAssistant.tsx:133-196 | No verdict exactly when none of the four rules fires. Every verdict has no medicines. Confidence is 0 or 100, and 100 exactly for the Cardiologist verdict. |
| `Triage.FirstMatch` | pages/AIHealthAssistant.tsx:133-196 | A rule table read first-match-wins: no verdict iff no rule fires; otherwise the verdict of a firing rule with no earlier rule firing. |
| `Triage.CascadeIsFirstMatch` | pages/AIHealthAssistant.tsx:133-196 | The cascade equals the first-match reading of the ordered rules: pediatric, crisis, pregnancy, emergency. |
| `Triage.PediatricVerdictIff` | pages/AIHealthAssistant.tsx:134-146 | The Pediatrician verdict comes out iff the age is non-zero and below 12, whatever else holds. A firing age rule always yields that verdict. |
| `Triage.HypertensiveVerdictIff` | pages/AIHealthAssistant.tsx:148-162 | The Cardiologist verdict comes out iff the age rule does not fire and parsed systolic ≥ 180 or parsed diastolic ≥ 120. |
| `Triage.HypertensiveVerdictContents` | pages/AIHealthAssistant.tsx:152-161 | The crisis verdict has confidence 100, emergency urgency and the no-OTC-medication precaution. |
| `Triage.ObstetricVerdictIff` | pages/AIHealthAssistant.tsx:164-176 | The Gynecologist verdict comes out iff neither earlier rule fires and the conditions hold the element "pregnant" or the lower-cased typed symptoms contain it. |
| `Triage.EmergencyVerdictIff` | pages/AIHealthAssistant.tsx:178-193 | The Emergency Specialist verdict comes out iff only the keyword/breathing-flag rule fires. It has emergency urgency and no home remedies. |
| `Triage.CrisisOnReadings` | pages/AIHealthAssistant.tsx:149-151 | On decimal readings the crisis rule is the threshold test sys ≥ 180 or dia ≥ 120. |
| `Triage.CrisisOnDigitFields` | pages/AIHealthAssistant.tsx:149-151 | On any digit-only field texts, empty or with leading zeros, the crisis rule fires iff a non-empty systolic field denotes at least 180 or a non-empty diastolic field at least 120. |
| `Triage.LeadingZeroStillFires` | pages/AIHealthAssistant.tsx:149-151 | A systolic field typed as "0190" fires the crisis rule. |
| `Triage.EmptyReadingNeverFires` | pages/AIHealthAssistant.tsx:149-151 | Empty readings parse to NaN and never fire; with an empty systolic field the diastolic one alone decides. |
| `Triage.TrailingJunkStillFires` | pages/AIHealthAssistant.tsx:149-151 | "180a" parses as 180 and fires the crisis rule. |
| `Triage.NoticeMatchesCrisisRule` | pages/AIHealthAssistant.tsx:586 | The on-form critical-BP notice shows iff the crisis rule fires. For a non-child it then means the crisis verdict. |
| `Triage.ResultViews` | pages/AIHealthAssistant.tsx:641-643 | At most one of the three views renders, and none iff the confidence is above 100. |
| `Triage.Tier` | pages/AIHealthAssistant.tsx:641-643 | No tier iff the confidence is above 100; high only at 100, moderate only from 60 below 100, low only below 60. |
| `Triage.ViewsFollowTier` | pages/AIHealthAssistant.tsx:641-643 | The three independent view conditions render exactly the tier's view: one view iff confidence ≤ 100, none above. |
| `Triage.VerdictViews` | pages/AIHealthAssistant.tsx:641-643 | The crisis verdict renders as high confidence, every other triage verdict as low. |
| `Text.ParseInt` | pages/AIHealthAssistant.tsx:149-150 | `parseInt` gives NaN iff the text is empty or does not start with a digit. |
| `Text.ParseDigits` | pages/AIHealthAssistant.tsx:149-150 | Any non-empty run of digits, leading zeros included, followed by a non-digit (or nothing), parses to the number the digits denote. |
| `Text.ParseDecimal` | pages/AIHealthAssistant.tsx:149-150 | A decimal numeral followed by a non-digit (or nothing) parses back to its number. |
| `Text.Trim` | pages/AIHealthAssistant.tsx:126 | The trimmed text is empty iff the text is blank. It is the slice of the text that starts right after the leading white space; everything before it and everything after it is white space, and it neither starts nor ends with white space. |
| `Text.Lower` | pages/AIHealthAssistant.tsx:128 | `toLowerCase` keeps the length and lower-cases each character in place (ASCII letters). |
| `Text.KeepDigits` | pages/AIHealthAssistant.tsx:577 | `replace(/\D/g, '')` leaves only digits, never lengthens the text, and leaves an all-digit text unchanged. |
| `Text.KeepDigitsConcat` | pages/AIHealthAssistant.tsx:583 | The digit filter keeps a character iff it is a digit and works piece by piece, so the result is the digits of the text in their order. |
| `Text.JoinAppend` | pages/AIHealthAssistant.tsx:205 | `join` on a non-empty list with one more piece is the old joined text, the separator and the new piece. |
| `Text.ContainsIff` | pages/AIHealthAssistant.tsx:128 | `includes` holds iff the sub-text occurs at some position. |
| `Screening.Toggle` | pages/AIHealthAssistant.tsx:120-122 | The toggled key reads as the negation of its old truth (absent counting as false). Every other key keeps its value. Key order is kept, a new key goes last, and keys stay unique. |
| `Screening.ToggleKeepsKnownIds` | pages/AIHealthAssistant.tsx:120-122 | Toggling a question keeps every key of the record a question. |
| `Screening.TrueLabels` | pages/AIHealthAssistant.tsx:202-204 | One label per true answer at most (no more labels than answers), and no labels iff no answer is true. `TrueLabelsConcat` pins the content. |
| `Screening.TrueLabelsConcat` | pages/AIHealthAssistant.tsx:202-204 | The labels are taken entry by entry: an entry gives its question's label iff its value is true, and the labels of two records in a row are those of the first followed by those of the second. So the labels are exactly those of the true answers, in record order. |
| `Screening.Summary` | pages/AIHealthAssistant.tsx:205 | No labels join to "", one label joins to itself, and two or more contain the separator ", ". `SummaryAppend` pins the whole text. |
| `Screening.SummaryAppend` | pages/AIHealthAssistant.tsx:202-205 | Adding an answer to the record: a false one leaves the summary as it was, the first true one makes the summary its label, and each later true one appends ", " and its label. |
| `Screening.SummaryOfTwo` | pages/AIHealthAssistant.tsx:202-205 | A high fever and drowsiness, answered in that order, summarise as their two labels in that order with ", " between them. |
| `Screening.SummaryEmptyIff` | pages/AIHealthAssistant.tsx:202-205 | Over question keys the summary is empty iff no answer is true. |
| `Screening.MarkersText` | pages/AIHealthAssistant.tsx:210 | The markers text is "None" when the summary is empty and exactly the summary otherwise. |
| `Intake.CompositeSymptoms` | pages/AIHealthAssistant.tsx:210 | The narrative is the template: the typed symptoms, ". BP: ", the systolic and diastolic fields joined by "/", " mmHg. Additional markers: ", the markers text and a full stop. So it starts with the typed symptoms and ends in the markers text. |
| `Intake.CompositeSaysNone` | pages/AIHealthAssistant.tsx:202-210 | With no true answer, the narrative ends in "Additional markers: None.". |
| `Intake.BuildInput` | pages/AIHealthAssistant.tsx:207-215 | Age is the profile's unless absent or 0 (then 30). Gender is the profile's unless empty (then "other"). Conditions are those held in the page state, or ["none"] when there are none; medications the typed text, or "none" when empty. The narrative is the composite one. Duration and severity pass through. |
| `Intake.PediatricAfterNormalisation` | pages/AIHealthAssistant.tsx:135 | After normalisation the age rule fires iff the profile age is non-zero and below 12. |
| `Intake.PregnancyAfterNormalisation` | pages/AIHealthAssistant.tsx:165 | The ["none"] default never makes the pregnancy rule fire. |
| `Intake.QuickSelect` | pages/AIHealthAssistant.tsx:124-131 | Blank text becomes the issue; otherwise the text stays as it is or becomes its trimmed form, ", " and the issue. |
| `Intake.QuickSelectMentionsIssue` | pages/AIHealthAssistant.tsx:124-131 | After a chip press the text contains the issue case-insensitively. Blank text becomes exactly the issue. |
| `Intake.QuickSelectKeepsText` | pages/AIHealthAssistant.tsx:124-131 | On non-blank text the result is the text unchanged iff its trimmed form already mentions the issue. Otherwise the result is the trimmed text, ", " and the issue. |
| `Intake.QuickSelectIdempotent` | pages/AIHealthAssistant.tsx:124-131 | Pressing the same trimmed chip twice equals pressing it once. |
| `Intake.QuickSelectPaddedIssueNotIdempotent` | pages/AIHealthAssistant.tsx:124-131 | For a chip padded with white space, a second press changes the text again. |
| `Intake.CommonIssuesTrimmed` | pages/AIHealthAssistant.tsx:37-48 | Every common-issue chip is trimmed, so every chip press is idempotent. |
| `Intake.SaveDraft` | pages/AIHealthAssistant.tsx:111 | The stored draft carries every form property, and its answers have no repeated key exactly when the form's have none. |
| `Intake.RestoreDraft` | pages/AIHealthAssistant.tsx:96-106 | Restored duration and severity are never empty. Missing ones fall back to the first duration and "moderate". A draft parsed from JSON gives an answers record with no repeated key. |
| `Intake.DraftRoundTrip` | pages/AIHealthAssistant.tsx:98-111 | Restoring the draft stored for a form gives back that form. |
| `Intake.EmptyDraftIsBlank` | pages/AIHealthAssistant.tsx:96-106 | An empty draft object restores the blank form. |
| `Directory.SpecialtyRequest` | pages/Doctors.tsx:44 | No specialty is requested iff the filter is "All". Any other filter is requested as is. |
| `Directory.FilterDoctors` | pages/Doctors.tsx:53-57 | A doctor is in the result iff it is in the list and its lower-cased name or specialization contains the lower-cased term. |
| `Directory.FilterSelectsMatchingPositions` | pages/Doctors.tsx:53-57 | The result is the list entries at exactly the matching positions, in increasing order: an order-preserving subsequence, and every dropped entry matches neither field. |
| `Directory.FilterKeepsAllMatching` | pages/Doctors.tsx:53-57 | A list whose every entry matches comes back unchanged. |
| `Directory.FilterIdempotent` | pages/Doctors.tsx:53-57 | Searching the result again for the same term changes nothing. |
| `Directory.EmptyTermKeepsAll` | pages/Doctors.tsx:53-57 | The empty term keeps every doctor. |
| `Directory.ClearAllFiltersShowsFetched` | pages/Doctors.tsx:204 | After "Clear All Filters" no specialty is requested and the fetched list is shown whole. |
| `Assistant.DraftKey` | pages/AIHealthAssistant.tsx:95 | The session-storage key is "ai_draft_" followed by the user id. |
| `Assistant.DraftKeyInjective` | pages/AIHealthAssistant.tsx:240 | Two users share a draft key iff they are the same user, so removing one user's draft never touches another's. |
| `Assistant.Take` | pages/AIHealthAssistant.tsx:221 | `slice(0, 3)`: a prefix of the list of at most three entries, the whole list when it is shorter. |
| `Assistant.AssistantPage.constructor` | pages/AIHealthAssistant.tsx:69-85 | The page mounts with the blank form, no patient, no result and no doctors. |
| `Assistant.AssistantPage.LoadPatient` | pages/AIHealthAssistant.tsx:93-118 | For a signed-in user the fetched profile becomes the page's patient. A guest's page fetches no profile and keeps its patient. |
| `Assistant.AssistantPage.LoadDraft` | pages/AIHealthAssistant.tsx:95-106 | A stored draft sets the form to its restoration; with no draft the form is unchanged. The page invariant, including unique answer keys, is kept. |
| `Assistant.AssistantPage.ToggleScreening` | pages/AIHealthAssistant.tsx:120-122 | Only the toggled answer changes, and its truth flips. The answer keys stay unique. |
| `Assistant.AssistantPage.QuickSelectIssue` | pages/AIHealthAssistant.tsx:124-131 | The symptoms become the quick-select result and then mention the issue. |
| `Assistant.AssistantPage.EnterSystolic` | pages/AIHealthAssistant.tsx:577 | The systolic field keeps only the typed digits. |
| `Assistant.AssistantPage.EnterDiastolic` | pages/AIHealthAssistant.tsx:583 | The diastolic field keeps only the typed digits. |
| `Assistant.AssistantPage.Reset` | pages/AIHealthAssistant.tsx:260-272 | The form becomes blank, the result and doctors are cleared, and the user's draft is removed. |
| `Assistant.AssistantPage.Analyse` | pages/AIHealthAssistant.tsx:200-249 | With a triage verdict, that verdict is the result and the only call lists doctors for its specialty (no inference, no save). With none, the remote model is asked first, with the normalised input. Only a signed-in user's result is saved, and only a completed save removes the draft. A rejected call ends the attempt with the offline notice. The busy flag ends cleared. The doctors shown become the first three of the list when the list call is made and answered, and stay as they were otherwise. |
| `Assistant.AssistantPage.RunAnalysis` | pages/AIHealthAssistant.tsx:198-250 | Blank symptoms change nothing and make no call. Otherwise, given the triage verdict on the normalised input, the method states the calls made and the state left behind, as for `Analyse`, including that the doctors shown change only when the list call is made and answered. |

## Left out

- Rendering, styling, icons, modals, the disclaimer overlay, booking navigation and the guest booking alert. They are presentation with no decision logic.
- The remote calls themselves (`api.patients.get`, `api.ai.selfDiagnose`, `api.ai.saveConsultation`, `api.doctors.list`). Their outcomes are parameters (`Reply`), and a rejected reply stands for the thrown error that reaches the `catch`.
- Session storage and JSON. The draft is modelled as a parsed record of optional properties. The save-on-change effect is not modelled; only the draft removals appear, as effects.
- `Assistant.AssistantPage.LoadDraft` requires a restored draft's answers record to repeat no key (`Intake.ParsedDraft`). `JSON.parse` cannot give an object with a repeated key, so the model does not check this itself.
- `alert` is modelled as an `Alert` effect.
- Concurrency between handlers is not modelled. Each handler runs to completion, with its remote replies given up front.
- Unicode case mapping is not modelled: `toLowerCase` is ASCII only. Non-ASCII letters are left as they are.
- The sign, leading white space, radix and hexadecimal forms of `parseInt` are not modelled. The parse reads a leading run of decimal digits.
- A profile age or a reply confidence that is not an integer (a fraction, `NaN`, `undefined`) is not modelled. Ages and confidences are integers.
- JavaScript orders integer-like object keys before the others. The screening ids are not integer-like, so the answers record keeps plain insertion order.
- The directory page's loading flag and its reaction to a specialty passed in by navigation are not modelled. Both are state around the list call, and only the request mapping and the search are modelled.
- `Assistant.AssistantPage.Analyse` and `Assistant.AssistantPage.RunAnalysis` do not model the renders between awaits, where `isAnalyzing` is observed as true. Their contracts speak of the state once the handler has finished.
- The verdicts' narrative strings are kept exactly as constants, but no property is stated about them beyond equality with those constants.
