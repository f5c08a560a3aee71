# Trainee registration wizard — a Dafny model

The application is a single-page wizard through which applicants register for a
training programme. The applicant works through these steps in order:

1. Types their name, nationality and document type.
2. Photographs or uploads an identity document, which an AI recogniser reads.
3. Checks the extracted data.
4. Answers a few supplemental questions.
5. Submits.

On submission, an automated evaluator decides whether the applicant is eligible by age (18-60) and whether a human must review the record. Records with low recogniser confidence and Sudanese passports need review. An administrator who enters the access code sees a dashboard with counts, a per-nationality tally and a table of records with status badges.

The model has five modules:

- `Types` (types.dfy): the entities of `types.ts` as datatypes. The string unions become enumerations with their labels, and `FormStep` keeps its numbering and order.
- `Text` (text.dfy): the JavaScript string operations the core relies on: `trim()`, `toLowerCase()`, `join()`, and the way a template literal renders an integer.
- `Evaluator` (eligibility.dfy): `calculateEligibility` and `formatID` from `utils.ts`.
  - `Evaluate` is the specification function and `CalculateEligibility` is the imperative version.
  - The method is proved equal to the function.
  - The rules are proved about the function.
- `Dashboard` (dashboard.dfy): the aggregates of `components/AdminDashboard.tsx`: the stats, the status badge, the review-flags cell and the nationality reduce. The reduce is a loop-based method, proved equal to a recursive `Tally`. `Tally` is proved to count each nationality once, in first-appearance order, and to sum to the number of records.
- `Wizard` (wizard.dfy): the workflow of `App.tsx`.
  - The pure parts are functions: the duplicate check, the image-rejection message and the name-mismatch flag.
  - The component state is a class, `Registration`. It has one method per handler or button, and each method's `modifies` clause names only the fields that the handler sets.
  - Every method preserves `Valid()`:
    - stored ID numbers are unique;
    - no extraction is pending between handler calls;
    - the review and supplemental steps always have extracted data;
    - the dashboard step is only reached by an administrator.

## Model

| member | source | states |
|---|---|---|
| Types.ParseIdType | types.ts:2 | Only the three document labels are accepted, and each is read back as the type it names |
| Types.IdTypeLabelRoundTrip | types.ts:2 | Labelling a document type and parsing the label gives the same type back |
| Types.ParseNationality | types.ts:3 | Only the four nationality labels are accepted, and each is read back as the nationality it names |
| Types.NationalityLabelRoundTrip | types.ts:3 | Labelling a nationality and parsing the label gives the same nationality back |
| Types.StepOf | types.ts:49-56 | A step exists for exactly the numbers 0..5, and its number is the one asked for |
| Types.StepOrdinalRoundTrip | types.ts:49-56 | Numbering a step and looking the number up gives the same step back |
| Types.StepOrderIsChain | types.ts:49-56 | The step order is a strict total order and the chain BASIC_INFO < ID_UPLOAD < VERIFICATION < ADDITIONAL_INFO < SUMMARY < DASHBOARD |
| Text.ToLower | App.tsx:31 | Same length; every character is lower-cased pointwise; no upper-case letter remains; whitespace stays where it was |
| Text.ToLowerAppend | App.tsx:31 | Lower-casing distributes over concatenation |
| Text.ToLowerIdempotent | App.tsx:31 | Lower-casing twice is lower-casing once |
| Text.ToLowerKeepsSpace | App.tsx:31 | Lower-casing leaves whitespace unchanged |
| Text.TrimStart | App.tsx:35 | The result is a suffix, the removed prefix is all whitespace, and the result does not start with whitespace |
| Text.TrimEnd | App.tsx:35 | The result is a prefix, the removed suffix is all whitespace, and the result does not end with whitespace |
| Text.Trim | App.tsx:35 | The trimmed name is empty exactly when the input is all whitespace; otherwise it starts and ends with non-whitespace |
| Text.TrimStartSkipsSpace | App.tsx:35 | Leading whitespace does not change the result of trimming the start |
| Text.TrimEndSkipsSpace | App.tsx:35 | Trailing whitespace does not change the result of trimming the end |
| Text.TrimStartAppend | App.tsx:35 | Trimming the start of t + q reaches into q only when t is all whitespace |
| Text.TrimIgnoresPadding | App.tsx:31 | Whitespace padding on either side does not change the trimmed string |
| Text.TrimKeepsUnpadded | App.tsx:31 | A string without surrounding whitespace is its own trim |
| Text.TrimIdempotent | App.tsx:35 | Trimming twice is trimming once |
| Text.TrimStartKeepsNoUpper | App.tsx:31 | Trimming the start of a string with no upper-case letter leaves none |
| Text.TrimEndKeepsNoUpper | App.tsx:31 | Trimming the end of a string with no upper-case letter leaves none |
| Text.TrimKeepsNoUpper | App.tsx:31 | Trimming only removes characters, so trimming a string with no upper-case letter brings none back |
| Text.Join | components/AdminDashboard.tsx:136 | The empty list joins to "", one element joins to itself, the first element is a prefix, and the length is the sum of the parts plus one separator between each pair |
| Text.JoinConcat | components/AdminDashboard.tsx:136 | Joining two non-empty lists is joining each with one separator between them; with the base cases this fixes the joined text for every list |
| Text.JoinHasPart | components/AdminDashboard.tsx:136 | Every element appears in the joined text: the earlier elements joined, then a separator, then the rest, which starts with that element |
| Text.NatToString | utils.ts:23 | The rendered age is a non-empty run of decimal digits with no leading zero; it is "0" exactly for zero |
| Text.NatToStringRoundTrip | utils.ts:23 | Reading the digits back gives the number |
| Text.IntToString | utils.ts:23 | Non-negative numbers render as their decimal digits with no leading zero, which read back as the number; negative numbers render as "-" followed by the digits of the magnitude, again with no leading zero |
| Text.IntToStringInjective | utils.ts:23 | Different integers render differently |
| Evaluator.AgeOn | utils.ts:13-19 | The computed age is the number of birthday anniversaries reached by today: the age-th has come, the next has not |
| Evaluator.AgeIsUnique | utils.ts:13-19 | No other count has that property, so the age is determined by the two dates |
| Evaluator.Evaluate | utils.ts:4-47 | Eligible iff age is in 18..60; needs review iff some confidence is below 0.85 or the applicant is Sudanese with a passport; at most three reasons; no reasons iff eligible and not under review; every reason is the age, confidence or passport message |
| Evaluator.LowConfidence | utils.ts:27 | Low confidence holds exactly when some value of the three scores, in declaration order, is below 0.85 |
| Evaluator.AgeReason | utils.ts:23 | The age message is the fixed prefix followed by the detected age as JavaScript renders it |
| Evaluator.DecisionIgnoresNames | utils.ts:4-47 | Neither the typed name nor the name read from the document affects the decision |
| Evaluator.CalculateEligibility | utils.ts:4-47 | The imperative version, which pushes reasons in order and reassigns flags, returns exactly the decision Evaluate specifies |
| Evaluator.AgeReasonIsDistinct | utils.ts:21-37 | The age message never equals the confidence or the passport message |
| Evaluator.ReasonsInRuleOrder | utils.ts:21-37 | Reasons appear in the order age, confidence, passport, each at most once |
| Evaluator.ReasonsMatchRules | utils.ts:21-37 | Each rule's message is present exactly when that rule fires |
| Evaluator.AgeReasonDeterminesAge | utils.ts:23 | The age message determines the detected age |
| Evaluator.EligibilityDependsOnlyOnAge | utils.ts:21-24 | Only the date of birth (and today) affects isEligible |
| Evaluator.ReviewIgnoresAge | utils.ts:26-37 | The date of birth never affects needsHumanReview |
| Evaluator.SudanesePassportAlwaysReviewed | utils.ts:34-37 | A Sudanese passport always needs review, and its message is the last reason |
| Evaluator.AgeWindowBoundaries | utils.ts:21-24 | Ages 18 and 60 are accepted; ages 17 and 61 are rejected |
| Evaluator.OmarKhaledScenario | utils.ts:4-47 | An applicant born 2000-01-01 with confidence 0.95, evaluated on 2024-06-01, is eligible with no reasons and no review |
| Evaluator.UnderageScenario | utils.ts:21-24 | An applicant born 2009-03-10 is 15 on 2024-06-01, is rejected, and the reason reads "…Detected age: 15" |
| Evaluator.FormatId | utils.ts:49-52 | formatID returns the identifier unchanged on every branch |
| Dashboard.CountWhere | components/AdminDashboard.tsx:13-15 | A filtered count never exceeds the number of records |
| Dashboard.CountsCoverRecords | components/AdminDashboard.tsx:11-16 | Auto-eligible and rejected records are disjoint, and every record falls in one of the three counters |
| Dashboard.ComputeStats | components/AdminDashboard.tsx:11-16 | The total is the record count; each counter is bounded by it; eligible + rejected <= total <= eligible + review + rejected |
| Dashboard.StatusOf | components/AdminDashboard.tsx:132 | The badge is Rejected iff ineligible, Flagged iff eligible but under review, and Eligible iff auto-eligible |
| Dashboard.LabelsAgreeWithStats | components/AdminDashboard.tsx:132 | The Eligible and Rejected badges match the counters, and the three badges partition the records |
| Dashboard.ReviewFlags | components/AdminDashboard.tsx:136 | With no reasons the cell reads "None"; otherwise it starts with the first reason |
| Dashboard.ReviewFlagsListsEveryReason | components/AdminDashboard.tsx:136 | Every reason is in the cell, after the earlier reasons joined and a ", "; one more reason adds ", " and that reason at the end |
| Dashboard.ReviewFlagsNoneIffAutoEligible | components/AdminDashboard.tsx:136 | For an evaluator decision, the cell reads "None" exactly when the record is auto-eligible |
| Dashboard.FindSlice | components/AdminDashboard.tsx:27 | The result is the index of the first slice with the nationality, or the length when there is none |
| Dashboard.FindSliceIndex | components/AdminDashboard.tsx:27 | The linear search returns exactly FindSlice: the first slice with the nationality, or the length when there is none |
| Dashboard.AddToTally | components/AdminDashboard.tsx:27-30 | One step of the reduce keeps every existing slice's nationality, changes only the matching slice, grows by at most one, lists the nationality afterwards and raises the total by one; it grows exactly when the nationality was not yet listed, in which case the new last slice is (n, 1), and otherwise the matching slice's value rises by one |
| Dashboard.Tally | components/AdminDashboard.tsx:26-31 | The slice values of the whole reduce add up to the number of records |
| Dashboard.NationalityData | components/AdminDashboard.tsx:26-31 | The mutating reduce loop computes exactly Tally(records) |
| Dashboard.CountNationality | components/AdminDashboard.tsx:26-31 | A per-nationality count never exceeds the number of records |
| Dashboard.FirstIndex | components/AdminDashboard.tsx:26-31 | The result is the position of the first record of a nationality, or the length when there is none |
| Dashboard.CountPositiveIffPresent | components/AdminDashboard.tsx:26-31 | A nationality has a positive count exactly when some record carries it |
| Dashboard.BumpKeepsDescription | components/AdminDashboard.tsx:28 | Incrementing an existing slice keeps the tally exact for the longer record list |
| Dashboard.AppendKeepsDescription | components/AdminDashboard.tsx:29 | Appending a new slice with value 1 keeps the tally exact for the longer record list |
| Dashboard.TallyCountsNationalities | components/AdminDashboard.tsx:26-31 | Nationalities in the tally are distinct; each slice's value is its record count (at least 1); a nationality is listed iff some record has it |
| Dashboard.ListedNamesOccur | components/AdminDashboard.tsx:26-31 | Every listed nationality occurs among the records, and appending a record does not move its first occurrence |
| Dashboard.AddToTallyKeepsOrder | components/AdminDashboard.tsx:26-31 | One step of the reduce keeps slices in order of first appearance |
| Dashboard.TallyInFirstAppearanceOrder | components/AdminDashboard.tsx:26-31 | Slices come in the order their nationalities first appear among the records |
| Wizard.IsDuplicate | App.tsx:75 | The duplicate check holds exactly when some stored record has the same ID number |
| Wizard.UniqueIffEachPassedCheck | App.tsx:96-113 | The uniqueness invariant of the store holds exactly when every record passed the duplicate check against the records stored before it |
| Wizard.AppendKeepsUnique | App.tsx:96-113 | Appending after a negative duplicate check keeps ID numbers unique, and the new ID then counts as a duplicate |
| Wizard.RejectionMessage | App.tsx:69 | The message starts with "Image rejected: " and continues with the recogniser's reason, or with the fallback when the reason is missing or empty |
| Wizard.NormalizeName | App.tsx:31 | The normalised name has no upper-case letter and is empty exactly when the name is all whitespace |
| Wizard.NormalizeUnpadded | App.tsx:31 | A name without surrounding whitespace is only lower-cased |
| Wizard.NormalizeIgnoresPadding | App.tsx:31 | Surrounding whitespace never causes a mismatch |
| Wizard.NormalizeIgnoresCase | App.tsx:31 | Names that differ only in letter case normalise alike |
| Wizard.NormalizeAbsorbsLowerCase | App.tsx:31 | Lower-casing a name first does not change its normal form |
| Wizard.NormalizedLength | App.tsx:31 | An unpadded name keeps its length under normalisation |
| Wizard.NameMismatch | App.tsx:29-32 | No flag without extracted data or with an empty typed name; otherwise the flag is raised iff the normalised names differ |
| Wizard.MismatchExample | App.tsx:29-32 | "Ahmed Ali" typed against "Ahmed Hassan" read is flagged |
| Wizard.NoMismatchExample | App.tsx:29-32 | "Ahmed Ali" typed against " ahmed ali" read is not flagged |
| Wizard.MismatchedNameNotReviewed | App.tsx:389 | The screen promises review for a name mismatch, but "Ahmed Ali" against "Ahmed Hassan" is flagged on screen and still gets a decision with no review |
| Wizard.Registration.constructor | App.tsx:11-25 | Every piece of state starts at its initial value, and the invariant holds |
| Wizard.Registration.EditBasic | App.tsx:231 | The claim becomes what was typed; nothing else changes |
| Wizard.Registration.EditAdditional | App.tsx:458-493 | The supplemental answers become what was entered; nothing else changes |
| Wizard.Registration.SelectImage | App.tsx:55-59 | The image is stored and the error cleared; nothing else changes |
| Wizard.Registration.RemoveImage | App.tsx:294 | The image is removed; nothing else changes |
| Wizard.Registration.HandleBasicNext | App.tsx:34-41 | An all-whitespace name sets the name-required error and keeps the step; otherwise the error is cleared and the wizard moves to ID upload |
| Wizard.Registration.ProcessId | App.tsx:61-90 | Without an image (none, or the empty string) nothing happens. A failure sets the processing error; an unreadable image sets the rejection message; a stored ID number sets the duplicate error. Only a readable new document is kept and moves the wizard to verification. Records never change |
| Wizard.Registration.SubmitFinalForm | App.tsx:92-115 | Without extracted data nothing happens. A stored ID sends the wizard back to upload with the duplicate error. Otherwise exactly one record is appended, carrying Evaluate's decision, and the wizard moves to the summary. IDs stay unique |
| Wizard.Registration.ResetForm | App.tsx:117-122 | The claim is blank, image and extraction are gone, and the step is BASIC_INFO; records are untouched |
| Wizard.Registration.EditAdminPassword | App.tsx:193 | The access-code box holds what was typed; nothing else changes |
| Wizard.Registration.HandleAdminLogin | App.tsx:124-135 | The right code grants admin, opens the dashboard and clears the box and the error; a wrong code sets the credentials error and changes nothing else |
| Wizard.Registration.HandleLogout | App.tsx:137-140 | Admin rights are dropped and the wizard returns to BASIC_INFO |
| Wizard.Registration.BackToBasicInfo | App.tsx:352 | "Back" on the upload step returns to BASIC_INFO |
| Wizard.Registration.BackToCapture | App.tsx:435 | "Back to Capture" returns to ID upload |
| Wizard.Registration.ConfirmExtraction | App.tsx:437 | "Confirm & Proceed" moves to the supplemental step |
| Wizard.Registration.BackToVerification | App.tsx:500 | "Back" on the supplemental step returns to verification |
| Wizard.Registration.ViewDashboard | App.tsx:540 | An administrator on the summary step opens the dashboard |
| Wizard.Registration.BackToRegistration | App.tsx:557 | "Back to Registration" returns to BASIC_INFO |
| Wizard.RepeatedSubmissionIsRefused | App.tsx:92-113 | Submitting the same document twice stores it once; the second attempt returns to upload with the duplicate error |

## Left out

- The recogniser call (`verifyAndExtractID`, geminiService.ts) is not part of this model. Its outcome, an exception or the extracted data, is the parameter of `ProcessId`.
- `ProcessId` runs to completion in one step. The window during which `isProcessing` is true, and completions that arrive after the state has changed, are not modelled.
- The camera component (components/CameraView.tsx) and the FileReader that turns a file into a data URL are not part of this model. `SelectImage` takes the resulting image string.
- The progress bar (components/ProgressBar.tsx), the JSX layout, the charts and the average-confidence note on the verification screen are presentation only. They are not modelled.
- The login modal's visibility (`showLoginModal`) and the camera toggle (`isCameraOpen`) are display flags and are not modelled. App.tsx:350 shows the "Back" and "Analyze Document" buttons only while the camera is closed, so `BackToBasicInfo` and `ProcessId` are allowed in more states than the screen offers them. This over-approximation does not change what either handler does when it runs.
- The export button on the dashboard only shows an alert. It is not modelled.
- Record ids come from `Math.random` and timestamps from the clock. They are parameters of `SubmitFinalForm`. The evaluator's "today" is a parameter too.
- Dates are `(year, month, day)` integer triples. JavaScript's parsing of a "YYYY-MM-DD" string is not modelled: the UTC-versus-local day shift, and the invalid date that yields NaN.
- Confidence scores are exact reals, so floating-point rounding and NaN are not modelled.
- Wizard.Registration.EditAdditional: takes the family size as an integer. The parse that falls back to 1 (`parseInt(...) || 1`) is not modelled.
- Text.ToLower: lower-cases only A-Z, not JavaScript's full Unicode case mapping. As a result the model flags a name mismatch for names that differ only in non-ASCII letter case (accented Latin, Greek, Cyrillic), for example "É" typed against "é" read, where the application raises no flag.
- Wizard.Registration.HandleAdminLogin: the access code hard-coded in App.tsx is a parameter. Only the equality test is modelled.
- Wizard.Registration.ProcessId: has no precondition on the image or the step, although the button is disabled without an image. The early return for a missing or empty image is modelled instead.
- The navigation methods require the step on which their button is rendered. This is a UI constraint rather than a check in the handler.
- `ResetForm` leaves the supplemental answers (`additional`) and the last error message (`error`) as they were, because App.tsx:117-122 does not reset them.
