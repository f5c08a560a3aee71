/**
 * The registration wizard (App.tsx): its state, the handlers that move it between
 * steps, the duplicate-ID check and the name-mismatch flag.
 *
 * The recogniser call is asynchronous in the application; here its outcome is
 * passed to ProcessId, which then runs to completion in one step.
 */
module Wizard {
  import opened Types
  import opened Text
  import Evaluator

  const NameRequiredError := "Please enter your full name."
  const ImageRejectedPrefix := "Image rejected: "
  const UnclearImageFallback := "Please provide a clearer photo of your ID."
  const DuplicateIdError := "This ID has been recorded before, please wait for our call"
  const ProcessingFailedError := "Failed to process the document. Please try again."
  const InvalidCredentialsError := "Invalid administrator credentials."

  /** What the recogniser call delivers: an exception, or the extracted data. */
  datatype ExtractionOutcome = Failure | Success(data: ExtractedData)

  /**
   * `records.some(record => record.extracted.idNumber === idNumber)`: true exactly when some
   * stored record carries the same ID number.
   */
  function IsDuplicate(records: seq<RegistrationRecord>, idNumber: string): (dup: bool)
    ensures dup <==> exists i :: 0 <= i < |records| && records[i].extracted.idNumber == idNumber
  {
    if records == [] then false
    else if records[0].extracted.idNumber == idNumber then true
    else
      var rest := IsDuplicate(records[1..], idNumber);
      assert forall i :: 0 < i < |records| ==> records[i] == records[1..][i - 1];
      rest
  }

  /** No two stored records share an ID number. */
  predicate UniqueIdNumbers(records: seq<RegistrationRecord>) {
    forall i, j :: 0 <= i < j < |records| ==> records[i].extracted.idNumber != records[j].extracted.idNumber
  }

  /** Appending after a negative duplicate check keeps ID numbers unique. */
  lemma {:induction false} AppendKeepsUnique(records: seq<RegistrationRecord>, r: RegistrationRecord)
    requires UniqueIdNumbers(records)
    requires !IsDuplicate(records, r.extracted.idNumber)
    ensures UniqueIdNumbers(records + [r])
    ensures IsDuplicate(records + [r], r.extracted.idNumber)
  {
    assert (records + [r])[|records|] == r;
  }

  /**
   * The store has no two records with one ID number exactly when every record passed the
   * duplicate check against the records stored before it.
   */
  lemma {:induction false} UniqueIffEachPassedCheck(records: seq<RegistrationRecord>)
    ensures UniqueIdNumbers(records) <==>
      forall j :: 0 <= j < |records| ==> !IsDuplicate(records[..j], records[j].extracted.idNumber)
  {
    forall j | 0 <= j < |records|
      ensures forall i :: 0 <= i < j ==> records[..j][i] == records[i]
    {
    }
  }

  /** The text after "Image rejected: ": the recogniser's reason, or the fallback when it is missing or empty. */
  function RejectionMessage(q: QualityCheck): (msg: string)
    ensures ImageRejectedPrefix <= msg
    ensures q.reason.Some? && q.reason.value != "" ==> msg[|ImageRejectedPrefix|..] == q.reason.value
    ensures q.reason.None? || q.reason.value == "" ==> msg[|ImageRejectedPrefix|..] == UnclearImageFallback
  {
    ImageRejectedPrefix + (if q.reason.Some? && q.reason.value != "" then q.reason.value else UnclearImageFallback)
  }

  /** Lower-cased and trimmed, the form in which the two names are compared. */
  function NormalizeName(s: string): (r: string)
    ensures forall i :: 0 <= i < |r| ==> !IsUpper(r[i])
    ensures r == [] <==> AllSpace(s)
  {
    TrimKeepsNoUpper(ToLower(s));
    assert AllSpace(ToLower(s)) <==> AllSpace(s);
    Trim(ToLower(s))
  }

  /** A name without surrounding whitespace is only lower-cased. */
  lemma {:induction false} NormalizeUnpadded(s: string)
    requires s != [] && !IsSpace(s[0]) && !IsSpace(s[|s| - 1])
    ensures NormalizeName(s) == ToLower(s)
  {
    TrimKeepsUnpadded(ToLower(s));
  }

  /** Whitespace around a name does not matter. */
  lemma {:induction false} NormalizeIgnoresPadding(p: string, s: string, q: string)
    requires AllSpace(p) && AllSpace(q)
    ensures NormalizeName(p + s + q) == NormalizeName(s)
  {
    ToLowerAppend(p + s, q);
    ToLowerAppend(p, s);
    ToLowerKeepsSpace(p);
    ToLowerKeepsSpace(q);
    TrimIgnoresPadding(p, ToLower(s), q);
  }

  /** The case of the letters does not matter. */
  lemma {:induction false} NormalizeIgnoresCase(s: string, t: string)
    requires ToLower(s) == ToLower(t)
    ensures NormalizeName(s) == NormalizeName(t)
  {
  }

  /** Lower-casing a name first does not change its normal form. */
  lemma {:induction false} NormalizeAbsorbsLowerCase(s: string)
    ensures NormalizeName(ToLower(s)) == NormalizeName(s)
  {
    ToLowerIdempotent(s);
  }

  /**
   * The advisory name-mismatch flag: never raised before extraction or while the typed name is empty;
   * otherwise raised exactly when the normalised names differ.
   */
  function NameMismatch(basic: BasicInfo, extracted: Option<ExtractedData>): (mismatch: bool)
    ensures extracted.None? || basic.fullName == [] ==> !mismatch
    ensures extracted.Some? && basic.fullName != [] ==>
      (mismatch <==> NormalizeName(basic.fullName) != NormalizeName(extracted.value.fullName))
  {
    if extracted.None? || basic.fullName == [] then false
    else NormalizeName(basic.fullName) != NormalizeName(extracted.value.fullName)
  }

  function ExtractedName(name: string): ExtractedData {
    ExtractedData(name, Date(2000, 1, 1), "X1", "Egyptian ID",
      ConfidenceScores(0.95, 0.95, 0.95), QualityCheck(true, true, true, None))
  }

  lemma {:induction false} NormalizedLength(s: string)
    requires s != [] && !IsSpace(s[0]) && !IsSpace(s[|s| - 1])
    ensures |NormalizeName(s)| == |s|
  {
    NormalizeUnpadded(s);
  }

  /**
   * Worked examples of the name check. Each literal goes through NormalizeName in a
   * lemma of its own, so that the verifier unfolds one literal at a time.
   */
  // The names of the examples, built from parts so that the verifier lower-cases each part on its own.
  const GivenName := "Ahmed"
  const FamilyName := " Ali"
  const TypedName := GivenName + FamilyName  // "Ahmed Ali"
  const LowerName := "ahmed" + " ali"        // "ahmed ali"
  const PaddedName := " " + LowerName        // " ahmed ali"

  lemma {:induction false} TypedNameLength()
    ensures |NormalizeName(TypedName)| == 9
  {
    NormalizedLength(TypedName);
  }

  lemma {:induction false} ReadNameLength()
    ensures |NormalizeName("Ahmed Hassan")| == 12
  {
    NormalizedLength("Ahmed Hassan");
  }

  lemma {:induction false} DifferentNamesDiffer()
    ensures NormalizeName(TypedName) != NormalizeName("Ahmed Hassan")
  {
    TypedNameLength();
    ReadNameLength();
  }

  /** "Ahmed Ali" typed against "Ahmed Hassan" read raises the flag. */
  lemma {:induction false} MismatchExample()
    ensures NameMismatch(BasicInfo(TypedName, Egyptian, EgyptianId), Some(ExtractedName("Ahmed Hassan")))
  {
    DifferentNamesDiffer();
  }

  lemma {:induction false} PaddedReadName()
    ensures NormalizeName(PaddedName) == NormalizeName(LowerName)
  {
    assert PaddedName == " " + LowerName + "";
    NormalizeIgnoresPadding(" ", LowerName, "");
  }

  lemma {:induction false} LowerGivenName()
    ensures ToLower(GivenName) == "ahmed"
  {
  }

  lemma {:induction false} LowerFamilyName()
    ensures ToLower(FamilyName) == " ali"
  {
  }

  lemma {:induction false} CapitalisedTypedName()
    ensures NormalizeName(TypedName) == NormalizeName(LowerName)
  {
    LowerGivenName();
    LowerFamilyName();
    ToLowerAppend(GivenName, FamilyName);
    NormalizeAbsorbsLowerCase(TypedName);
  }

  /** "Ahmed Ali" typed against " ahmed ali" read does not. */
  lemma {:induction false} NoMismatchExample()
    ensures !NameMismatch(BasicInfo(TypedName, Egyptian, EgyptianId), Some(ExtractedName(PaddedName)))
  {
    PaddedReadName();
    CapitalisedTypedName();
  }

  /**
   * The verification screen warns that a name mismatch will be flagged for human review, but
   * the stored decision never sees the names: a mismatching applicant can be stored with no review.
   */
  lemma {:induction false} MismatchedNameNotReviewed()
    ensures NameMismatch(BasicInfo(TypedName, Egyptian, EgyptianId), Some(ExtractedName("Ahmed Hassan")))
    ensures !Evaluator.Evaluate(BasicInfo(TypedName, Egyptian, EgyptianId), ExtractedName("Ahmed Hassan"), Date(2024, 6, 1)).needsHumanReview
  {
    MismatchExample();
  }

  /** `!file` in JavaScript: no image, or the empty string. */
  predicate NoImage(file: Option<string>) {
    file.None? || file.value == ""
  }

  /** The wizard's state: one field per piece of component state in App.tsx. */
  class Registration {
    var step: FormStep
    var basic: BasicInfo
    var file: Option<string>
    var extracted: Option<ExtractedData>
    var additional: AdditionalInfo
    var error: Option<string>
    var isProcessing: bool
    var records: seq<RegistrationRecord>
    var isAdmin: bool
    var loginError: string
    var adminPassword: string

    /**
     * The state invariant: stored ID numbers are unique; no extraction is in flight between
     * handler calls; the review and supplemental steps always have extracted data to show;
     * the dashboard step is only entered by an administrator.
     */
    ghost predicate Valid()
      reads this
    {
      && UniqueIdNumbers(records)
      && !isProcessing
      && (step == VerificationStep || step == AdditionalInfoStep ==> extracted.Some?)
      && (step == DashboardStep ==> isAdmin)
    }

    /** The initial state of every useState hook. */
    constructor ()
      ensures Valid()
      ensures step == BasicInfoStep && basic == BasicInfo("", Egyptian, EgyptianId)
      ensures file == None && extracted == None && error == None && !isProcessing
      ensures additional == AdditionalInfo(1, "University", "Unemployed", false)
      ensures records == [] && !isAdmin && loginError == "" && adminPassword == ""
    {
      step := BasicInfoStep;
      basic := BasicInfo("", Egyptian, EgyptianId);
      file := None;
      extracted := None;
      additional := AdditionalInfo(1, "University", "Unemployed", false);
      error := None;
      isProcessing := false;
      records := [];
      isAdmin := false;
      loginError := "";
      adminPassword := "";
    }

    /** The name, nationality and document-type inputs of the first step. */
    method EditBasic(b: BasicInfo)
      requires Valid()
      modifies this`basic
      ensures Valid() && basic == b
    {
      basic := b;
    }

    /** The family-size, education, employment and dependents inputs of the fourth step. */
    method EditAdditional(a: AdditionalInfo)
      requires Valid()
      modifies this`additional
      ensures Valid() && additional == a
    {
      additional := a;
    }

    /** An image arrived from the camera or the file picker. */
    method SelectImage(image: string)
      requires Valid()
      modifies this`file, this`error
      ensures Valid() && file == Some(image) && error == None
    {
      file := Some(image);
      error := None;
    }

    /** The "remove image" button. */
    method RemoveImage()
      requires Valid()
      modifies this`file
      ensures Valid() && file == None
    {
      file := None;
    }

    /** "Next" on the first step: a name that is blank after trimming keeps the applicant there. */
    method HandleBasicNext()
      requires Valid()
      modifies this`error, this`step
      ensures Valid()
      ensures AllSpace(basic.fullName) ==> error == Some(NameRequiredError) && step == old(step)
      ensures !AllSpace(basic.fullName) ==> error == None && step == IdUploadStep
    {
      if Trim(basic.fullName) == [] {
        error := Some(NameRequiredError);
        return;
      }
      error := None;
      step := IdUploadStep;
    }

    /**
     * "Analyze Document": hands the image to the recogniser and reacts to its outcome.
     * Only a readable, not yet recorded document is kept and moves the wizard to verification;
     * every other outcome leaves an error and keeps the step. Records are never touched.
     */
    method ProcessId(outcome: ExtractionOutcome)
      requires Valid()
      modifies this`isProcessing, this`error, this`extracted, this`step
      ensures Valid() && !isProcessing
      ensures NoImage(file) ==> error == old(error) && extracted == old(extracted) && step == old(step)
      ensures !NoImage(file) && outcome.Failure? ==>
        error == Some(ProcessingFailedError) && extracted == old(extracted) && step == old(step)
      ensures !NoImage(file) && outcome.Success? && !outcome.data.qualityCheck.isReadable ==>
        error == Some(RejectionMessage(outcome.data.qualityCheck)) && extracted == old(extracted) && step == old(step)
      ensures (!NoImage(file) && outcome.Success? && outcome.data.qualityCheck.isReadable
        && IsDuplicate(records, outcome.data.idNumber)) ==>
        error == Some(DuplicateIdError) && extracted == old(extracted) && step == old(step)
      ensures (!NoImage(file) && outcome.Success? && outcome.data.qualityCheck.isReadable
        && !IsDuplicate(records, outcome.data.idNumber)) ==>
        error == None && extracted == Some(outcome.data) && step == VerificationStep
    {
      if NoImage(file) {
        return;
      }
      isProcessing := true;
      error := None;
      match outcome {
        case Failure =>
          error := Some(ProcessingFailedError);
        case Success(result) =>
          if !result.qualityCheck.isReadable {
            error := Some(RejectionMessage(result.qualityCheck));
          } else if IsDuplicate(records, result.idNumber) {
            error := Some(DuplicateIdError);
          } else {
            extracted := Some(result);
            step := VerificationStep;
          }
      }
      isProcessing := false;
    }

    /**
     * "Submit Registration": re-checks for a duplicate, then appends exactly one record,
     * whose decision is the evaluator's verdict on this applicant for `today`.
     * The record's id and timestamp are supplied by the caller.
     */
    method SubmitFinalForm(newId: string, submittedAt: string, today: Date)
      requires Valid()
      modifies this`error, this`step, this`records
      ensures Valid()
      ensures extracted.None? ==> records == old(records) && step == old(step) && error == old(error)
      ensures extracted.Some? && IsDuplicate(old(records), extracted.value.idNumber) ==>
        records == old(records) && error == Some(DuplicateIdError) && step == IdUploadStep
      ensures extracted.Some? && !IsDuplicate(old(records), extracted.value.idNumber) ==>
        && records == old(records) + [RegistrationRecord(newId, basic, extracted.value, additional,
             Evaluator.Evaluate(basic, extracted.value, today), submittedAt)]
        && step == SummaryStep && error == old(error)
    {
      if extracted.None? {
        return;
      }
      var ex := extracted.value;
      if IsDuplicate(records, ex.idNumber) {
        error := Some(DuplicateIdError);
        step := IdUploadStep;
        return;
      }
      var eligibility := Evaluator.CalculateEligibility(basic, ex, today);
      var newRecord := RegistrationRecord(newId, basic, ex, additional, eligibility, submittedAt);
      AppendKeepsUnique(records, newRecord);
      records := records + [newRecord];
      step := SummaryStep;
    }

    /** "New Registration": a blank claim and no image or extraction; supplemental answers and the error stay. */
    method ResetForm()
      requires Valid()
      modifies this`basic, this`file, this`extracted, this`step
      ensures Valid()
      ensures basic == BasicInfo("", Egyptian, EgyptianId) && file == None && extracted == None
      ensures step == BasicInfoStep
    {
      basic := BasicInfo("", Egyptian, EgyptianId);
      file := None;
      extracted := None;
      step := BasicInfoStep;
    }

    /** Typing into the access-code box. */
    method EditAdminPassword(p: string)
      requires Valid()
      modifies this`adminPassword
      ensures Valid() && adminPassword == p
    {
      adminPassword := p;
    }

    /** The login form: only the configured access code opens the dashboard. */
    method HandleAdminLogin(accessCode: string)
      requires Valid()
      modifies this`isAdmin, this`step, this`loginError, this`adminPassword
      ensures Valid()
      ensures old(adminPassword) == accessCode ==>
        isAdmin && step == DashboardStep && loginError == "" && adminPassword == ""
      ensures old(adminPassword) != accessCode ==>
        isAdmin == old(isAdmin) && step == old(step) && loginError == InvalidCredentialsError
        && adminPassword == old(adminPassword)
    {
      if adminPassword == accessCode {
        isAdmin := true;
        step := DashboardStep;
        loginError := "";
        adminPassword := "";
      } else {
        loginError := InvalidCredentialsError;
      }
    }

    method HandleLogout()
      requires Valid()
      modifies this`isAdmin, this`step
      ensures Valid() && !isAdmin && step == BasicInfoStep
    {
      isAdmin := false;
      step := BasicInfoStep;
    }

    /** "Back" on the upload step. */
    method BackToBasicInfo()
      requires Valid() && step == IdUploadStep
      modifies this`step
      ensures Valid() && step == BasicInfoStep
    {
      step := BasicInfoStep;
    }

    /** "Back to Capture" on the verification step. */
    method BackToCapture()
      requires Valid() && step == VerificationStep
      modifies this`step
      ensures Valid() && step == IdUploadStep
    {
      step := IdUploadStep;
    }

    /** "Confirm & Proceed", shown only while extracted data is on screen. */
    method ConfirmExtraction()
      requires Valid() && step == VerificationStep && extracted.Some?
      modifies this`step
      ensures Valid() && step == AdditionalInfoStep
    {
      step := AdditionalInfoStep;
    }

    /** "Back" on the supplemental step. */
    method BackToVerification()
      requires Valid() && step == AdditionalInfoStep
      modifies this`step
      ensures Valid() && step == VerificationStep
    {
      step := VerificationStep;
    }

    /** "View Admin Dashboard" on the summary step, offered only to a logged-in administrator. */
    method ViewDashboard()
      requires Valid() && step == SummaryStep && isAdmin
      modifies this`step
      ensures Valid() && step == DashboardStep
    {
      step := DashboardStep;
    }

    /** "Back to Registration" on the dashboard. */
    method BackToRegistration()
      requires Valid() && step == DashboardStep
      modifies this`step
      ensures Valid() && step == BasicInfoStep
    {
      step := BasicInfoStep;
    }
  }

  /** Submitting the same document twice: the second submission is refused and the store does not grow. */
  method RepeatedSubmissionIsRefused(w: Registration, id1: string, id2: string, at: string, today: Date)
    requires w.Valid() && w.extracted.Some? && !IsDuplicate(w.records, w.extracted.value.idNumber)
    modifies w
    ensures w.Valid()
    ensures |w.records| == |old(w.records)| + 1
    ensures w.step == IdUploadStep && w.error == Some(DuplicateIdError)
  {
    w.SubmitFinalForm(id1, at, today);
    AppendKeepsUnique(old(w.records), w.records[|w.records| - 1]);
    w.SubmitFinalForm(id2, at, today);
  }
}
