/** The entities of the trainee-registration wizard (types.ts). */
module Types {

  datatype Option<+T> = None | Some(value: T)

  /** The three kinds of identity document an applicant may present. */
  datatype IdType = EgyptianId | UnhcrId | Passport {
    /** The string the application stores and compares. */
    function Label(): string {
      match this
      case EgyptianId => "Egyptian ID"
      case UnhcrId => "UNHCR ID"
      case Passport => "Passport"
    }
  }

  /** Reads a document-type label back; only the three labels are accepted. */
  function ParseIdType(s: string): (r: Option<IdType>)
    ensures r.Some? ==> r.value.Label() == s
    ensures r.None? ==> s != "Egyptian ID" && s != "UNHCR ID" && s != "Passport"
  {
    if s == "Egyptian ID" then Some(EgyptianId)
    else if s == "UNHCR ID" then Some(UnhcrId)
    else if s == "Passport" then Some(Passport)
    else None
  }

  /** Every IdType is named by exactly one label: labelling then parsing is the identity. */
  lemma {:induction false} IdTypeLabelRoundTrip(t: IdType)
    ensures ParseIdType(t.Label()) == Some(t)
  {
    match t
    case EgyptianId =>
    case UnhcrId =>
    case Passport =>
  }

  /** The four nationalities the wizard offers. */
  datatype Nationality = Egyptian | Sudanese | Syrian | Other {
    function Label(): string {
      match this
      case Egyptian => "Egyptian"
      case Sudanese => "Sudanese"
      case Syrian => "Syrian"
      case Other => "Other"
    }
  }

  function ParseNationality(s: string): (r: Option<Nationality>)
    ensures r.Some? ==> r.value.Label() == s
    ensures r.None? ==> s != "Egyptian" && s != "Sudanese" && s != "Syrian" && s != "Other"
  {
    if s == "Egyptian" then Some(Egyptian)
    else if s == "Sudanese" then Some(Sudanese)
    else if s == "Syrian" then Some(Syrian)
    else if s == "Other" then Some(Other)
    else None
  }

  lemma {:induction false} NationalityLabelRoundTrip(n: Nationality)
    ensures ParseNationality(n.Label()) == Some(n)
  {
    match n
    case Egyptian =>
    case Sudanese =>
    case Syrian =>
    case Other =>
  }

  /** What the applicant types in the first step. */
  datatype BasicInfo = BasicInfo(fullName: string, nationality: Nationality, idType: IdType)

  /** A calendar date; the application carries dates of birth as "YYYY-MM-DD". */
  datatype Date = Date(year: int, month: int, day: int)

  /** Per-field confidence ratios reported by the recogniser. */
  datatype ConfidenceScores = ConfidenceScores(fullName: real, dob: real, idNumber: real)

  /** The recogniser's verdict on the image; `reason` is optional. */
  datatype QualityCheck = QualityCheck(isClear: bool, isComplete: bool, isReadable: bool, reason: Option<string>)

  /** The data the recogniser extracts from an identity document. */
  datatype ExtractedData = ExtractedData(
    fullName: string,
    dob: Date,
    idNumber: string,
    documentType: string,
    confidenceScores: ConfidenceScores,
    qualityCheck: QualityCheck)

  /** Supplemental answers from the fourth step. */
  datatype AdditionalInfo = AdditionalInfo(
    familySize: int,
    educationLevel: string,
    employmentStatus: string,
    financialResponsibility: bool)

  /** The automated decision stored with every record. */
  datatype Eligibility = Eligibility(isEligible: bool, reason: seq<string>, needsHumanReview: bool)

  /** One finalised registration. */
  datatype RegistrationRecord = RegistrationRecord(
    id: string,
    basic: BasicInfo,
    extracted: ExtractedData,
    additional: AdditionalInfo,
    eligibility: Eligibility,
    submittedAt: string)

  /** The wizard's screens, numbered 0 to 5 in the order the applicant meets them. */
  datatype FormStep = BasicInfoStep | IdUploadStep | VerificationStep | AdditionalInfoStep | SummaryStep | DashboardStep {
    function Ordinal(): (n: nat)
      ensures n <= 5
    {
      match this
      case BasicInfoStep => 0
      case IdUploadStep => 1
      case VerificationStep => 2
      case AdditionalInfoStep => 3
      case SummaryStep => 4
      case DashboardStep => 5
    }

    /** The enum's order, used by the progress bar to mark finished steps. */
    predicate Before(other: FormStep) {
      Ordinal() < other.Ordinal()
    }
  }

  /** The step with a given numeric value, if any. */
  function StepOf(n: int): (r: Option<FormStep>)
    ensures r.Some? <==> 0 <= n <= 5
    ensures r.Some? ==> r.value.Ordinal() == n
  {
    if n == 0 then Some(BasicInfoStep)
    else if n == 1 then Some(IdUploadStep)
    else if n == 2 then Some(VerificationStep)
    else if n == 3 then Some(AdditionalInfoStep)
    else if n == 4 then Some(SummaryStep)
    else if n == 5 then Some(DashboardStep)
    else None
  }

  /** The numbering is a bijection between the six steps and 0..5. */
  lemma {:induction false} StepOrdinalRoundTrip(s: FormStep)
    ensures StepOf(s.Ordinal()) == Some(s)
  {
    match s
    case BasicInfoStep =>
    case IdUploadStep =>
    case VerificationStep =>
    case AdditionalInfoStep =>
    case SummaryStep =>
    case DashboardStep =>
  }

  /** The step order is the chain BASIC_INFO < ID_UPLOAD < VERIFICATION < ADDITIONAL_INFO < SUMMARY < DASHBOARD, a strict total order. */
  lemma {:induction false} StepOrderIsChain(s: FormStep, t: FormStep)
    ensures s.Before(t) || s == t || t.Before(s)
    ensures !(s.Before(t) && t.Before(s))
    ensures BasicInfoStep.Before(IdUploadStep) && IdUploadStep.Before(VerificationStep)
    ensures VerificationStep.Before(AdditionalInfoStep) && AdditionalInfoStep.Before(SummaryStep)
    ensures SummaryStep.Before(DashboardStep)
  {
    StepOrdinalRoundTrip(s);
    StepOrdinalRoundTrip(t);
  }
}
