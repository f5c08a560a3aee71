/**
 * The eligibility evaluator (utils.ts): whole-year age against an 18-60 window,
 * a 0.85 confidence threshold and a manual-review rule for Sudanese passports.
 * The source reads "today" from the clock; here it is a parameter.
 */
module Evaluator {
  import opened Types
  import opened Text

  const MinAge := 18
  const MaxAge := 60
  const ConfidenceThreshold: real := 0.85

  const AgeReasonPrefix := "Out of age range (18-60). Detected age: "
  const LowConfidenceReason := "Low confidence scores in data extraction."
  // Split in two only so that the verifier can look inside the literal; the value is one string.
  const SudanesePassportReason := "Sudanese Passport entry date " + "requires manual verification (Post-April 2023 rule)."

  /** Lexicographic order on (year, month, day). */
  predicate DateBefore(a: Date, b: Date) {
    a.year < b.year ||
    (a.year == b.year && (a.month < b.month || (a.month == b.month && a.day < b.day)))
  }

  /** The n-th anniversary of `dob` has come by `today`. */
  predicate AnniversaryReached(dob: Date, today: Date, n: int) {
    !DateBefore(today, Date(dob.year + n, dob.month, dob.day))
  }

  /**
   * Age in whole years: the year difference, one less while this year's birthday is still ahead.
   * It is the number of anniversaries that have come, so the next one has not.
   */
  function AgeOn(dob: Date, today: Date): (age: int)
    ensures AnniversaryReached(dob, today, age)
    ensures !AnniversaryReached(dob, today, age + 1)
  {
    var m := today.month - dob.month;
    if m < 0 || (m == 0 && today.day < dob.day) then today.year - dob.year - 1
    else today.year - dob.year
  }

  /** Anniversaries are reached in order, so AgeOn is the only count with the property above. */
  lemma {:induction false} AgeIsUnique(dob: Date, today: Date, n: int)
    requires AnniversaryReached(dob, today, n) && !AnniversaryReached(dob, today, n + 1)
    ensures n == AgeOn(dob, today)
  {
  }

  /** `Object.values(confidenceScores)`: the three scores in declaration order. */
  function Scores(c: ConfidenceScores): seq<real> {
    [c.fullName, c.dob, c.idNumber]
  }

  /** Some confidence score is below the threshold (`Object.values(...).some(score => score < 0.85)`). */
  predicate LowConfidence(c: ConfidenceScores): (low: bool)
    ensures low <==> exists i :: 0 <= i < |Scores(c)| && Scores(c)[i] < ConfidenceThreshold
  {
    assert Scores(c)[0] == c.fullName && Scores(c)[1] == c.dob && Scores(c)[2] == c.idNumber;
    c.fullName < ConfidenceThreshold || c.dob < ConfidenceThreshold || c.idNumber < ConfidenceThreshold
  }

  predicate IsSudanesePassport(basic: BasicInfo) {
    basic.nationality == Sudanese && basic.idType == Passport
  }

  /** The age message: the fixed prefix followed by the detected age as JavaScript renders it. */
  function AgeReason(age: int): (msg: string)
    ensures AgeReasonPrefix <= msg
    ensures msg[|AgeReasonPrefix|..] == IntToString(age)
  {
    AgeReasonPrefix + IntToString(age)
  }

  predicate InAgeRange(age: int) {
    MinAge <= age <= MaxAge
  }

  /** The decision calculateEligibility returns, evaluated on the given day. */
  function Evaluate(basic: BasicInfo, extracted: ExtractedData, today: Date): (e: Eligibility)
    ensures e.isEligible <==> InAgeRange(AgeOn(extracted.dob, today))
    ensures e.needsHumanReview <==> LowConfidence(extracted.confidenceScores) || IsSudanesePassport(basic)
    ensures |e.reason| <= 3
    ensures e.reason == [] <==> e.isEligible && !e.needsHumanReview
    ensures forall r :: r in e.reason ==>
      r == AgeReason(AgeOn(extracted.dob, today)) || r == LowConfidenceReason || r == SudanesePassportReason
  {
    var age := AgeOn(extracted.dob, today);
    var lowConf := LowConfidence(extracted.confidenceScores);
    var sudanese := IsSudanesePassport(basic);
    Eligibility(
      InAgeRange(age),
      (if InAgeRange(age) then [] else [AgeReason(age)])
        + (if lowConf then [LowConfidenceReason] else [])
        + (if sudanese then [SudanesePassportReason] else []),
      lowConf || sudanese)
  }

  /**
   * calculateEligibility as written: a reasons list that is pushed onto and flags
   * that start true/false and are reassigned by each rule in turn.
   */
  method CalculateEligibility(basic: BasicInfo, extracted: ExtractedData, today: Date) returns (e: Eligibility)
    ensures e == Evaluate(basic, extracted, today)
  {
    var reasons: seq<string> := [];
    var isEligible := true;
    var needsHumanReview := false;

    var birthDate := extracted.dob;
    var age := today.year - birthDate.year;
    var m := today.month - birthDate.month;
    if m < 0 || (m == 0 && today.day < birthDate.day) {
      age := age - 1;
    }
    assert age == AgeOn(birthDate, today);

    if age < MinAge || age > MaxAge {
      isEligible := false;
      reasons := reasons + [AgeReasonPrefix + IntToString(age)];
    }
    ghost var ageReasons := reasons;
    assert ageReasons == if InAgeRange(age) then [] else [AgeReason(age)];

    var scores := extracted.confidenceScores;
    var lowConf := scores.fullName < 0.85 || scores.dob < 0.85 || scores.idNumber < 0.85;
    if lowConf {
      needsHumanReview := true;
      reasons := reasons + [LowConfidenceReason];
    }
    assert lowConf == LowConfidence(scores);
    assert reasons == ageReasons + (if lowConf then [LowConfidenceReason] else []);

    if basic.nationality == Sudanese && basic.idType == Passport {
      needsHumanReview := true;
      reasons := reasons + [SudanesePassportReason];
    }

    e := Eligibility(isEligible, reasons, needsHumanReview);
  }

  /** Which rule a reason string comes from, by the order the rules run in. */
  function RuleRank(reason: string): nat {
    if reason == LowConfidenceReason then 1
    else if reason == SudanesePassportReason then 2
    else 0
  }

  /** The age reason is never mistaken for the other two: it starts with 'O', they with 'L' and 'S'. */
  lemma {:induction false} AgeReasonIsDistinct(age: int)
    ensures AgeReason(age) != LowConfidenceReason
    ensures AgeReason(age) != SudanesePassportReason
    ensures RuleRank(AgeReason(age)) == 0
  {
    assert AgeReason(age)[0] == 'O';
    assert LowConfidenceReason[0] == 'L';
    assert SudanesePassportReason[0] == 'S';
  }

  /** Reasons appear in the order age, confidence, Sudanese passport, each at most once. */
  lemma {:induction false} ReasonsInRuleOrder(basic: BasicInfo, extracted: ExtractedData, today: Date)
    ensures var rs := Evaluate(basic, extracted, today).reason;
      forall i, j :: 0 <= i < j < |rs| ==> RuleRank(rs[i]) < RuleRank(rs[j])
  {
    AgeReasonIsDistinct(AgeOn(extracted.dob, today));
  }

  /** Each rule contributes its reason exactly when it fires. */
  lemma {:induction false} ReasonsMatchRules(basic: BasicInfo, extracted: ExtractedData, today: Date)
    ensures var e := Evaluate(basic, extracted, today);
      var age := AgeOn(extracted.dob, today);
      && (AgeReason(age) in e.reason <==> !e.isEligible)
      && (LowConfidenceReason in e.reason <==> LowConfidence(extracted.confidenceScores))
      && (SudanesePassportReason in e.reason <==> IsSudanesePassport(basic))
  {
    AgeReasonIsDistinct(AgeOn(extracted.dob, today));
  }

  /** The age reason carries the detected age: two different ages never give the same message. */
  lemma {:induction false} AgeReasonDeterminesAge(a: int, b: int)
    requires AgeReason(a) == AgeReason(b)
    ensures a == b
  {
    var p := AgeReasonPrefix;
    assert IntToString(a) == AgeReason(a)[|p|..];
    assert IntToString(b) == AgeReason(b)[|p|..];
    IntToStringInjective(a, b);
  }

  /** Confidence scores, nationality and document type never change isEligible: only the age does. */
  lemma {:induction false} EligibilityDependsOnlyOnAge(b1: BasicInfo, x1: ExtractedData, b2: BasicInfo, x2: ExtractedData, today: Date)
    requires x1.dob == x2.dob
    ensures Evaluate(b1, x1, today).isEligible == Evaluate(b2, x2, today).isEligible
  {
  }

  /** The date of birth never changes needsHumanReview. */
  lemma {:induction false} ReviewIgnoresAge(basic: BasicInfo, x1: ExtractedData, x2: ExtractedData, today: Date)
    requires x1.confidenceScores == x2.confidenceScores
    ensures Evaluate(basic, x1, today).needsHumanReview == Evaluate(basic, x2, today).needsHumanReview
  {
  }

  /** The Sudanese-passport rule flags for review whatever age and confidence say. */
  lemma {:induction false} SudanesePassportAlwaysReviewed(basic: BasicInfo, extracted: ExtractedData, today: Date)
    requires basic.nationality == Sudanese && basic.idType == Passport
    ensures var e := Evaluate(basic, extracted, today);
      e.needsHumanReview && e.reason[|e.reason| - 1] == SudanesePassportReason
  {
  }

  /**
   * The decision never looks at either name: a typed name that does not match the name read
   * from the document changes neither eligibility nor review.
   */
  lemma {:induction false} DecisionIgnoresNames(basic: BasicInfo, extracted: ExtractedData, today: Date, typed: string, read: string)
    ensures Evaluate(basic.(fullName := typed), extracted.(fullName := read), today) == Evaluate(basic, extracted, today)
  {
  }

  /** Ages 18 and 60 are inside the window; 17 and 61 are not. */
  lemma {:induction false} AgeWindowBoundaries(basic: BasicInfo, extracted: ExtractedData, today: Date)
    ensures var age := AgeOn(extracted.dob, today);
      (age == 18 || age == 60) ==> Evaluate(basic, extracted, today).isEligible
    ensures var age := AgeOn(extracted.dob, today);
      (age == 17 || age == 61) ==> !Evaluate(basic, extracted, today).isEligible
  {
  }

  /** An applicant born on 2000-01-01, read with confidence 0.95, evaluated in mid-2024 (age 24). */
  lemma {:induction false} OmarKhaledScenario()
    ensures Evaluate(
      BasicInfo("Omar Khaled", Egyptian, EgyptianId),
      ExtractedData("Omar Khaled", Date(2000, 1, 1), "X1", "Egyptian ID",
        ConfidenceScores(0.95, 0.95, 0.95), QualityCheck(true, true, true, None)),
      Date(2024, 6, 1))
      == Eligibility(true, [], false)
  {
  }

  /** A fifteen-year-old is rejected and the reason names the detected age. */
  lemma {:induction false} UnderageScenario()
    ensures var e := Evaluate(
      BasicInfo("Omar Khaled", Egyptian, EgyptianId),
      ExtractedData("Omar Khaled", Date(2009, 3, 10), "X2", "Egyptian ID",
        ConfidenceScores(0.95, 0.95, 0.95), QualityCheck(true, true, true, None)),
      Date(2024, 6, 1));
      !e.isEligible && e.reason == ["Out of age range (18-60). Detected age: 15"]
  {
    assert AgeOn(Date(2009, 3, 10), Date(2024, 6, 1)) == 15;
    assert NatToString(15) == "15";
    assert AgeReason(15) == "Out of age range (18-60). Detected age: 15";
  }

  /** formatID: every branch returns the identifier unchanged. */
  function FormatId(id: string, idType: string): (r: string)
    ensures r == id
  {
    if idType == EgyptianId.Label() && |id| == 14 then id else id
  }
}
