/**
 * The reporting aggregates of the administrator dashboard (components/AdminDashboard.tsx):
 * status counts, the per-record status label, the review-flags text and the
 * per-nationality tally. Charts and layout are not modelled.
 */
module Dashboard {
  import opened Types
  import opened Text
  import Evaluator

  predicate IsAutoEligible(e: Eligibility) {
    e.isEligible && !e.needsHumanReview
  }

  predicate IsForReview(e: Eligibility) {
    e.needsHumanReview
  }

  predicate IsRejected(e: Eligibility) {
    !e.isEligible
  }

  /** `records.filter(r => p(r.eligibility)).length`. */
  function CountWhere(rs: seq<RegistrationRecord>, p: Eligibility -> bool): (n: nat)
    ensures n <= |rs|
  {
    if rs == [] then 0
    else CountWhere(rs[..|rs| - 1], p) + (if p(rs[|rs| - 1].eligibility) then 1 else 0)
  }

  datatype Stats = Stats(total: nat, eligible: nat, review: nat, rejected: nat)

  /**
   * Every record is auto-eligible, flagged for review or rejected (possibly both of the last two),
   * and the auto-eligible ones are neither flagged nor rejected.
   */
  lemma {:induction false} CountsCoverRecords(rs: seq<RegistrationRecord>)
    ensures CountWhere(rs, IsAutoEligible) + CountWhere(rs, IsRejected) <= |rs|
    ensures |rs| <= CountWhere(rs, IsAutoEligible) + CountWhere(rs, IsForReview) + CountWhere(rs, IsRejected)
  {
    if rs != [] {
      CountsCoverRecords(rs[..|rs| - 1]);
    }
  }

  /** The four numbers at the top of the dashboard. */
  function ComputeStats(rs: seq<RegistrationRecord>): (s: Stats)
    ensures s.total == |rs|
    ensures s.eligible <= s.total && s.review <= s.total && s.rejected <= s.total
    ensures s.eligible + s.rejected <= s.total <= s.eligible + s.review + s.rejected
  {
    CountsCoverRecords(rs);
    Stats(|rs|, CountWhere(rs, IsAutoEligible), CountWhere(rs, IsForReview), CountWhere(rs, IsRejected))
  }

  /** The status badge shown for each record. */
  datatype Status = Eligible | Flagged | Rejected {
    function Text(): string {
      match this
      case Eligible => "Eligible"
      case Flagged => "Flagged"
      case Rejected => "Rejected"
    }
  }

  /** Exactly one badge per decision: rejected when ineligible, flagged when eligible but under review. */
  function StatusOf(e: Eligibility): (st: Status)
    ensures st == Rejected <==> IsRejected(e)
    ensures st == Flagged <==> e.isEligible && e.needsHumanReview
    ensures st == Eligible <==> IsAutoEligible(e)
  {
    if e.isEligible then (if e.needsHumanReview then Flagged else Eligible) else Rejected
  }

  predicate LabelledEligible(e: Eligibility) {
    StatusOf(e) == Eligible
  }

  predicate LabelledFlagged(e: Eligibility) {
    StatusOf(e) == Flagged
  }

  predicate LabelledRejected(e: Eligibility) {
    StatusOf(e) == Rejected
  }

  /** The table shows as many "Eligible" badges as the Eligible counter, and the badges partition the records. */
  lemma {:induction false} LabelsAgreeWithStats(rs: seq<RegistrationRecord>)
    ensures CountWhere(rs, LabelledEligible) == ComputeStats(rs).eligible
    ensures CountWhere(rs, LabelledRejected) == ComputeStats(rs).rejected
    ensures CountWhere(rs, LabelledEligible) + CountWhere(rs, LabelledFlagged) + CountWhere(rs, LabelledRejected) == |rs|
  {
    if rs != [] {
      LabelsAgreeWithStats(rs[..|rs| - 1]);
    }
  }

  /** The "Review Flags" cell: the reasons joined with ", ", or "None" when there are none. */
  function ReviewFlags(reasons: seq<string>): (s: string)
    ensures reasons == [] ==> s == "None"
    ensures reasons != [] ==> reasons[0] <= s
  {
    if |reasons| > 0 then Join(reasons, ", ") else "None"
  }

  /**
   * Every reason is in the cell: the i-th comes after the earlier ones joined and a ", ",
   * and one more reason adds ", " and that reason at the end.
   */
  lemma {:induction false} ReviewFlagsListsEveryReason(reasons: seq<string>, i: nat, more: string)
    requires i < |reasons|
    ensures 0 < i ==> ReviewFlags(reasons) == Join(reasons[..i], ", ") + ", " + Join(reasons[i..], ", ")
    ensures reasons[i] <= Join(reasons[i..], ", ")
    ensures ReviewFlags(reasons + [more]) == ReviewFlags(reasons) + ", " + more
  {
    JoinHasPart(reasons, ", ", i);
    JoinConcat(reasons, [more], ", ");
  }

  /** For a decision the evaluator produced, the cell reads "None" exactly when the record is auto-eligible. */
  lemma {:induction false} ReviewFlagsNoneIffAutoEligible(basic: BasicInfo, extracted: ExtractedData, today: Date)
    ensures var e := Evaluator.Evaluate(basic, extracted, today);
      ReviewFlags(e.reason) == "None" <==> IsAutoEligible(e)
  {
    var e := Evaluator.Evaluate(basic, extracted, today);
    if e.reason != [] {
      var first := e.reason[0];
      Evaluator.AgeReasonIsDistinct(Evaluator.AgeOn(extracted.dob, today));
      assert first[0] == 'O' || first[0] == 'L' || first[0] == 'S' by {
        assert Evaluator.LowConfidenceReason[0] == 'L';
        assert Evaluator.SudanesePassportReason[0] == 'S';
        assert Evaluator.AgeReason(Evaluator.AgeOn(extracted.dob, today))[0] == 'O';
      }
      assert ReviewFlags(e.reason)[0] == first[0];
    }
  }

  /** One slice of the nationality pie chart. */
  datatype Slice = Slice(name: Nationality, value: nat)

  /** `acc.find(item => item.name === n)`, as an index; |acc| when there is none. */
  function FindSlice(acc: seq<Slice>, n: Nationality): (i: nat)
    ensures i <= |acc|
    ensures i < |acc| ==> acc[i].name == n
    ensures forall k :: 0 <= k < i ==> acc[k].name != n
  {
    if acc == [] then 0 else if acc[0].name == n then 0 else 1 + FindSlice(acc[1..], n)
  }

  /** One step of the reduce: bump the existing slice, or append a new one with value 1. */
  function AddToTally(acc: seq<Slice>, n: Nationality): (r: seq<Slice>)
    ensures |acc| <= |r| <= |acc| + 1
    ensures forall k :: 0 <= k < |acc| ==> r[k].name == acc[k].name
    ensures forall k :: 0 <= k < |acc| && acc[k].name != n ==> r[k] == acc[k]
    ensures FindSlice(r, n) < |r|
    ensures SumValues(r) == SumValues(acc) + 1
    ensures |r| == |acc| <==> FindSlice(acc, n) < |acc|
    ensures FindSlice(acc, n) < |acc| ==> r[FindSlice(acc, n)].value == acc[FindSlice(acc, n)].value + 1
    ensures |r| > |acc| ==> r[|acc|] == Slice(n, 1)
  {
    var i := FindSlice(acc, n);
    if i < |acc| then
      SumValuesBump(acc, i);
      acc[i := acc[i].(value := acc[i].value + 1)]
    else
      SumValuesAppend(acc, Slice(n, 1));
      FindSliceAppend(acc, Slice(n, 1), n);
      acc + [Slice(n, 1)]
  }

  /** The reduce over all records, from the first to the last; its slices add up to the number of records. */
  function Tally(rs: seq<RegistrationRecord>): (t: seq<Slice>)
    ensures SumValues(t) == |rs|
  {
    if rs == [] then [] else AddToTally(Tally(rs[..|rs| - 1]), rs[|rs| - 1].basic.nationality)
  }

  /** The linear search behind `acc.find`. */
  method FindSliceIndex(acc: seq<Slice>, name: Nationality) returns (j: nat)
    ensures j == FindSlice(acc, name)
  {
    j := 0;
    while j < |acc| && acc[j].name != name
      invariant 0 <= j <= |acc|
      invariant forall k :: 0 <= k < j ==> acc[k].name != name
    {
      j := j + 1;
    }
  }

  /** The reduce as the component runs it: a loop that mutates the accumulator. */
  method NationalityData(records: seq<RegistrationRecord>) returns (acc: seq<Slice>)
    ensures acc == Tally(records)
  {
    acc := [];
    var i := 0;
    while i < |records|
      invariant 0 <= i <= |records|
      invariant acc == Tally(records[..i])
    {
      var name := records[i].basic.nationality;
      var j := FindSliceIndex(acc, name);
      ghost var next := AddToTally(acc, name);
      assert Tally(records[..i + 1]) == next by {
        assert records[..i + 1][..i] == records[..i];
      }
      if j < |acc| {
        acc := acc[j := acc[j].(value := acc[j].value + 1)];
      } else {
        acc := acc + [Slice(name, 1)];
      }
      assert acc == next;
      i := i + 1;
    }
    assert records[..i] == records;
  }

  function CountNationality(rs: seq<RegistrationRecord>, n: Nationality): (c: nat)
    ensures c <= |rs|
  {
    if rs == [] then 0
    else CountNationality(rs[..|rs| - 1], n) + (if rs[|rs| - 1].basic.nationality == n then 1 else 0)
  }

  /** Index of the first record with nationality n; |rs| when there is none. */
  function FirstIndex(rs: seq<RegistrationRecord>, n: Nationality): (i: nat)
    ensures i <= |rs|
    ensures i < |rs| ==> rs[i].basic.nationality == n
    ensures forall k :: 0 <= k < i ==> rs[k].basic.nationality != n
  {
    if rs == [] then 0 else if rs[0].basic.nationality == n then 0 else 1 + FirstIndex(rs[1..], n)
  }

  predicate DistinctNames(acc: seq<Slice>) {
    forall i, j :: 0 <= i < j < |acc| ==> acc[i].name != acc[j].name
  }

  function SumValues(acc: seq<Slice>): nat {
    if acc == [] then 0 else acc[0].value + SumValues(acc[1..])
  }

  lemma {:induction false} FindSliceAppend(acc: seq<Slice>, s: Slice, n: Nationality)
    ensures FindSlice(acc + [s], n) ==
      if FindSlice(acc, n) < |acc| then FindSlice(acc, n) else if s.name == n then |acc| else |acc| + 1
  {
    if acc == [] {
      assert acc + [s] == [s];
    } else {
      assert (acc + [s])[1..] == acc[1..] + [s];
      FindSliceAppend(acc[1..], s, n);
    }
  }

  lemma {:induction false} FindSliceSameNames(a: seq<Slice>, b: seq<Slice>, n: Nationality)
    requires |a| == |b|
    requires forall k :: 0 <= k < |a| ==> a[k].name == b[k].name
    ensures FindSlice(a, n) == FindSlice(b, n)
  {
  }

  lemma {:induction false} FirstIndexAppend(rs: seq<RegistrationRecord>, r: RegistrationRecord, n: Nationality)
    ensures FirstIndex(rs + [r], n) ==
      if FirstIndex(rs, n) < |rs| then FirstIndex(rs, n) else if r.basic.nationality == n then |rs| else |rs| + 1
  {
    if rs == [] {
      assert rs + [r] == [r];
    } else {
      assert (rs + [r])[1..] == rs[1..] + [r];
      FirstIndexAppend(rs[1..], r, n);
    }
  }

  /** A nationality is counted at least once exactly when some record carries it. */
  lemma {:induction false} CountPositiveIffPresent(rs: seq<RegistrationRecord>, n: Nationality)
    ensures CountNationality(rs, n) > 0 <==> FirstIndex(rs, n) < |rs|
  {
    if rs != [] {
      var front, last := rs[..|rs| - 1], rs[|rs| - 1];
      assert rs == front + [last];
      CountPositiveIffPresent(front, n);
      FirstIndexAppend(front, last, n);
    }
  }

  lemma {:induction false} CountNationalityAppend(rs: seq<RegistrationRecord>, r: RegistrationRecord, n: Nationality)
    ensures CountNationality(rs + [r], n) == CountNationality(rs, n) + (if r.basic.nationality == n then 1 else 0)
  {
    assert (rs + [r])[..|rs|] == rs;
  }

  /** The tally t describes the records rs: one slice per nationality present, valued by its count. */
  predicate Describes(t: seq<Slice>, rs: seq<RegistrationRecord>) {
    && DistinctNames(t)
    && (forall i :: 0 <= i < |t| ==> t[i].value == CountNationality(rs, t[i].name) >= 1)
    && (forall n :: FindSlice(t, n) < |t| <==> CountNationality(rs, n) > 0)
  }

  lemma {:induction false} BumpKeepsDescription(t: seq<Slice>, rs: seq<RegistrationRecord>, r: RegistrationRecord)
    requires Describes(t, rs)
    requires FindSlice(t, r.basic.nationality) < |t|
    ensures Describes(AddToTally(t, r.basic.nationality), rs + [r])
  {
    var name := r.basic.nationality;
    var i := FindSlice(t, name);
    var t' := t[i := t[i].(value := t[i].value + 1)];
    assert AddToTally(t, name) == t';
    forall n ensures CountNationality(rs + [r], n) == CountNationality(rs, n) + (if name == n then 1 else 0) {
      CountNationalityAppend(rs, r, n);
    }
    forall k | 0 <= k < |t'| ensures t'[k].name == t[k].name {
    }
    assert DistinctNames(t');
    forall k | 0 <= k < |t'| ensures t'[k].value == CountNationality(rs + [r], t'[k].name) >= 1 {
      assert t[k].value == CountNationality(rs, t[k].name);
    }
    forall n ensures FindSlice(t', n) < |t'| <==> CountNationality(rs + [r], n) > 0 {
      FindSliceSameNames(t', t, n);
    }
  }

  lemma {:induction false} AppendKeepsDescription(t: seq<Slice>, rs: seq<RegistrationRecord>, r: RegistrationRecord)
    requires Describes(t, rs)
    requires FindSlice(t, r.basic.nationality) == |t|
    ensures Describes(AddToTally(t, r.basic.nationality), rs + [r])
  {
    var name := r.basic.nationality;
    var t' := AddToTally(t, name);
    assert t' == t + [Slice(name, 1)];
    forall n ensures CountNationality(rs + [r], n) == CountNationality(rs, n) + (if name == n then 1 else 0) {
      CountNationalityAppend(rs, r, n);
    }
    assert CountNationality(rs, name) == 0;
    forall i, j | 0 <= i < j < |t'| ensures t'[i].name != t'[j].name {
      if j == |t| {
        assert t'[i] == t[i];
      }
    }
    forall k | 0 <= k < |t'| ensures t'[k].value == CountNationality(rs + [r], t'[k].name) >= 1 {
      if k < |t| {
        assert t'[k] == t[k] && t[k].name != name;
      }
    }
    forall n ensures FindSlice(t', n) < |t'| <==> CountNationality(rs + [r], n) > 0 {
      FindSliceAppend(t, Slice(name, 1), n);
    }
  }

  /**
   * The tally lists each nationality that occurs exactly once, with a value equal to the
   * number of records of that nationality.
   */
  lemma {:induction false} TallyCountsNationalities(rs: seq<RegistrationRecord>)
    ensures Describes(Tally(rs), rs)
  {
    if rs != [] {
      var front, last := rs[..|rs| - 1], rs[|rs| - 1];
      assert rs == front + [last];
      TallyCountsNationalities(front);
      if FindSlice(Tally(front), last.basic.nationality) < |Tally(front)| {
        BumpKeepsDescription(Tally(front), front, last);
      } else {
        AppendKeepsDescription(Tally(front), front, last);
      }
    }
  }

  /** The slices of t are ordered by where their nationalities first occur in rs. */
  predicate InFirstAppearanceOrder(t: seq<Slice>, rs: seq<RegistrationRecord>) {
    forall i, j :: 0 <= i < j < |t| ==> FirstIndex(rs, t[i].name) < FirstIndex(rs, t[j].name)
  }

  /** Every nationality in a describing tally occurs among the records, so later records do not move its first occurrence. */
  lemma {:induction false} ListedNamesOccur(t: seq<Slice>, rs: seq<RegistrationRecord>, r: RegistrationRecord)
    requires Describes(t, rs)
    ensures forall k :: 0 <= k < |t| ==> FirstIndex(rs, t[k].name) < |rs|
    ensures forall k :: 0 <= k < |t| ==> FirstIndex(rs + [r], t[k].name) == FirstIndex(rs, t[k].name)
  {
    forall k | 0 <= k < |t| ensures FirstIndex(rs, t[k].name) < |rs| && FirstIndex(rs + [r], t[k].name) == FirstIndex(rs, t[k].name) {
      assert FindSlice(t, t[k].name) <= k;
      CountPositiveIffPresent(rs, t[k].name);
      FirstIndexAppend(rs, r, t[k].name);
    }
  }

  lemma {:induction false} AddToTallyKeepsOrder(t: seq<Slice>, rs: seq<RegistrationRecord>, r: RegistrationRecord)
    requires Describes(t, rs) && InFirstAppearanceOrder(t, rs)
    ensures InFirstAppearanceOrder(AddToTally(t, r.basic.nationality), rs + [r])
  {
    var name := r.basic.nationality;
    var t' := AddToTally(t, name);
    ListedNamesOccur(t, rs, r);
    if FindSlice(t, name) == |t| {
      assert t' == t + [Slice(name, 1)];
      FirstIndexAppend(rs, r, name);
      CountPositiveIffPresent(rs, name);
      assert FirstIndex(rs + [r], name) == |rs|;
      forall i, j | 0 <= i < j < |t'| ensures FirstIndex(rs + [r], t'[i].name) < FirstIndex(rs + [r], t'[j].name) {
        assert t'[i] == t[i];
        if j < |t| {
          assert t'[j] == t[j];
        }
      }
    } else {
      forall i, j | 0 <= i < j < |t'| ensures FirstIndex(rs + [r], t'[i].name) < FirstIndex(rs + [r], t'[j].name) {
        assert t'[i].name == t[i].name && t'[j].name == t[j].name;
      }
    }
  }

  /** The slices come in the order in which their nationalities first occur among the records. */
  lemma {:induction false} TallyInFirstAppearanceOrder(rs: seq<RegistrationRecord>)
    ensures InFirstAppearanceOrder(Tally(rs), rs)
  {
    if rs != [] {
      var front, last := rs[..|rs| - 1], rs[|rs| - 1];
      assert rs == front + [last];
      TallyInFirstAppearanceOrder(front);
      TallyCountsNationalities(front);
      AddToTallyKeepsOrder(Tally(front), front, last);
    }
  }

  lemma {:induction false} SumValuesAppend(acc: seq<Slice>, s: Slice)
    ensures SumValues(acc + [s]) == SumValues(acc) + s.value
  {
    if acc == [] {
      assert acc + [s] == [s];
    } else {
      assert (acc + [s])[1..] == acc[1..] + [s];
      SumValuesAppend(acc[1..], s);
    }
  }

  lemma {:induction false} SumValuesBump(acc: seq<Slice>, i: nat)
    requires i < |acc|
    ensures SumValues(acc[i := acc[i].(value := acc[i].value + 1)]) == SumValues(acc) + 1
  {
    if i > 0 {
      assert acc[i := acc[i].(value := acc[i].value + 1)][1..] == acc[1..][i - 1 := acc[i].(value := acc[i].value + 1)];
      SumValuesBump(acc[1..], i - 1);
    }
  }

}
