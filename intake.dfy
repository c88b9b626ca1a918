/**
 * The intake form of the assistant page as values: its fields, the
 * normalised input an analysis sends (with the guest defaults and the
 * composite symptom narrative), the quick-symptom chips, and the draft the
 * page stores and restores.
 */
module Intake {
  import opened Wrappers
  import opened Text
  import opened Screening
  import opened Triage

  const COMMON_ISSUES: seq<string> := [
    "Fever & Chills", "Severe Cough", "Stomach Ache", "Headache / Migraine", "Body Pain",
    "Skin Rash", "Diarrhea / Loose Motion", "Weakness / Fatigue", "Dizziness", "Eye Irritation"
  ]

  const DURATIONS: seq<string> := [
    "Less than 24 hours", "1-3 Days", "3-7 Days", "1-2 Weeks", "More than a month"
  ]

  const DEFAULT_SEVERITY := "moderate"
  /** The age used when no profile age is known (guests). */
  const DEFAULT_AGE := 30
  const DEFAULT_GENDER := "other"
  const NO_CONDITIONS: seq<string> := ["none"]
  const NO_MEDICATIONS := "none"

  /** The fields of a patient profile that an analysis reads. */
  datatype Patient = Patient(age: int, gender: string)

  /**
   * The fields of the form; the same fields make up the stored draft. No
   * control of the page edits `conditions` or `medications`: only a restored
   * draft and the reset set them.
   */
  datatype Form = Form(
    symptoms: string,
    duration: string,
    severity: string,
    conditions: seq<string>,
    medications: string,
    bpSys: string,
    bpDia: string,
    answers: Answers)

  /** The form as the page starts it and as "Start New Screening" leaves it. */
  const BLANK_FORM := Form("", DURATIONS[0], DEFAULT_SEVERITY, [], "", "", "", [])

  // ---------------------------------------------------------------------
  // The normalised input of an analysis
  // ---------------------------------------------------------------------

  /** The narrative sent as `symptoms`: the typed text, the BP reading and the true markers. */
  function CompositeSymptoms(f: Form): (r: string)
    ensures |f.symptoms| < |r| && r[..|f.symptoms|] == f.symptoms
    ensures Contains(r, MarkersText(f.answers) + ".")
    ensures r == f.symptoms + ". BP: " + f.bpSys + "/" + f.bpDia + " mmHg. Additional markers: " + MarkersText(f.answers) + "."
  {
    var head := f.symptoms + ". BP: " + f.bpSys + "/" + f.bpDia + " mmHg. Additional markers: ";
    var r := head + (MarkersText(f.answers) + ".");
    assert r[..|f.symptoms|] == f.symptoms;
    ContainsSuffix(head, MarkersText(f.answers) + ".");
    r
  }

  /** With no true answer (only question keys stored), the narrative ends in "Additional markers: None.". */
  lemma CompositeSaysNone(f: Form)
    requires KnownIds(f.answers)
    requires forall i :: 0 <= i < |f.answers| ==> !f.answers[i].value
    ensures CompositeSymptoms(f) == f.symptoms + ". BP: " + f.bpSys + "/" + f.bpDia + " mmHg. Additional markers: None."
  {
    SummaryEmptyIff(f.answers);
  }

  /**
   * `inputData`: the profile's age unless it is absent or 0 (then 30), its
   * gender unless empty (then "other"), the conditions held in the page
   * state unless there are none (then ["none"]), the medication text unless
   * empty (then "none").
   */
  function BuildInput(patient: Option<Patient>, f: Form): (r: PatientInput)
    ensures r.age != 0
    ensures patient.Some? && patient.value.age != 0 ==> r.age == patient.value.age
    ensures patient.None? || patient.value.age == 0 ==> r.age == DEFAULT_AGE
    ensures r.gender != ""
    ensures patient.Some? && patient.value.gender != "" ==> r.gender == patient.value.gender
    ensures patient.None? || patient.value.gender == "" ==> r.gender == DEFAULT_GENDER
    ensures r.existingConditions != []
    ensures f.conditions != [] ==> r.existingConditions == f.conditions
    ensures f.conditions == [] ==> r.existingConditions == NO_CONDITIONS
    ensures r.currentMedications != ""
    ensures f.medications != "" ==> r.currentMedications == f.medications
    ensures f.medications == "" ==> r.currentMedications == NO_MEDICATIONS
    ensures r.symptoms == CompositeSymptoms(f)
    ensures r.duration == f.duration && r.severity == f.severity
  {
    PatientInput(
      if patient.Some? && patient.value.age != 0 then patient.value.age else DEFAULT_AGE,
      if patient.Some? && patient.value.gender != "" then patient.value.gender else DEFAULT_GENDER,
      CompositeSymptoms(f),
      f.duration,
      f.severity,
      if |f.conditions| > 0 then f.conditions else NO_CONDITIONS,
      if f.medications != "" then f.medications else NO_MEDICATIONS)
  }

  /**
   * After normalisation the pediatric rule fires exactly for a profile age
   * below 12 other than 0: guests and a missing age are taken as 30, while
   * a negative age still fires.
   */
  lemma PediatricAfterNormalisation(patient: Option<Patient>, f: Form)
    ensures IsPediatric(BuildInput(patient, f).age) <==>
      patient.Some? && patient.value.age != 0 && patient.value.age < PEDIATRIC_AGE_LIMIT
  {
  }

  /** The ["none"] default never matches the pregnancy rule: only the conditions held in the page state or the text can. */
  lemma PregnancyAfterNormalisation(patient: Option<Patient>, f: Form, symptoms: string)
    ensures IsPregnancy(BuildInput(patient, f).existingConditions, symptoms) <==> IsPregnancy(f.conditions, symptoms)
  {
    if f.conditions == [] {
      assert PREGNANT !in NO_CONDITIONS;
    }
  }

  // ---------------------------------------------------------------------
  // Quick-symptom chips
  // ---------------------------------------------------------------------

  /** The `setSymptoms` updater of `handleQuickSelect`. */
  function QuickSelect(prev: string, issue: string): (r: string)
    ensures IsBlank(prev) ==> r == issue
    ensures !IsBlank(prev) ==> r == prev || r == Trim(prev) + ", " + issue
  {
    var trimmed := Trim(prev);
    if trimmed == [] then issue
    else if Contains(Lower(trimmed), Lower(issue)) then prev
    else trimmed + ", " + issue
  }

  /** A chip with white space at neither end, as every common issue is. */
  predicate IsTrimmed(s: string)
  {
    s == [] || (!IsSpace(s[0]) && !IsSpace(s[|s| - 1]))
  }

  lemma CommonIssuesTrimmed()
    ensures forall i :: 0 <= i < |COMMON_ISSUES| ==> IsTrimmed(COMMON_ISSUES[i])
  {
    forall i | 0 <= i < |COMMON_ISSUES|
      ensures IsTrimmed(COMMON_ISSUES[i])
    {
      var s := COMMON_ISSUES[i];
      PrintableNotSpace(s[0]);
      PrintableNotSpace(s[|s| - 1]);
    }
  }

  /**
   * After a chip is pressed the symptom text mentions the issue
   * (case-insensitively), and blank text is replaced by the issue alone.
   */
  lemma QuickSelectMentionsIssue(prev: string, issue: string)
    ensures Contains(Lower(QuickSelect(prev, issue)), Lower(issue))
    ensures IsBlank(prev) ==> QuickSelect(prev, issue) == issue
  {
    var trimmed := Trim(prev);
    if trimmed == [] {
      ContainsSelf(Lower(issue));
    } else if Contains(Lower(trimmed), Lower(issue)) {
      ContainsThroughLower(prev, trimmed, |prev| - |TrimStart(prev)|, Lower(issue));
    } else {
      LowerConcat(trimmed + ", ", issue);
      ContainsSuffix(Lower(trimmed + ", "), Lower(issue));
    }
  }

  /** Pressing a chip keeps the text already typed (trimmed), and leaves it as is when it already mentions the issue. */
  lemma QuickSelectKeepsText(prev: string, issue: string)
    requires !IsBlank(prev)
    ensures QuickSelect(prev, issue) == prev || QuickSelect(prev, issue) == Trim(prev) + ", " + issue
    ensures Contains(Lower(Trim(prev)), Lower(issue)) <==> QuickSelect(prev, issue) == prev
  {
    var trimmed := Trim(prev);
    if !Contains(Lower(trimmed), Lower(issue)) {
      assert |trimmed + ", " + issue| > |trimmed|;
      assert |trimmed| <= |prev|;
      if |trimmed + ", " + issue| == |prev| {
        assert issue != [] by {
          if issue == [] {
            ContainsEmpty(Lower(trimmed));
          }
        }
        assert (trimmed + ", " + issue)[|trimmed|] == ',';
        PrintableNotSpace(',');
      }
    }
  }

  /** Pressing the same chip twice has the effect of pressing it once. */
  lemma QuickSelectIdempotent(prev: string, issue: string)
    requires IsTrimmed(issue)
    ensures QuickSelect(QuickSelect(prev, issue), issue) == QuickSelect(prev, issue)
  {
    var trimmed := Trim(prev);
    if trimmed == [] {
      TrimOfTrimmed(issue);
      ContainsSelf(Lower(issue));
    } else if Contains(Lower(trimmed), Lower(issue)) {
    } else {
      assert issue != [] by {
        if issue == [] {
          ContainsEmpty(Lower(trimmed));
        }
      }
      var r := trimmed + ", " + issue;
      assert r[0] == trimmed[0] && r[|r| - 1] == issue[|issue| - 1];
      TrimOfTrimmed(r);
      LowerConcat(trimmed + ", ", issue);
      ContainsSuffix(Lower(trimmed + ", "), Lower(issue));
    }
  }

  /** Without the trimmed-chip condition the second press can change the text again. */
  lemma QuickSelectPaddedIssueNotIdempotent()
    ensures QuickSelect(QuickSelect("", " x"), " x") != QuickSelect("", " x")
  {
    assert Trim("") == [];
    var once := QuickSelect("", " x");
    assert once == " x";
    SpaceIsSpace();
    PrintableNotSpace('x');
    TrimPadded(' ', 'x');
    assert [' ', 'x'] == " x" && ['x'] == "x";
    assert Trim(once) == "x";
    assert |Lower(" x")| > |Lower("x")|;
    assert !Contains(Lower("x"), Lower(" x"));
    var twice := QuickSelect(once, " x");
    assert twice == "x" + ", " + " x";
    assert |twice| != |once|;
  }


  // ---------------------------------------------------------------------
  // The stored draft
  // ---------------------------------------------------------------------

  /** A parsed draft object; `None` is a missing or null property. */
  datatype Draft = Draft(
    symptoms: Option<string>,
    duration: Option<string>,
    severity: Option<string>,
    bpSys: Option<string>,
    bpDia: Option<string>,
    answers: Option<Answers>,
    medications: Option<string>,
    conditions: Option<seq<string>>)

  /**
   * A draft as `JSON.parse` gives it back: its answers, when present, come
   * from an object and so never repeat a key.
   */
  predicate ParsedDraft(d: Draft)
  {
    d.answers.Some? ==> UniqueIds(d.answers.value)
  }

  /** The draft the page stores for the current form. */
  function SaveDraft(f: Form): (d: Draft)
    ensures d.symptoms.Some? && d.duration.Some? && d.severity.Some? && d.bpSys.Some?
    ensures d.bpDia.Some? && d.answers.Some? && d.medications.Some? && d.conditions.Some?
    ensures ParsedDraft(d) <==> UniqueIds(f.answers)
  {
    Draft(Some(f.symptoms), Some(f.duration), Some(f.severity), Some(f.bpSys), Some(f.bpDia),
          Some(f.answers), Some(f.medications), Some(f.conditions))
  }

  /** `value || fallback` on a string property: missing and "" both give the fallback. */
  function OrString(v: Option<string>, fallback: string): string
  {
    if v.Some? && v.value != "" then v.value else fallback
  }

  /** `value || fallback` on an object or array property: only a missing one gives the fallback. */
  function OrValue<T>(v: Option<T>, fallback: T): T
  {
    if v.Some? then v.value else fallback
  }

  /** The form a stored draft restores to, each property falling back to its initial value. */
  function RestoreDraft(d: Draft): (f: Form)
    ensures f.duration != "" && f.severity != ""
    ensures d.duration.None? ==> f.duration == DURATIONS[0]
    ensures d.severity.None? ==> f.severity == DEFAULT_SEVERITY
    ensures ParsedDraft(d) ==> UniqueIds(f.answers)
  {
    Form(
      OrString(d.symptoms, ""),
      OrString(d.duration, DURATIONS[0]),
      OrString(d.severity, DEFAULT_SEVERITY),
      OrValue(d.conditions, []),
      OrString(d.medications, ""),
      OrString(d.bpSys, ""),
      OrString(d.bpDia, ""),
      OrValue(d.answers, []))
  }

  /** Restoring a stored draft gives back the form it was stored from. */
  lemma DraftRoundTrip(f: Form)
    requires f.duration != "" && f.severity != ""
    ensures RestoreDraft(SaveDraft(f)) == f
  {
  }

  /** An empty draft object restores the blank form. */
  lemma EmptyDraftIsBlank()
    ensures RestoreDraft(Draft(None, None, None, None, None, None, None, None)) == BLANK_FORM
  {
  }
}
