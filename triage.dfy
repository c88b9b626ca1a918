/**
 * The edge-case triage cascade that runs before any remote inference:
 * four fixed safety rules, tried in order (pediatric age, hypertensive
 * crisis, pregnancy, emergency keywords or breathing flag); the first that
 * fires decides a fixed verdict, and only when none fires does the caller
 * go on to the remote model. Also the three confidence-tiered result views.
 */
module Triage {
  import opened Wrappers
  import opened Text
  import opened Screening

  /** A medicine recommendation; its fields are opaque text from the remote model. */
  datatype Medicine = Medicine(name: string, dosage: string, duration: string, purpose: string, precautions: string)

  /** An `AIDiagnosis`, whether a triage verdict or the remote model's answer. */
  datatype Diagnosis = Diagnosis(
    confidence: int,
    primary: string,
    differential: seq<string>,
    analysis: string,
    medicines: seq<Medicine>,
    homeRemedies: seq<string>,
    precautions: seq<string>,
    whenToSeekDoctor: seq<string>,
    recommendedSpecialization: string,
    urgencyLevel: string)

  /** The normalised `inputData` of an analysis, as sent to the remote model. */
  datatype PatientInput = PatientInput(
    age: int,
    gender: string,
    symptoms: string,
    duration: string,
    severity: string,
    existingConditions: seq<string>,
    currentMedications: string)

  const PEDIATRIC_AGE_LIMIT := 12
  const CRISIS_SYSTOLIC := 180
  const CRISIS_DIASTOLIC := 120
  const PREGNANT := "pregnant"
  const DO_NOT_TAKE_OTC := "DO NOT TAKE ANY OTC MEDICATION"

  const EMERGENCY_KEYWORDS: seq<string> := [
    "chest pain", "can't breathe", "difficulty breathing", "bleeding heavily",
    "unconscious", "seizure", "face drooping", "slurred speech"
  ]

  const PEDIATRIC_VERDICT := Diagnosis(
    0, "Pediatric Evaluation Required", [],
    "HealthDost AI is optimized for adult screening. Children require high-fidelity examination by a qualified pediatrician due to distinct physiological needs.",
    [], ["Maintain hydration", "Monitor temperature hourly"],
    ["No OTC drugs for children without doctor's consent"],
    ["Fever > 102°F", "Lethargy", "Decreased urination"],
    "Pediatrician", "urgent")

  const HYPERTENSIVE_VERDICT := Diagnosis(
    100, "Hypertensive Emergency / Crisis", [],
    "CRITICAL: Your blood pressure is dangerously high (Hypertensive Crisis). This level of BP can cause immediate organ damage (stroke, heart attack, or kidney failure).",
    [], ["Sit down quietly", "Do not panic", "Do not drink caffeine"],
    [DO_NOT_TAKE_OTC, "Stop all physical activity"],
    ["Immediate Emergency Help Required"],
    "Cardiologist", "emergency")

  const OBSTETRIC_VERDICT := Diagnosis(
    0, "Obstetric Triage Required", [],
    "Safety Protocol: Any symptoms during pregnancy require immediate verification by an OB/GYN to ensure both maternal and fetal safety.",
    [], ["Rest in left lateral position", "Hydrate"],
    ["Avoid all self-medication"],
    ["Vaginal bleeding", "Fluid leakage", "Reduced fetal movement"],
    "Gynecologist", "urgent")

  const EMERGENCY_VERDICT := Diagnosis(
    0, "Critical Clinical Emergency", [],
    "EMERGENCY: Symptoms indicate a potentially life-threatening condition (Stroke, MI, or Respiratory Failure). Every minute counts.",
    [], [],
    ["IMMEDIATE HOSPITALIZATION REQUIRED", "Call 108 Emergency Service"],
    ["Call Emergency Services Immediately"],
    "Emergency Specialist", "emergency")

  // ---------------------------------------------------------------------
  // The four rules
  // ---------------------------------------------------------------------

  /** `data.age && data.age < 12`: an age of 0 is falsy and never fires. */
  predicate IsPediatric(age: int)
  {
    age != 0 && age < PEDIATRIC_AGE_LIMIT
  }

  /** `parseInt(bpSys) >= 180 || parseInt(bpDia) >= 120`, NaN failing both comparisons. */
  predicate IsHypertensiveCrisis(bpSys: string, bpDia: string)
  {
    AtLeast(ParseInt(bpSys), CRISIS_SYSTOLIC) || AtLeast(ParseInt(bpDia), CRISIS_DIASTOLIC)
  }

  /** A condition element equal to "pregnant", or "pregnant" in the lower-cased raw symptom text. */
  predicate IsPregnancy(conditions: seq<string>, symptoms: string)
  {
    PREGNANT in conditions || Contains(Lower(symptoms), PREGNANT)
  }

  /** `emergencyKeywords.some(k => symptoms.toLowerCase().includes(k))`. */
  predicate HasEmergencyKeyword(symptoms: string)
  {
    exists k :: k in EMERGENCY_KEYWORDS && Contains(Lower(symptoms), k)
  }

  /** An emergency keyword in the raw symptoms, or the breathing flag set to true. */
  predicate IsEmergency(symptoms: string, answers: Answers)
  {
    HasEmergencyKeyword(symptoms) || IsTrue(answers, DIFFICULTY_BREATHING)
  }

  /**
   * `checkEdgeCases`. Age and conditions come from the normalised input;
   * the blood-pressure strings, the raw symptom text and the answers come
   * from the page state (so the text scans see the symptoms as typed, not
   * the composite string the input carries).
   */
  function CheckEdgeCases(data: PatientInput, bpSys: string, bpDia: string, symptoms: string, answers: Answers)
    : (r: Option<Diagnosis>)
    ensures r.Some? ==> r.value.medicines == []
    ensures r.Some? ==> (r.value.confidence == 100 <==> r.value.recommendedSpecialization == "Cardiologist")
    ensures r.Some? ==> r.value.confidence == 0 || r.value.confidence == 100
    ensures r.None? <==>
      !IsPediatric(data.age) && !IsHypertensiveCrisis(bpSys, bpDia)
      && !IsPregnancy(data.existingConditions, symptoms) && !IsEmergency(symptoms, answers)
  {
    if IsPediatric(data.age) then Some(PEDIATRIC_VERDICT)
    else if IsHypertensiveCrisis(bpSys, bpDia) then Some(HYPERTENSIVE_VERDICT)
    else if IsPregnancy(data.existingConditions, symptoms) then Some(OBSTETRIC_VERDICT)
    else if IsEmergency(symptoms, answers) then Some(EMERGENCY_VERDICT)
    else None
  }

  // ---------------------------------------------------------------------
  // Reference definition: an ordered rule table read first-match-wins
  // ---------------------------------------------------------------------

  /** One safety rule: whether it fires, and the verdict it then returns. */
  datatype Rule = Rule(fires: bool, verdict: Diagnosis)

  /** The verdict of the first rule that fires, or none when no rule fires. */
  function FirstMatch(rules: seq<Rule>): (r: Option<Diagnosis>)
    ensures r.None? <==> forall i :: 0 <= i < |rules| ==> !rules[i].fires
    ensures r.Some? ==>
      exists i :: 0 <= i < |rules| && rules[i].fires && rules[i].verdict == r.value
        && forall j :: 0 <= j < i ==> !rules[j].fires
  {
    if rules == [] then None
    else if rules[0].fires then Some(rules[0].verdict)
    else
      var r := FirstMatch(rules[1..]);
      assert forall i :: 1 <= i < |rules| ==> rules[i] == rules[1..][i - 1];
      r
  }

  /** The rules in their fixed priority order. */
  function Rules(data: PatientInput, bpSys: string, bpDia: string, symptoms: string, answers: Answers): seq<Rule>
  {
    [ Rule(IsPediatric(data.age), PEDIATRIC_VERDICT),
      Rule(IsHypertensiveCrisis(bpSys, bpDia), HYPERTENSIVE_VERDICT),
      Rule(IsPregnancy(data.existingConditions, symptoms), OBSTETRIC_VERDICT),
      Rule(IsEmergency(symptoms, answers), EMERGENCY_VERDICT) ]
  }

  /** Reading a table whose head is `rule`: the head decides when it fires, the rest otherwise. */
  lemma FirstMatchCons(rule: Rule, rest: seq<Rule>)
    ensures FirstMatch([rule] + rest) == if rule.fires then Some(rule.verdict) else FirstMatch(rest)
  {
    assert ([rule] + rest)[1..] == rest;
  }

  /** The cascade is the first-match-wins reading of the rule table. */
  lemma CascadeIsFirstMatch(data: PatientInput, bpSys: string, bpDia: string, symptoms: string, answers: Answers)
    ensures CheckEdgeCases(data, bpSys, bpDia, symptoms, answers) == FirstMatch(Rules(data, bpSys, bpDia, symptoms, answers))
  {
    var rules := Rules(data, bpSys, bpDia, symptoms, answers);
    assert rules == [rules[0]] + ([rules[1]] + ([rules[2]] + ([rules[3]] + [])));
    FirstMatchCons(rules[3], []);
    FirstMatchCons(rules[2], [rules[3]] + []);
    FirstMatchCons(rules[1], [rules[2]] + ([rules[3]] + []));
    FirstMatchCons(rules[0], [rules[1]] + ([rules[2]] + ([rules[3]] + [])));
  }

  // ---------------------------------------------------------------------
  // Exact firing conditions of each verdict, told by its specialization
  // ---------------------------------------------------------------------

  /** The pediatric verdict comes out exactly when the age rule fires, whatever else holds. */
  lemma PediatricVerdictIff(data: PatientInput, bpSys: string, bpDia: string, symptoms: string, answers: Answers)
    ensures var r := CheckEdgeCases(data, bpSys, bpDia, symptoms, answers);
      (r.Some? && r.value.recommendedSpecialization == "Pediatrician") <==> IsPediatric(data.age)
    ensures IsPediatric(data.age) ==>
      CheckEdgeCases(data, bpSys, bpDia, symptoms, answers) == Some(PEDIATRIC_VERDICT)
  {
  }

  /** The crisis verdict comes out exactly when the age rule does not fire and the blood pressure does. */
  lemma HypertensiveVerdictIff(data: PatientInput, bpSys: string, bpDia: string, symptoms: string, answers: Answers)
    ensures var r := CheckEdgeCases(data, bpSys, bpDia, symptoms, answers);
      (r.Some? && r.value.recommendedSpecialization == "Cardiologist")
        <==> !IsPediatric(data.age) && IsHypertensiveCrisis(bpSys, bpDia)
  {
  }

  /** The obstetric verdict comes out exactly when neither earlier rule fires and the pregnancy rule does. */
  lemma ObstetricVerdictIff(data: PatientInput, bpSys: string, bpDia: string, symptoms: string, answers: Answers)
    ensures var r := CheckEdgeCases(data, bpSys, bpDia, symptoms, answers);
      (r.Some? && r.value.recommendedSpecialization == "Gynecologist")
        <==> !IsPediatric(data.age) && !IsHypertensiveCrisis(bpSys, bpDia)
             && IsPregnancy(data.existingConditions, symptoms)
  {
  }

  /** The emergency verdict comes out exactly when only the last rule fires. */
  lemma EmergencyVerdictIff(data: PatientInput, bpSys: string, bpDia: string, symptoms: string, answers: Answers)
    ensures var r := CheckEdgeCases(data, bpSys, bpDia, symptoms, answers);
      (r.Some? && r.value.recommendedSpecialization == "Emergency Specialist")
        <==> !IsPediatric(data.age) && !IsHypertensiveCrisis(bpSys, bpDia)
             && !IsPregnancy(data.existingConditions, symptoms) && IsEmergency(symptoms, answers)
    ensures var r := CheckEdgeCases(data, bpSys, bpDia, symptoms, answers);
      r.Some? && r.value.recommendedSpecialization == "Emergency Specialist" ==>
        r.value.homeRemedies == [] && r.value.urgencyLevel == "emergency"
  {
  }

  /** The crisis verdict carries the no-OTC-medication precaution and emergency urgency. */
  lemma HypertensiveVerdictContents()
    ensures DO_NOT_TAKE_OTC in HYPERTENSIVE_VERDICT.precautions
    ensures HYPERTENSIVE_VERDICT.urgencyLevel == "emergency" && HYPERTENSIVE_VERDICT.confidence == 100
  {
  }

  // ---------------------------------------------------------------------
  // Blood-pressure readings
  // ---------------------------------------------------------------------

  /** On digit strings, the crisis rule is the plain threshold test on the numbers they denote. */
  lemma CrisisOnReadings(sys: nat, dia: nat)
    ensures IsHypertensiveCrisis(Decimal(sys), Decimal(dia)) <==> sys >= CRISIS_SYSTOLIC || dia >= CRISIS_DIASTOLIC
  {
    ParseDecimal(sys, "");
    ParseDecimal(dia, "");
    assert Decimal(sys) + "" == Decimal(sys);
    assert Decimal(dia) + "" == Decimal(dia);
  }

  /**
   * On any text the digit-only fields can hold, leading zeros included, the
   * crisis rule is the threshold test on the numbers the non-empty fields denote.
   */
  lemma CrisisOnDigitFields(sys: string, dia: string)
    requires AllDigits(sys) && AllDigits(dia)
    ensures IsHypertensiveCrisis(sys, dia) <==>
      (sys != [] && DigitsValue(sys) >= CRISIS_SYSTOLIC) || (dia != [] && DigitsValue(dia) >= CRISIS_DIASTOLIC)
  {
    assert sys + "" == sys && dia + "" == dia;
    if sys != [] {
      ParseDigits(sys, "");
    }
    if dia != [] {
      ParseDigits(dia, "");
    }
  }

  /** A reading typed with a leading zero is read without it: "0190" fires the crisis rule. */
  lemma LeadingZeroStillFires()
    ensures IsHypertensiveCrisis("0190", "")
  {
    CrisisOnDigitFields("0190", "");
  }

  /** An empty field parses to NaN and never fires; the other field alone decides. */
  lemma EmptyReadingNeverFires(dia: nat)
    ensures !IsHypertensiveCrisis("", "")
    ensures IsHypertensiveCrisis("", Decimal(dia)) <==> dia >= CRISIS_DIASTOLIC
  {
    ParseDecimal(dia, "");
    assert Decimal(dia) + "" == Decimal(dia);
  }

  /**
   * A reading with trailing junk still fires: `parseInt` stops at the
   * first non-digit, so "180a" reads as 180.
   */
  lemma TrailingJunkStillFires()
    ensures IsHypertensiveCrisis("180a", "")
  {
    ParseDecimal(180, "a");
    assert Decimal(180) + "a" == "180a";
  }

  /** The on-form "Critical BP Level Detected" notice and the red field borders. */
  predicate CriticalBpNotice(bpSys: string, bpDia: string)
  {
    SystolicFlagged(bpSys) || DiastolicFlagged(bpDia)
  }

  predicate SystolicFlagged(bpSys: string)
  {
    AtLeast(ParseInt(bpSys), 180)
  }

  predicate DiastolicFlagged(bpDia: string)
  {
    AtLeast(ParseInt(bpDia), 120)
  }

  /**
   * The form's notice is shown exactly when the crisis rule would fire, and
   * for anyone who is not a child the analysis then ends in the crisis verdict.
   */
  lemma NoticeMatchesCrisisRule(data: PatientInput, bpSys: string, bpDia: string, symptoms: string, answers: Answers)
    ensures CriticalBpNotice(bpSys, bpDia) <==> IsHypertensiveCrisis(bpSys, bpDia)
    ensures CriticalBpNotice(bpSys, bpDia) && !IsPediatric(data.age) ==>
      CheckEdgeCases(data, bpSys, bpDia, symptoms, answers) == Some(HYPERTENSIVE_VERDICT)
  {
  }

  // ---------------------------------------------------------------------
  // Confidence tiers
  // ---------------------------------------------------------------------

  /** The three result views. */
  datatype View = HighConfidence | ModerateConfidence | LowConfidence

  /** The views the result screen renders for a confidence: three independent conditions. */
  function ResultViews(confidence: int): (views: set<View>)
    ensures |views| <= 1
    ensures views == {} <==> confidence > 100
  {
    (if confidence == 100 then {HighConfidence} else {})
    + (if 60 <= confidence < 100 then {ModerateConfidence} else {})
    + (if confidence < 60 then {LowConfidence} else {})
  }

  /** The tier ladder: high at 100, moderate from 60 below 100, low below 60, nothing above 100. */
  function Tier(confidence: int): (t: Option<View>)
    ensures t.None? <==> confidence > 100
    ensures t == Some(HighConfidence) ==> confidence == 100
    ensures t == Some(ModerateConfidence) ==> 60 <= confidence < 100
    ensures t == Some(LowConfidence) ==> confidence < 60
  {
    if confidence > 100 then None
    else if confidence == 100 then Some(HighConfidence)
    else if confidence >= 60 then Some(ModerateConfidence)
    else Some(LowConfidence)
  }

  /** Exactly one view is rendered whenever the confidence is at most 100, and none above. */
  lemma ViewsFollowTier(confidence: int)
    ensures Tier(confidence).None? ==> ResultViews(confidence) == {}
    ensures Tier(confidence).Some? ==> ResultViews(confidence) == {Tier(confidence).value}
    ensures confidence <= 100 <==> |ResultViews(confidence)| == 1
  {
  }

  /** The crisis verdict shows as high confidence, every other verdict as low. */
  lemma VerdictViews(data: PatientInput, bpSys: string, bpDia: string, symptoms: string, answers: Answers)
    ensures var r := CheckEdgeCases(data, bpSys, bpDia, symptoms, answers);
      r.Some? ==>
        ResultViews(r.value.confidence) == (if r.value == HYPERTENSIVE_VERDICT then {HighConfidence} else {LowConfidence})
  {
  }
}
