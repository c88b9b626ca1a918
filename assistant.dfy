/**
 * The assistant page as an object whose fields are its component state:
 * the form, the patient profile, the busy flag, the result and the matched
 * doctors. Each handler of the page is a method that updates those fields;
 * the remote calls an analysis makes are returned as a list of effects, and
 * their replies are parameters.
 */
module Assistant {
  import opened Wrappers
  import opened Text
  import opened Screening
  import opened Triage
  import opened Intake
  import opened Directory

  /** How many matched doctors the result screen keeps. */
  const MAX_MATCHED_DOCTORS := 3

  const OFFLINE_NOTICE := "AI Diagnostics is temporarily offline. Please consult a doctor directly."

  /** The record `saveConsultation` receives: the normalised input with the model's answer. */
  datatype Consultation = Consultation(
    patientId: string,
    symptoms: string,
    duration: string,
    severity: string,
    existingConditions: seq<string>,
    currentMedications: string,
    result: Diagnosis)

  /** What an analysis does outside the page state, in the order it does it. */
  datatype Effect =
    | SelfDiagnose(input: PatientInput)
    | SaveConsultation(record: Consultation)
    | RemoveDraft(key: string)
    | ListDoctors(specialty: string)
    | Alert(message: string)

  /** The session-storage key of a user's draft. */
  function DraftKey(userId: string): (key: string)
    ensures |key| == |DRAFT_PREFIX| + |userId|
    ensures key[..|DRAFT_PREFIX|] == DRAFT_PREFIX && key[|DRAFT_PREFIX|..] == userId
  {
    DRAFT_PREFIX + userId
  }

  const DRAFT_PREFIX := "ai_draft_"

  /** Distinct users never share a draft. */
  lemma DraftKeyInjective(a: string, b: string)
    ensures DraftKey(a) == DraftKey(b) <==> a == b
  {
    if DraftKey(a) == DraftKey(b) {
      assert a == DraftKey(a)[|DRAFT_PREFIX|..];
    }
  }

  function ConsultationOf(userId: string, input: PatientInput, result: Diagnosis): Consultation
  {
    Consultation(userId, input.symptoms, input.duration, input.severity,
                 input.existingConditions, input.currentMedications, result)
  }

  /** `docs.slice(0, n)`: the first `n` entries, or all of them when there are fewer. */
  function Take(docs: seq<Doctor>, n: nat): (r: seq<Doctor>)
    ensures |r| <= n && |r| <= |docs|
    ensures |r| == n || r == docs
    ensures r == docs[..|r|]
  {
    if |docs| <= n then docs else docs[..n]
  }

  class AssistantPage {
    const userId: string
    const isGuest: bool

    var patient: Option<Patient>

    var symptoms: string
    var duration: string
    var severity: string
    var conditions: seq<string>
    var medications: string
    var bpSys: string
    var bpDia: string
    var screeningAnswers: Answers

    var isAnalyzing: bool
    var aiResult: Option<Diagnosis>
    var matchedDoctors: seq<Doctor>

    /** The form fields as one value. */
    function FormState(): Form
      reads this`symptoms, this`duration, this`severity, this`conditions, this`medications,
            this`bpSys, this`bpDia, this`screeningAnswers
    {
      Form(symptoms, duration, severity, conditions, medications, bpSys, bpDia, screeningAnswers)
    }

    /** The input an analysis started now would send. */
    function Input(): PatientInput
      reads this`patient, this`symptoms, this`duration, this`severity, this`conditions,
            this`medications, this`bpSys, this`bpDia, this`screeningAnswers
    {
      BuildInput(patient, FormState())
    }

    /** The triage verdict an analysis started now would reach. */
    function Verdict(): Option<Diagnosis>
      reads this`patient, this`symptoms, this`duration, this`severity, this`conditions,
            this`medications, this`bpSys, this`bpDia, this`screeningAnswers
    {
      CheckEdgeCases(Input(), bpSys, bpDia, symptoms, screeningAnswers)
    }

    /**
     * Between two events: no analysis is running, at most three doctors are
     * shown, and the answers record, being an object, never repeats a key.
     */
    ghost predicate Valid()
      reads this`isAnalyzing, this`matchedDoctors, this`screeningAnswers
    {
      !isAnalyzing && |matchedDoctors| <= MAX_MATCHED_DOCTORS && UniqueIds(screeningAnswers)
    }

    /** The page as it mounts, before the profile and any draft are loaded. */
    constructor (userId: string, isGuest: bool)
      ensures Valid()
      ensures this.userId == userId && this.isGuest == isGuest
      ensures FormState() == BLANK_FORM && patient.None?
      ensures aiResult.None? && matchedDoctors == []
    {
      this.userId := userId;
      this.isGuest := isGuest;
      patient := None;
      symptoms, duration, severity := "", DURATIONS[0], DEFAULT_SEVERITY;
      conditions, medications := [], "";
      bpSys, bpDia, screeningAnswers := "", "", [];
      isAnalyzing, aiResult, matchedDoctors := false, None, [];
    }

    /**
     * The mount effect's `if (!isGuest) loadPatient()`: for a signed-in user
     * the fetched profile, if any, becomes the page's patient; a guest's page
     * fetches nothing and keeps its patient.
     */
    method LoadPatient(p: Option<Patient>)
      modifies this`patient
      ensures patient == if isGuest then old(patient) else p
    {
      if !isGuest {
        patient := p;
      }
    }

    /** The mount effect: a stored draft, when there is one, fills the form field by field. */
    method LoadDraft(saved: Option<Draft>)
      requires Valid()
      requires saved.Some? ==> ParsedDraft(saved.value)
      modifies this`symptoms, this`duration, this`severity, this`conditions, this`medications,
               this`bpSys, this`bpDia, this`screeningAnswers
      ensures Valid()
      ensures FormState() == if saved.Some? then RestoreDraft(saved.value) else old(FormState())
    {
      if saved.Some? {
        var f := RestoreDraft(saved.value);
        symptoms, duration, severity := f.symptoms, f.duration, f.severity;
        bpSys, bpDia, screeningAnswers := f.bpSys, f.bpDia, f.answers;
        medications, conditions := f.medications, f.conditions;
      }
    }

    /** `toggleScreening(id)`: only the answer for `id` changes. */
    method ToggleScreening(id: string)
      requires Valid()
      modifies this`screeningAnswers
      ensures Valid()
      ensures screeningAnswers == Toggle(old(screeningAnswers), id)
      ensures IsTrue(screeningAnswers, id) <==> !IsTrue(old(screeningAnswers), id)
      ensures forall k :: k != id ==> Lookup(screeningAnswers, k) == Lookup(old(screeningAnswers), k)
    {
      screeningAnswers := Toggle(screeningAnswers, id);
    }

    /** `handleQuickSelect(issue)`. */
    method QuickSelectIssue(issue: string)
      modifies this`symptoms
      ensures symptoms == QuickSelect(old(symptoms), issue)
      ensures Contains(Lower(symptoms), Lower(issue))
    {
      QuickSelectMentionsIssue(symptoms, issue);
      symptoms := QuickSelect(symptoms, issue);
    }

    /** The systolic field's change handler: only the digits of what was typed are kept. */
    method EnterSystolic(typed: string)
      modifies this`bpSys
      ensures bpSys == KeepDigits(typed) && AllDigits(bpSys)
    {
      bpSys := KeepDigits(typed);
    }

    /** The diastolic field's change handler: only the digits of what was typed are kept. */
    method EnterDiastolic(typed: string)
      modifies this`bpDia
      ensures bpDia == KeepDigits(typed) && AllDigits(bpDia)
    {
      bpDia := KeepDigits(typed);
    }

    /** `reset` ("Start New Screening"): blank form, no result, no doctors; the draft is removed. */
    method Reset() returns (effects: seq<Effect>)
      requires Valid()
      modifies this`aiResult, this`symptoms, this`duration, this`severity, this`conditions,
               this`medications, this`matchedDoctors, this`bpSys, this`bpDia, this`screeningAnswers
      ensures Valid()
      ensures FormState() == BLANK_FORM
      ensures aiResult.None? && matchedDoctors == []
      ensures effects == [RemoveDraft(DraftKey(userId))]
    {
      aiResult := None;
      symptoms := "";
      duration := DURATIONS[0];
      severity := DEFAULT_SEVERITY;
      conditions := [];
      medications := "";
      matchedDoctors := [];
      bpSys := "";
      bpDia := "";
      screeningAnswers := [];
      effects := [RemoveDraft(DraftKey(userId))];
    }

    /**
     * `runAnalysis` from the moment the busy flag is set, given the
     * normalised `input`, the triage `verdict` reached on it, and how each
     * remote call it may make settles: `inference` for `selfDiagnose`,
     * `saved` for `saveConsultation`, `doctors` for the doctor list. A
     * rejected call ends the attempt with the offline notice; the busy flag
     * is cleared however it ends.
     */
    method Analyse(input: PatientInput, verdict: Option<Diagnosis>,
                   inference: Reply<Diagnosis>, saved: Reply<()>, doctors: Reply<seq<Doctor>>)
      returns (effects: seq<Effect>)
      requires |matchedDoctors| <= MAX_MATCHED_DOCTORS && UniqueIds(screeningAnswers)
      modifies this`isAnalyzing, this`aiResult, this`matchedDoctors
      ensures Valid()
      // A triage verdict is the result; no remote inference, no save, no draft removal.
      ensures verdict.Some? ==>
        && aiResult == verdict
        && effects == [ListDoctors(verdict.value.recommendedSpecialization)]
                      + (if doctors.Rejected? then [Alert(OFFLINE_NOTICE)] else [])
      // No verdict: the remote model is asked first, with the normalised input.
      ensures verdict.None? ==>
        && |effects| >= 1 && effects[0] == SelfDiagnose(input)
        && aiResult == (if inference.Resolved? then Some(inference.value) else old(aiResult))
        && (inference.Rejected? ==> effects == [SelfDiagnose(input), Alert(OFFLINE_NOTICE)])
      // Only a signed-in user's inference result is saved, and only a completed save removes the draft.
      ensures verdict.None? && inference.Resolved? ==>
        var save := if isGuest then [] else [SaveConsultation(ConsultationOf(userId, input, inference.value))];
        var removal := if isGuest || saved.Rejected? then [] else [RemoveDraft(DraftKey(userId))];
        if !isGuest && saved.Rejected? then
          effects == [SelfDiagnose(input)] + save + [Alert(OFFLINE_NOTICE)]
        else
          effects == [SelfDiagnose(input)] + save + removal
                     + [ListDoctors(inference.value.recommendedSpecialization)]
                     + (if doctors.Rejected? then [Alert(OFFLINE_NOTICE)] else [])
      // The doctors shown are the first three of the list, when the list call was made and answered.
      ensures matchedDoctors == old(matchedDoctors) || (doctors.Resolved? && matchedDoctors == Take(doctors.value, MAX_MATCHED_DOCTORS))
      ensures (exists s :: ListDoctors(s) in effects) && doctors.Resolved? ==>
        matchedDoctors == Take(doctors.value, MAX_MATCHED_DOCTORS)
      ensures (forall s :: ListDoctors(s) !in effects) || doctors.Rejected? ==>
        matchedDoctors == old(matchedDoctors)
    {
      isAnalyzing := true;
      effects := [];
      var specialty: string;
      if verdict.Some? {
        aiResult := verdict;
        specialty := verdict.value.recommendedSpecialization;
      } else {
        effects := effects + [SelfDiagnose(input)];
        if inference.Rejected? {
          effects := effects + [Alert(OFFLINE_NOTICE)];
          isAnalyzing := false;
          return;
        }
        var result := inference.value;
        aiResult := Some(result);
        if !isGuest {
          effects := effects + [SaveConsultation(ConsultationOf(userId, input, result))];
          if saved.Rejected? {
            effects := effects + [Alert(OFFLINE_NOTICE)];
            isAnalyzing := false;
            return;
          }
          effects := effects + [RemoveDraft(DraftKey(userId))];
        }
        specialty := result.recommendedSpecialization;
      }
      effects := effects + [ListDoctors(specialty)];
      if doctors.Rejected? {
        effects := effects + [Alert(OFFLINE_NOTICE)];
        isAnalyzing := false;
        return;
      }
      matchedDoctors := Take(doctors.value, MAX_MATCHED_DOCTORS);
      isAnalyzing := false;
    }

    /**
     * `runAnalysis`: blank symptom text does nothing; otherwise the input is
     * normalised, the triage rules are checked on it, and the analysis
     * proceeds as `Analyse` describes. The input and the verdict are those
     * of the form as the handler found it (the handler changes no form field).
     */
    method RunAnalysis(inference: Reply<Diagnosis>, saved: Reply<()>, doctors: Reply<seq<Doctor>>)
      returns (effects: seq<Effect>)
      requires Valid()
      modifies this`isAnalyzing, this`aiResult, this`matchedDoctors
      ensures Valid()
      ensures IsBlank(old(symptoms)) ==>
        effects == [] && aiResult == old(aiResult) && matchedDoctors == old(matchedDoctors)
      ensures !IsBlank(old(symptoms)) && old(Verdict()).Some? ==>
        && aiResult == old(Verdict())
        && effects == [ListDoctors(old(Verdict()).value.recommendedSpecialization)]
                      + (if doctors.Rejected? then [Alert(OFFLINE_NOTICE)] else [])
      ensures !IsBlank(old(symptoms)) && old(Verdict()).None? ==>
        && |effects| >= 1 && effects[0] == SelfDiagnose(old(Input()))
        && aiResult == (if inference.Resolved? then Some(inference.value) else old(aiResult))
        && (inference.Rejected? ==> effects == [SelfDiagnose(old(Input())), Alert(OFFLINE_NOTICE)])
      ensures !IsBlank(old(symptoms)) && old(Verdict()).None? && inference.Resolved? ==>
        var save := if isGuest then [] else [SaveConsultation(ConsultationOf(userId, old(Input()), inference.value))];
        var removal := if isGuest || saved.Rejected? then [] else [RemoveDraft(DraftKey(userId))];
        if !isGuest && saved.Rejected? then
          effects == [SelfDiagnose(old(Input()))] + save + [Alert(OFFLINE_NOTICE)]
        else
          effects == [SelfDiagnose(old(Input()))] + save + removal
                     + [ListDoctors(inference.value.recommendedSpecialization)]
                     + (if doctors.Rejected? then [Alert(OFFLINE_NOTICE)] else [])
      ensures matchedDoctors == old(matchedDoctors) || (doctors.Resolved? && matchedDoctors == Take(doctors.value, MAX_MATCHED_DOCTORS))
      ensures (exists s :: ListDoctors(s) in effects) && doctors.Resolved? ==>
        matchedDoctors == Take(doctors.value, MAX_MATCHED_DOCTORS)
      ensures (forall s :: ListDoctors(s) !in effects) || doctors.Rejected? ==>
        matchedDoctors == old(matchedDoctors)
    {
      effects := [];
      // `!symptoms.trim()`, which holds exactly for blank text (see `Trim`).
      if IsBlank(symptoms) {
        return;
      }
      var input := Input();
      var verdict := Verdict();
      effects := Analyse(input, verdict, inference, saved, doctors);
    }
  }
}
