/**
 * The screening questionnaire: the `screeningAnswers` record the page keeps,
 * the toggle that flips one answer, and the "Additional markers" summary
 * built from the answers that are true.
 */
module Screening {
  import opened Wrappers
  import opened Text

  /** One question of the fixed screening list. */
  datatype Question = Question(id: string, caption: string)

  const SCREENING_QUESTIONS: seq<Question> := [
    Question("fever_high", "Fever above 102°F?"),
    Question("difficulty_breathing", "Difficulty breathing?"),
    Question("pain_severe", "Pain is unbearable?"),
    Question("drowsy", "Feeling unusually drowsy?"),
    Question("travel", "Recent travel history?"),
    Question("med_history", "History of similar issue?")
  ]

  /** The screening flag the emergency rule reads. */
  const DIFFICULTY_BREATHING := "difficulty_breathing"

  /** One key of the answers record with its value. */
  datatype Entry = Entry(id: string, value: bool)

  /**
   * The answers record as its entries in insertion order, which is the
   * order `Object.entries` lists them in.
   */
  type Answers = seq<Entry>

  /** A record never holds a key twice. */
  predicate UniqueIds(a: Answers)
  {
    forall i, j :: 0 <= i < j < |a| ==> a[i].id != a[j].id
  }

  /** Position of the entry for `id`, or -1 when the record has no such key. */
  function IndexOf(a: Answers, id: string): (k: int)
    ensures -1 <= k < |a|
    ensures k >= 0 ==> a[k].id == id && forall i :: 0 <= i < k ==> a[i].id != id
    ensures k == -1 ==> forall i :: 0 <= i < |a| ==> a[i].id != id
  {
    if a == [] then -1
    else if a[0].id == id then 0
    else
      var k := IndexOf(a[1..], id);
      if k < 0 then -1 else k + 1
  }

  /** `answers[id]`: the stored value, `None` standing for `undefined`. */
  function Lookup(a: Answers, id: string): Option<bool>
  {
    var k := IndexOf(a, id);
    if k < 0 then None else Some(a[k].value)
  }

  /** `answers[id] === true`. */
  predicate IsTrue(a: Answers, id: string)
  {
    Lookup(a, id) == Some(true)
  }

  /** Two records with the same keys at the same positions find every key at the same place. */
  lemma SameIdsSameIndex(a: Answers, b: Answers, id: string)
    requires |a| == |b|
    requires forall i :: 0 <= i < |a| ==> a[i].id == b[i].id
    ensures IndexOf(a, id) == IndexOf(b, id)
  {
    var ka, kb := IndexOf(a, id), IndexOf(b, id);
    if ka >= 0 && kb >= 0 {
      assert !(ka < kb) && !(kb < ka);
    }
  }

  /** Appending a new entry keeps every other key where it was. */
  lemma AppendIndex(a: Answers, e: Entry, id: string)
    requires id != e.id
    ensures IndexOf(a + [e], id) == IndexOf(a, id)
  {
    var ka, kb := IndexOf(a, id), IndexOf(a + [e], id);
    assert forall i :: 0 <= i < |a| ==> (a + [e])[i] == a[i];
    if ka >= 0 && kb >= 0 {
      assert !(ka < kb) && !(kb < ka);
    }
  }

  /**
   * `{ ...prev, [id]: !prev[id] }`: the answer for `id` is negated (an
   * absent key counts as false, so it becomes true), every other key keeps
   * its value, and the key order is kept, a new key going last.
   */
  function Toggle(a: Answers, id: string): (r: Answers)
    ensures Lookup(r, id) == Some(!IsTrue(a, id))
    ensures forall k :: k != id ==> Lookup(r, k) == Lookup(a, k)
    ensures |r| == if Lookup(a, id).Some? then |a| else |a| + 1
    ensures forall i :: 0 <= i < |a| ==> r[i].id == a[i].id
    ensures UniqueIds(a) ==> UniqueIds(r)
  {
    var k := IndexOf(a, id);
    if k < 0 then
      var r := a + [Entry(id, true)];
      assert IndexOf(r, id) == |a| by {
        assert r[|a|].id == id;
        assert forall i :: 0 <= i < |a| ==> r[i] == a[i];
      }
      assert forall x :: x != id ==> IndexOf(r, x) == IndexOf(a, x) by {
        forall x | x != id
          ensures IndexOf(r, x) == IndexOf(a, x)
        {
          AppendIndex(a, Entry(id, true), x);
        }
      }
      r
    else
      var r := a[k := Entry(id, !a[k].value)];
      assert forall x :: IndexOf(r, x) == IndexOf(a, x) by {
        forall x
          ensures IndexOf(r, x) == IndexOf(a, x)
        {
          SameIdsSameIndex(r, a, x);
        }
      }
      r
  }

  /** Toggling one of the questions keeps every key of the record a question. */
  lemma ToggleKeepsKnownIds(a: Answers, id: string)
    requires KnownIds(a) && IsQuestionId(id)
    ensures KnownIds(Toggle(a, id))
  {
    var r := Toggle(a, id);
    if IndexOf(a, id) < 0 {
      assert r == a + [Entry(id, true)];
      assert forall i :: 0 <= i < |a| ==> r[i] == a[i];
    }
  }

  // ---------------------------------------------------------------------
  // The "Additional markers" summary
  // ---------------------------------------------------------------------

  /** `questions.find(q => q.id === id)?.label`, with `undefined` written as "" by `join`. */
  function FindLabel(questions: seq<Question>, id: string): string
  {
    if questions == [] then ""
    else if questions[0].id == id then questions[0].caption
    else FindLabel(questions[1..], id)
  }

  /** `id` is one of the screening questions. */
  predicate IsQuestionId(id: string)
  {
    exists i :: 0 <= i < |SCREENING_QUESTIONS| && SCREENING_QUESTIONS[i].id == id
  }

  /** Every key of the record is a screening question, as it is when only the toggles wrote it. */
  predicate KnownIds(a: Answers)
  {
    forall i :: 0 <= i < |a| ==> IsQuestionId(a[i].id)
  }

  /** The label of a screening question is never empty. */
  lemma KnownLabelNonEmpty(id: string)
    requires IsQuestionId(id)
    ensures FindLabel(SCREENING_QUESTIONS, id) != ""
  {
  }

  /** `.filter(([_, val]) => val).map(([id]) => label(id))`: the labels of the true answers, in record order. */
  function TrueLabels(a: Answers): (ls: seq<string>)
    ensures |ls| <= |a|
    ensures ls == [] <==> forall i :: 0 <= i < |a| ==> !a[i].value
  {
    if a == [] then []
    else (if a[0].value then [FindLabel(SCREENING_QUESTIONS, a[0].id)] else []) + TrueLabels(a[1..])
  }

  /** A single entry gives its question's label exactly when its value is true. */
  lemma TrueLabelsOne(e: Entry)
    ensures TrueLabels([e]) == if e.value then [FindLabel(SCREENING_QUESTIONS, e.id)] else []
  {
    assert [e][1..] == [];
  }

  /**
   * The labels are taken entry by entry: an entry contributes its question's
   * label exactly when its value is true, so the labels are those of the true
   * answers in record order.
   */
  lemma {:induction false} TrueLabelsConcat(a: Answers, b: Answers)
    ensures TrueLabels(a + b) == TrueLabels(a) + TrueLabels(b)
    ensures forall e :: TrueLabels([e]) == if e.value then [FindLabel(SCREENING_QUESTIONS, e.id)] else []
  {
    TrueLabelsAppend(a, b);
    forall e
      ensures TrueLabels([e]) == if e.value then [FindLabel(SCREENING_QUESTIONS, e.id)] else []
    {
      TrueLabelsOne(e);
    }
  }

  /** The labels of two records in a row are the labels of each, in a row. */
  lemma {:induction false} TrueLabelsAppend(a: Answers, b: Answers)
    ensures TrueLabels(a + b) == TrueLabels(a) + TrueLabels(b)
  {
    if a != [] {
      assert (a + b)[0] == a[0] && (a + b)[1..] == a[1..] + b;
      var head := if a[0].value then [FindLabel(SCREENING_QUESTIONS, a[0].id)] else [];
      assert TrueLabels(a + b) == head + TrueLabels(a[1..] + b);
      assert TrueLabels(a) == head + TrueLabels(a[1..]);
      TrueLabelsAppend(a[1..], b);
      assert head + (TrueLabels(a[1..]) + TrueLabels(b)) == (head + TrueLabels(a[1..])) + TrueLabels(b);
    } else {
      assert a + b == b;
    }
  }


  /** `screeningSummary`: the true answers' labels joined by ", ". */
  function Summary(a: Answers): (r: string)
    ensures TrueLabels(a) == [] ==> r == ""
    ensures |TrueLabels(a)| == 1 ==> r == TrueLabels(a)[0]
    ensures |TrueLabels(a)| > 1 ==> Contains(r, ", ")
  {
    JoinSeparated(TrueLabels(a), ", ");
    Join(TrueLabels(a), ", ")
  }

  /**
   * The summary grows answer by answer: a false answer adds nothing, the first
   * true answer adds its label, and each later true answer adds ", " and its label.
   */
  lemma SummaryAppend(a: Answers, e: Entry)
    ensures var caption := FindLabel(SCREENING_QUESTIONS, e.id);
      Summary(a + [e]) ==
        if !e.value then Summary(a)
        else if TrueLabels(a) == [] then caption
        else Summary(a) + ", " + caption
  {
    var ls, caption := TrueLabels(a), FindLabel(SCREENING_QUESTIONS, e.id);
    TrueLabelsConcat(a, [e]);
    assert TrueLabels(a + [e]) == ls + TrueLabels([e]);
    if e.value {
      assert TrueLabels(a + [e]) == ls + [caption];
      if ls == [] {
        assert ls + [caption] == [caption];
      } else {
        JoinAppend(ls, caption, ", ");
      }
    } else {
      assert TrueLabels(a + [e]) == ls;
    }
  }

  /** Two true answers give their labels in record order with ", " between them. */
  lemma SummaryOfTwo()
    ensures Summary([Entry("fever_high", true), Entry("drowsy", true)])
      == "Fever above 102°F?" + ", " + "Feeling unusually drowsy?"
  {
    var labels := ["Fever above 102°F?", "Feeling unusually drowsy?"];
    assert FindLabel(SCREENING_QUESTIONS, "fever_high") == labels[0];
    assert FindLabel(SCREENING_QUESTIONS, "drowsy") == labels[1];
    assert TrueLabels([Entry("fever_high", true), Entry("drowsy", true)]) == labels;
    assert labels[1..] == [labels[1]];
  }

  /** `screeningSummary || 'None'`, the text after "Additional markers: ". */
  function MarkersText(a: Answers): (r: string)
    ensures r == "None" || r == Summary(a)
    ensures Summary(a) == "" ==> r == "None"
    ensures Summary(a) != "" ==> r == Summary(a)
  {
    var s := Summary(a);
    if s == "" then "None" else s
  }

  /** Over known keys, there is a true answer exactly when the record yields some labels. */
  lemma {:induction false} TrueLabelsEmptyIff(a: Answers)
    requires KnownIds(a)
    ensures TrueLabels(a) == [] <==> forall i :: 0 <= i < |a| ==> !a[i].value
    ensures TrueLabels(a) != [] ==> TrueLabels(a)[0] != ""
  {
    if a != [] {
      TrueLabelsEmptyIff(a[1..]);
      KnownLabelNonEmpty(a[0].id);
      if !a[0].value {
        assert forall i :: 1 <= i < |a| ==> a[1..][i - 1] == a[i];
      }
    }
  }

  /**
   * Over known keys, the summary is empty (so the markers read "None")
   * exactly when no answer is true.
   */
  lemma SummaryEmptyIff(a: Answers)
    requires KnownIds(a)
    ensures Summary(a) == "" <==> forall i :: 0 <= i < |a| ==> !a[i].value
  {
    TrueLabelsEmptyIff(a);
    var ls := TrueLabels(a);
    if ls != [] {
      if |ls| == 1 {
        assert Summary(a) == ls[0];
      } else {
        assert Summary(a) == ls[0] + ", " + Join(ls[1..], ", ");
      }
    }
  }
}
