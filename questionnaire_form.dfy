/** The assessment form: an answers map and an errors map updated by the
    change handlers, a validation pass over the fixed question list, and a
    submission gated on that pass. */
module QuestionnaireForm {
  import opened Strings

  datatype QuestionKind = MultipleChoice | Text | Checkbox

  /** The kind of every question of the assessment (prompts, option labels and
      correct answers are display content). */
  const Kinds: map<string, QuestionKind> :=
    map["q1" := MultipleChoice, "q2" := Text, "q3" := MultipleChoice, "q4" := Checkbox, "q5" := Text]

  /** The order in which the questions are listed and checked. */
  const Order: seq<string> := ["q1", "q2", "q3", "q4", "q5"]

  lemma OrderListsEveryQuestion()
    ensures forall id :: id in Order <==> id in Kinds
  {
  }

  /** A text or radio answer is a string (a radio answer is the chosen
      option's index written as a string); a checkbox answer is the list of
      selected option indices. */
  datatype Answer = Chosen(text: string) | Selected(indices: seq<int>)

  /** JavaScript truthiness: the empty string is falsy, an array never is. */
  predicate Truthy(a: Answer)
  {
    a.Selected? || a.text != ""
  }

  /** The shape of answer each kind of question receives. */
  predicate Fits(kind: QuestionKind, a: Answer)
  {
    if kind == Checkbox then a.Selected? else a.Chosen?
  }

  predicate WellTyped(answers: map<string, Answer>)
  {
    forall id :: id in answers && id in Kinds ==> Fits(Kinds[id], answers[id])
  }

  const RequiresAnswer := "This question requires an answer"
  const ProvideResponse := "Please provide a response"
  const SelectOption := "Please select at least one option"

  /** The one message a question draws, checked in this order: no truthy
      answer; a text answer that is blank after trimming; an empty
      selection. */
  function QuestionError(kind: QuestionKind, answer: Option<Answer>): (r: Option<string>)
  {
    if answer.None? || !Truthy(answer.value) then Some(RequiresAnswer)
    else if kind == Text && answer.value.Chosen? && Trim(answer.value.text) == "" then Some(ProvideResponse)
    else if kind == Checkbox && answer.value.Selected? && |answer.value.indices| == 0 then Some(SelectOption)
    else None
  }

  function Lookup(answers: map<string, Answer>, id: string): (r: Option<Answer>)
  {
    if id in answers then Some(answers[id]) else None
  }

  /** The errors map a validation pass produces: one entry per question that
      draws a message, and no entry for anything else. */
  function AssessmentErrors(answers: map<string, Answer>): (r: map<string, string>)
  {
    map id | id in Kinds && QuestionError(Kinds[id], Lookup(answers, id)).Some? ::
      QuestionError(Kinds[id], Lookup(answers, id)).value
  }

  /** The independent reading of a passing form: every question has a truthy
      answer, every text answer has a non-whitespace character, and every
      checkbox answer selects something. */
  predicate Complete(answers: map<string, Answer>)
  {
    forall id :: id in Kinds ==>
      && id in answers && Truthy(answers[id])
      && (Kinds[id] == Text && answers[id].Chosen? ==> !IsBlank(answers[id].text))
      && (Kinds[id] == Checkbox && answers[id].Selected? ==> |answers[id].indices| > 0)
  }

  /** Validation passes exactly for the complete answer sets. */
  lemma PassesIffComplete(answers: map<string, Answer>)
    ensures AssessmentErrors(answers) == map[] <==> Complete(answers)
  {
    forall id | id in Kinds && id in answers && answers[id].Chosen? {
      TrimEmptyIffBlank(answers[id].text);
    }
    forall id | id in Kinds
      ensures QuestionError(Kinds[id], Lookup(answers, id)).Some? ==> id in AssessmentErrors(answers)
    {
    }
    if AssessmentErrors(answers) != map[] {
      var id :| id in AssessmentErrors(answers);
      assert QuestionError(Kinds[id], Lookup(answers, id)).Some?;
    }
  }

  /** Answering one question so that it passes removes exactly that
      question's entry from the next validation's errors. */
  lemma AnsweringClearsOnlyThatError(answers: map<string, Answer>, id: string, a: Answer)
    requires id in Kinds && QuestionError(Kinds[id], Some(a)) == None
    ensures AssessmentErrors(answers[id := a]) == AssessmentErrors(answers) - {id}
  {
    var after := answers[id := a];
    forall other | other != id ensures Lookup(after, other) == Lookup(answers, other) {
    }
    assert Lookup(after, id) == Some(a);
  }

  /** The errors of the questions listed in `ids`. */
  function ErrorsAmong(ids: seq<string>, answers: map<string, Answer>): (r: map<string, string>)
    requires forall id :: id in ids ==> id in Kinds
  {
    map id | id in ids && QuestionError(Kinds[id], Lookup(answers, id)).Some? ::
      QuestionError(Kinds[id], Lookup(answers, id)).value
  }

  lemma ErrorsAmongStep(ids: seq<string>, id: string, answers: map<string, Answer>)
    requires forall x :: x in ids ==> x in Kinds
    requires id in Kinds
    ensures var message := QuestionError(Kinds[id], Lookup(answers, id));
      ErrorsAmong(ids + [id], answers) ==
        if message.Some? then ErrorsAmong(ids, answers)[id := message.value] else ErrorsAmong(ids, answers)
  {
  }

  /** `validateForm`'s loop over the question list filling a fresh map. */
  method CollectErrors(answers: map<string, Answer>) returns (errors: map<string, string>)
    ensures errors == AssessmentErrors(answers)
    ensures forall id :: id in errors <==> id in Kinds && QuestionError(Kinds[id], Lookup(answers, id)).Some?
  {
    OrderListsEveryQuestion();
    errors := map[];
    var i := 0;
    while i < |Order|
      invariant 0 <= i <= |Order|
      invariant errors == ErrorsAmong(Order[..i], answers)
    {
      var id := Order[i];
      assert Order[..i + 1] == Order[..i] + [id];
      ErrorsAmongStep(Order[..i], id, answers);
      var message := QuestionError(Kinds[id], Lookup(answers, id));
      if message.Some? {
        errors := errors[id := message.value];
      }
      i := i + 1;
    }
    assert Order[..i] == Order;
  }

  /** `selections.filter((i) => i !== index)` */
  function Without(s: seq<int>, x: int): (r: seq<int>)
    ensures forall y :: y in r <==> y in s && y != x
  {
    if s == [] then []
    else if s[0] == x then Without(s[1..], x)
    else [s[0]] + Without(s[1..], x)
  }

  /** The checkbox toggle: drop the index when selected, append it when not. */
  function Toggle(s: seq<int>, x: int): (r: seq<int>)
    ensures forall y :: y != x ==> (y in r <==> y in s)
    ensures x in r <==> x !in s
  {
    if x in s then Without(s, x) else s + [x]
  }

  lemma {:induction false} WithoutAbsent(s: seq<int>, x: int)
    requires x !in s
    ensures Without(s, x) == s
  {
    if s != [] {
      WithoutAbsent(s[1..], x);
    }
  }

  /** Toggling the same index twice restores the selection as a set, and
      restores the very list when the index was not selected. */
  lemma ToggleTwice(s: seq<int>, x: int)
    ensures forall y :: y in Toggle(Toggle(s, x), x) <==> y in s
    ensures x !in s ==> Toggle(Toggle(s, x), x) == s
  {
    if x !in s {
      calc {
        Toggle(Toggle(s, x), x);
        Without(s + [x], x);
        { WithoutAppend(s, x); WithoutAbsent(s, x); }
        s;
      }
    }
  }

  lemma {:induction false} WithoutAppend(s: seq<int>, x: int)
    ensures Without(s + [x], x) == Without(s, x)
  {
    if s == [] {
      assert [x][1..] == [];
    } else {
      assert (s + [x])[1..] == s[1..] + [x];
      WithoutAppend(s[1..], x);
    }
  }

  predicate NoDuplicates(s: seq<int>)
  {
    forall i, j :: 0 <= i < j < |s| ==> s[i] != s[j]
  }

  lemma {:induction false} WithoutKeepsNoDuplicates(s: seq<int>, x: int)
    requires NoDuplicates(s)
    ensures NoDuplicates(Without(s, x))
  {
    if s != [] {
      assert NoDuplicates(s[1..]) by {
        forall i, j | 0 <= i < j < |s[1..]| ensures s[1..][i] != s[1..][j] {
          assert s[1..][i] == s[i + 1] && s[1..][j] == s[j + 1];
        }
      }
      WithoutKeepsNoDuplicates(s[1..], x);
      assert s[0] !in s[1..];
    }
  }

  /** A selection never lists an index twice. */
  lemma ToggleKeepsNoDuplicates(s: seq<int>, x: int)
    requires NoDuplicates(s)
    ensures NoDuplicates(Toggle(s, x))
  {
    if x in s {
      WithoutKeepsNoDuplicates(s, x);
    }
  }

  /** The question `id` exists and is of kind `kind`: the form wires each
      handler only to the questions of its kind. */
  predicate IsQuestionOfKind(id: string, kind: QuestionKind)
  {
    id in Kinds && Kinds[id] == kind
  }

  /** The state of one `QuestionnaireForm`. */
  class Assessment {
    var answers: map<string, Answer>
    var errors: map<string, string>
    var isSubmitting: bool
    var isSubmitted: bool
    /** The answers handed to the (simulated) submission call. */
    var payload: map<string, Answer>

    ghost predicate Valid()
      reads this
    {
      && WellTyped(answers)
      && (forall id :: id in errors ==> errors[id] != "")
      && (isSubmitting || isSubmitted ==> AssessmentErrors(payload) == map[])
      && (isSubmitting ==> errors == map[])
    }

    constructor ()
      ensures Valid()
      ensures answers == map[] && errors == map[] && !isSubmitting && !isSubmitted
    {
      answers, errors, payload := map[], map[], map[];
      isSubmitting, isSubmitted := false, false;
    }

    /** Drops `errors[id]` when it is set (`if (errors[id]) delete …`). */
    method ClearError(id: string)
      requires Valid()
      modifies this`errors
      ensures errors == old(errors) - {id}
    {
      if id in errors && errors[id] != "" {
        errors := errors - {id};
      }
    }

    /** `handleTextChange` */
    method HandleTextChange(id: string, value: string)
      requires Valid() && IsQuestionOfKind(id, Text)
      modifies this
      ensures Valid()
      ensures answers == old(answers)[id := Chosen(value)]
      ensures errors == old(errors) - {id}
      ensures isSubmitting == old(isSubmitting) && isSubmitted == old(isSubmitted) && payload == old(payload)
    {
      answers := answers[id := Chosen(value)];
      ClearError(id);
    }

    /** `handleRadioChange`: `value` is the chosen option's index as a string. */
    method HandleRadioChange(id: string, value: string)
      requires Valid() && IsQuestionOfKind(id, MultipleChoice)
      modifies this
      ensures Valid()
      ensures answers == old(answers)[id := Chosen(value)]
      ensures errors == old(errors) - {id}
      ensures isSubmitting == old(isSubmitting) && isSubmitted == old(isSubmitted) && payload == old(payload)
    {
      answers := answers[id := Chosen(value)];
      ClearError(id);
    }

    /** `handleCheckboxChange`: the current selection (none yet reads as the
        empty list) with `index` toggled. */
    method HandleCheckboxChange(id: string, index: int)
      requires Valid() && IsQuestionOfKind(id, Checkbox)
      modifies this
      ensures Valid()
      ensures var before := if id in old(answers) then old(answers)[id].indices else [];
        answers == old(answers)[id := Selected(Toggle(before, index))]
      ensures errors == old(errors) - {id}
      ensures isSubmitting == old(isSubmitting) && isSubmitted == old(isSubmitted) && payload == old(payload)
    {
      var current := if id in answers then answers[id].indices else [];
      answers := answers[id := Selected(Toggle(current, index))];
      ClearError(id);
    }

    /** `validateForm`: replaces the errors map wholesale and reports whether
        it came out empty. */
    method ValidateForm() returns (ok: bool)
      requires Valid()
      modifies this`errors
      ensures errors == AssessmentErrors(answers)
      ensures ok <==> errors == map[]
      ensures ok <==> Complete(answers)
    {
      var newErrors := CollectErrors(answers);
      errors := newErrors;
      ok := |newErrors| == 0;
      PassesIffComplete(answers);
    }

    /** The synchronous part of `handleSubmit`: validate, and only when that
        passes mark the form as submitting and hand the answers over. The
        submit button is disabled while a submission is in flight. */
    method BeginSubmit() returns (started: bool)
      requires Valid() && !isSubmitting
      modifies this
      ensures Valid()
      ensures errors == AssessmentErrors(answers) && answers == old(answers)
      ensures started <==> Complete(answers)
      ensures started ==> isSubmitting && payload == answers
      ensures !started ==> isSubmitting == old(isSubmitting) && payload == old(payload)
      ensures isSubmitted == old(isSubmitted)
    {
      started := ValidateForm();
      if started {
        isSubmitting := true;
        payload := answers;
      }
    }

    /** The submission call settles: on success the form is submitted; on a
        failure it is only logged. Either way it is no longer submitting. */
    method SettleSubmit(failed: bool)
      requires Valid() && isSubmitting
      modifies this
      ensures Valid() && !isSubmitting
      ensures isSubmitted == (old(isSubmitted) || !failed)
      ensures answers == old(answers) && errors == old(errors) && payload == old(payload)
    {
      if !failed {
        isSubmitted := true;
      }
      isSubmitting := false;
    }
  }
}
