/** The question catalog editor: three category lists, a draft question
    edited in a dialog, and the add handler that appends the draft to the
    selected category under its guards. */
module QuestionnaireManager {
  import opened Strings

  datatype GeneralQuestion = GeneralQuestion(id: string, text: string)
  datatype VideoQuestion = VideoQuestion(id: string, text: string, duration: int)
  datatype ChoiceQuestion = ChoiceQuestion(id: string, text: string, options: seq<string>)

  /** The values of the category radio group. */
  const General := "general"
  const Video := "video"
  const MultipleChoice := "multipleChoice"

  const DefaultDuration := 60
  const BlankOptions: seq<string> := ["", "", "", ""]
  const TooFewOptions := "Please provide at least 2 options for multiple choice questions"

  /** `s.trim() !== ""` */
  predicate NonBlank(s: string)
  {
    Trim(s) != ""
  }

  /** `options.filter((opt) => opt.trim() !== "")` */
  function KeepNonBlank(options: seq<string>): (r: seq<string>)
    ensures |r| <= |options|
    ensures forall o :: o in r <==> o in options && NonBlank(o)
  {
    if options == [] then []
    else if NonBlank(options[0]) then [options[0]] + KeepNonBlank(options[1..])
    else KeepNonBlank(options[1..])
  }

  /** The filter keeps the options in their order: filtering a concatenation
      concatenates the filtered parts. */
  lemma {:induction false} KeepNonBlankAppend(a: seq<string>, b: seq<string>)
    ensures KeepNonBlank(a + b) == KeepNonBlank(a) + KeepNonBlank(b)
  {
    if a == [] {
      assert a + b == b;
    } else {
      assert (a + b)[1..] == a[1..] + b;
      KeepNonBlankAppend(a[1..], b);
    }
  }

  /** An option survives exactly when it has a non-whitespace character. */
  lemma KeepNonBlankExactly(options: seq<string>)
    ensures forall o :: o in KeepNonBlank(options) <==> o in options && !IsBlank(o)
  {
    forall o | o in options {
      TrimEmptyIffBlank(o);
    }
  }

  /** `Number.parseInt(input) || 60`: NaN and 0 are falsy. */
  function DurationFromInput(input: string): (d: int)
    ensures d != 0
  {
    var parsed := ParseInt(input);
    if parsed.None? || parsed.value == 0 then DefaultDuration else parsed.value
  }

  /** Typing a non-zero number gives that number; an empty field or a zero
      falls back to sixty seconds. */
  lemma DurationFromInputRoundTrip(n: int)
    ensures DurationFromInput(IntToString(n)) == if n == 0 then DefaultDuration else n
  {
    ParseIntRoundTrip(n);
  }

  lemma DurationFallbacks()
    ensures DurationFromInput("") == DefaultDuration
    ensures DurationFromInput("abc") == DefaultDuration
  {
    assert !IsSpace('a') && !IsDigit('a');
  }

  /** `questionType.charAt(0)`, the prefix of a fresh id. */
  function FirstChar(s: string): (r: string)
    ensures |r| == if s == "" then 0 else 1
    ensures r <= s
  {
    if s == "" then "" else s[..1]
  }

  /** The sample catalog the editor starts from (the longer texts are
      written in two pieces so that their first character is visible to the
      verifier). */
  const InitialGeneral: seq<GeneralQuestion> := [
    GeneralQuestion("g1", "Tell us about your experience " + "with JavaScript frameworks."),
    GeneralQuestion("g2", "What are your strengths " + "and weaknesses as a developer?"),
    GeneralQuestion("g3", "Describe a challenging project " + "you worked on and how you overcame obstacles.")]
  const InitialVideo: seq<VideoQuestion> := [
    VideoQuestion("v1", "Introduce yourself " + "and your background in software development.", 60),
    VideoQuestion("v2", "Explain a complex technical " + "concept you're familiar with.", 120)]
  const InitialChoice: seq<ChoiceQuestion> := [
    ChoiceQuestion("mc1", "Which of the following " + "is NOT a JavaScript framework?", ["React", "Angular", "Vue", "Java"]),
    ChoiceQuestion("mc2", "What does API stand for?", [
      "Application Programming Interface", "Automated Program Integration",
      "Application Process Integration", "Advanced Programming Interface"])]

  lemma NotBlankByFirst(s: string)
    requires |s| > 0 && !IsSpace(s[0])
    ensures !IsBlank(s)
  {
  }

  /** The sample catalog already meets the editor's invariant. */
  lemma InitialCatalogValid()
    ensures forall i :: 0 <= i < |InitialGeneral| ==> !IsBlank(InitialGeneral[i].text)
    ensures forall i :: 0 <= i < |InitialVideo| ==> !IsBlank(InitialVideo[i].text)
    ensures forall i :: 0 <= i < |InitialChoice| ==>
      && !IsBlank(InitialChoice[i].text)
      && |InitialChoice[i].options| >= 2
      && forall o :: o in InitialChoice[i].options ==> !IsBlank(o)
  {
    NotBlankByFirst(InitialGeneral[0].text);
    NotBlankByFirst(InitialGeneral[1].text);
    NotBlankByFirst(InitialGeneral[2].text);
    NotBlankByFirst(InitialVideo[0].text);
    NotBlankByFirst(InitialVideo[1].text);
    NotBlankByFirst(InitialChoice[0].text);
    NotBlankByFirst(InitialChoice[1].text);
    var o0, o1 := InitialChoice[0].options, InitialChoice[1].options;
    NotBlankByFirst(o0[0]); NotBlankByFirst(o0[1]); NotBlankByFirst(o0[2]); NotBlankByFirst(o0[3]);
    NotBlankByFirst(o1[0]); NotBlankByFirst(o1[1]); NotBlankByFirst(o1[2]); NotBlankByFirst(o1[3]);
  }

  /** The state of one `QuestionnaireManager`. */
  class Manager {
    var general: seq<GeneralQuestion>
    var video: seq<VideoQuestion>
    var multipleChoice: seq<ChoiceQuestion>
    var questionType: string
    var draftText: string
    var draftDuration: int
    var draftOptions: seq<string>
    var isDialogOpen: bool
    /** The messages shown with `alert`. */
    var alerts: seq<string>

    /** Every stored question has a non-blank text, every multiple-choice
        question at least two options and no blank one, and the draft always
        has four option slots. */
    ghost predicate Valid()
      reads this
    {
      && (forall i :: 0 <= i < |general| ==> !IsBlank(general[i].text))
      && (forall i :: 0 <= i < |video| ==> !IsBlank(video[i].text))
      && (forall i :: 0 <= i < |multipleChoice| ==>
            && !IsBlank(multipleChoice[i].text)
            && |multipleChoice[i].options| >= 2
            && forall o :: o in multipleChoice[i].options ==> !IsBlank(o))
      && |draftOptions| == |BlankOptions|
    }

    /** The draft is back to its initial contents. */
    ghost predicate DraftReset()
      reads this
    {
      draftText == "" && draftDuration == DefaultDuration && draftOptions == BlankOptions
    }

    /** The sample catalog and an empty draft, "general" selected. */
    constructor ()
      ensures Valid() && DraftReset() && !isDialogOpen && alerts == []
      ensures questionType == General
      ensures general == InitialGeneral && video == InitialVideo && multipleChoice == InitialChoice
    {
      general, video, multipleChoice := InitialGeneral, InitialVideo, InitialChoice;
      questionType := General;
      draftText, draftDuration, draftOptions := "", DefaultDuration, BlankOptions;
      isDialogOpen := false;
      alerts := [];
      new;
      InitialCatalogValid();
    }

    /** The category radio group. */
    method SetQuestionType(t: string)
      requires Valid()
      modifies this`questionType
      ensures Valid()
      ensures questionType == t
    {
      questionType := t;
    }

    /** The dialog trigger and the cancel button. */
    method SetDialogOpen(open: bool)
      requires Valid()
      modifies this`isDialogOpen
      ensures Valid()
      ensures isDialogOpen == open
    {
      isDialogOpen := open;
    }

    /** The question text area. */
    method SetDraftText(text: string)
      requires Valid()
      modifies this`draftText
      ensures Valid()
      ensures draftText == text
    {
      draftText := text;
    }

    /** The duration field of a video question. */
    method SetDraftDuration(input: string)
      requires Valid()
      modifies this`draftDuration
      ensures Valid()
      ensures draftDuration == DurationFromInput(input)
    {
      draftDuration := DurationFromInput(input);
    }

    /** `handleOptionChange`: one option slot is rewritten (the inputs exist
        for the draft's slots only). */
    method HandleOptionChange(index: int, value: string)
      requires Valid() && 0 <= index < |draftOptions|
      modifies this`draftOptions
      ensures Valid()
      ensures |draftOptions| == |old(draftOptions)| && draftOptions[index] == value
      ensures forall i :: 0 <= i < |draftOptions| && i != index ==> draftOptions[i] == old(draftOptions)[i]
    {
      draftOptions := draftOptions[index := value];
    }

    /** Resets the draft and closes the dialog. */
    method ResetDraft()
      requires Valid()
      modifies this`draftText, this`draftDuration, this`draftOptions, this`isDialogOpen
      ensures Valid() && DraftReset() && !isDialogOpen
    {
      draftText, draftDuration, draftOptions := "", DefaultDuration, BlankOptions;
      isDialogOpen := false;
    }

    /** `handleAddQuestion`; `stamp` stands for the `Date.now()` part of the
        new id. */
    method AddQuestion(stamp: string)
      requires Valid()
      modifies this
      ensures Valid() && questionType == old(questionType)
      // blank text: nothing at all changes
      ensures !NonBlank(old(draftText)) ==>
        && general == old(general) && video == old(video) && multipleChoice == old(multipleChoice)
        && draftText == old(draftText) && draftDuration == old(draftDuration) && draftOptions == old(draftOptions)
        && isDialogOpen == old(isDialogOpen) && alerts == old(alerts)
      // fewer than two usable options: an alert and nothing else
      ensures NonBlank(old(draftText)) && questionType == MultipleChoice && |KeepNonBlank(old(draftOptions))| < 2 ==>
        && general == old(general) && video == old(video) && multipleChoice == old(multipleChoice)
        && draftText == old(draftText) && draftDuration == old(draftDuration) && draftOptions == old(draftOptions)
        && isDialogOpen == old(isDialogOpen) && alerts == old(alerts) + [TooFewOptions]
      // otherwise: at most one append, then the draft is reset and the dialog closed
      ensures NonBlank(old(draftText)) && !(questionType == MultipleChoice && |KeepNonBlank(old(draftOptions))| < 2) ==>
        && DraftReset() && !isDialogOpen && alerts == old(alerts)
        && var id := FirstChar(questionType) + stamp;
        && general == old(general) + (if questionType == General then [GeneralQuestion(id, old(draftText))] else [])
        && video == old(video) + (if questionType == Video then [VideoQuestion(id, old(draftText), old(draftDuration))] else [])
        && multipleChoice == old(multipleChoice) +
             (if questionType == MultipleChoice then [ChoiceQuestion(id, old(draftText), KeepNonBlank(old(draftOptions)))] else [])
    {
      if !NonBlank(draftText) {
        return;
      }
      TrimEmptyIffBlank(draftText);
      var newId := FirstChar(questionType) + stamp;
      if questionType == General {
        general := general + [GeneralQuestion(newId, draftText)];
      } else if questionType == Video {
        video := video + [VideoQuestion(newId, draftText, draftDuration)];
      } else if questionType == MultipleChoice {
        var filtered := KeepNonBlank(draftOptions);
        if |filtered| < 2 {
          alerts := alerts + [TooFewOptions];
          return;
        }
        KeepNonBlankExactly(draftOptions);
        multipleChoice := multipleChoice + [ChoiceQuestion(newId, draftText, filtered)];
      }
      ResetDraft();
    }
  }

  /** A string whose first character is not whitespace is not blank. */
  lemma NonBlankByFirst(s: string)
    requires |s| > 0 && !IsSpace(s[0])
    ensures NonBlank(s)
  {
    TrimEmptyIffBlank(s);
  }

  /** The id of a multiple-choice question added at 1700000000000. */
  lemma ChoiceIdExample()
    ensures FirstChar(MultipleChoice) + "1700000000000" == "m1700000000000"
  {
  }

  lemma KeepTwoOfFour()
    ensures KeepNonBlank(["Yes", "", "No", ""]) == ["Yes", "No"]
  {
    NonBlankByFirst("Yes");
    NonBlankByFirst("No");
    var opts := ["Yes", "", "No", ""];
    assert opts[1..] == ["", "No", ""] && opts[1..][1..] == ["No", ""];
    assert opts[1..][1..][1..] == [""] && opts[1..][1..][1..][1..] == [];
  }

  /** Adding a multiple-choice question with two filled slots out of four
      appends exactly those two options, in slot order, and resets the
      draft. */
  method AddChoiceExample(m: Manager)
    requires m.Valid() && m.questionType == MultipleChoice
    requires m.draftText == "Pick one" && m.draftOptions == ["Yes", "", "No", ""]
    modifies m
  {
    ghost var before := m.multipleChoice;
    KeepTwoOfFour();
    NonBlankByFirst("Pick one");
    ChoiceIdExample();
    m.AddQuestion("1700000000000");
    assert m.DraftReset() && !m.isDialogOpen;
    assert m.multipleChoice == before + [ChoiceQuestion("m1700000000000", "Pick one", ["Yes", "No"])];
  }
}
