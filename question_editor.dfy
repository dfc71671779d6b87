/** The question editor form: the question text, its type and an editable
    list of options that never becomes empty, and the payload the form saves. */
module Editor {
  import opened Wrappers
  import opened Sequences
  import opened Whitespace
  import QuestionSchema

  /** The question handed to the editor; a field that is absent is `None`. */
  datatype LoadedQuestion = LoadedQuestion(
    text: Option<string>,
    questionType: Option<string>,
    options: Option<seq<string>>)

  /** The question data the form hands to its save callback. */
  datatype QuestionPayload = QuestionPayload(text: string, questionType: string, options: seq<string>)

  /** JavaScript's `value || fallback` on a string: an absent or empty string gives the fallback. */
  function OrElse(v: Option<string>, fallback: string): (s: string) {
    if v.Some? && v.value != "" then v.value else fallback
  }

  /** The types for which the form shows the option fields and saves an
      option list; the editor writes this list out on its own, both where it
      saves and where it renders the option fields. */
  const EditorChoiceTypes: seq<string> := ["multiple-choice", "checkboxes", "dropdown"]

  predicate IsChoiceType(questionType: string) {
    questionType in EditorChoiceTypes
  }

  /** An option survives saving when its trimmed text is not empty. */
  predicate NotBlank(option: string) {
    Trim(option) != ""
  }

  /** The options written into the payload. */
  function SavedOptions(questionType: string, options: seq<string>): (saved: seq<string>) {
    if IsChoiceType(questionType) then Filter(options, NotBlank) else []
  }

  /** For a non-choice type no option is saved; for a choice type the saved
      options are exactly the non-blank ones, in their order, every copy of a
      repeated option included. */
  lemma SavedOptionsSpec(questionType: string, options: seq<string>)
    ensures !IsChoiceType(questionType) ==> SavedOptions(questionType, options) == []
    ensures IsChoiceType(questionType) ==>
      var kept := SavedOptions(questionType, options);
      && Subseq(kept, options)
      && (forall i :: 0 <= i < |kept| ==> !IsBlank(kept[i]))
      && (forall i :: 0 <= i < |options| && !IsBlank(options[i]) ==> options[i] in kept)
      && (forall x :: multiset(kept)[x] == if IsBlank(x) then 0 else multiset(options)[x])
  {
    if IsChoiceType(questionType) {
      var kept := Filter(options, NotBlank);
      FilterIsSubseq(options, NotBlank);
      FilterCount(options, NotBlank);
      forall x ensures multiset(kept)[x] == if IsBlank(x) then 0 else multiset(options)[x] {
        TrimEmptyIffBlank(x);
      }
      forall i | 0 <= i < |kept| ensures !IsBlank(kept[i]) {
        TrimEmptyIffBlank(kept[i]);
      }
      forall i | 0 <= i < |options| && !IsBlank(options[i]) ensures options[i] in kept {
        TrimEmptyIffBlank(options[i]);
      }
    }
  }

  /** The editor's list and the schema's list, written separately, agree on
      which types carry options. */
  lemma ChoiceTypesShared(questionType: string)
    ensures IsChoiceType(questionType) <==> QuestionSchema.OptionsRequired(questionType)
  {
  }

  /** The payload as the schema receives it. */
  function AsInput(p: QuestionPayload): (input: QuestionSchema.QuestionInput) {
    QuestionSchema.QuestionInput(QuestionSchema.Given(p.text), QuestionSchema.Given(p.questionType),
                                 QuestionSchema.Given(p.options))
  }

  /** A saved payload passes the schema exactly when its text is not blank, its
      type is one of the four, and, for a choice type, at least one option is
      not blank. */
  lemma SavedPayloadAccepted(text: string, questionType: string, options: seq<string>)
    ensures
      var p := QuestionPayload(text, questionType, SavedOptions(questionType, options));
      QuestionSchema.Validate(AsInput(p)).Success? <==>
        && !IsBlank(text)
        && questionType in QuestionSchema.QuestionTypes
        && (IsChoiceType(questionType) ==>
              exists i :: 0 <= i < |options| && !IsBlank(options[i]))
  {
    var p := QuestionPayload(text, questionType, SavedOptions(questionType, options));
    QuestionSchema.ValidateAccepts(AsInput(p));
    SavedOptionsSpec(questionType, options);
    if IsChoiceType(questionType) {
      var kept := SavedOptions(questionType, options);
      if |kept| > 0 {
        assert kept[0] in options;
        var i :| 0 <= i < |options| && options[i] == kept[0];
        assert !IsBlank(options[i]);
      }
    }
  }

  class QuestionEditor {
    var text: string
    var questionType: string
    var options: seq<string>

    /** The form always shows at least one option field. */
    ghost predicate Valid()
      reads this
    {
      |options| >= 1
    }

    /** The initial state: empty text, type `text`, one empty option. */
    constructor ()
      ensures Valid()
      ensures text == "" && questionType == "text" && options == [""]
    {
      text := "";
      questionType := "text";
      options := [""];
    }

    /** The effect run when the form opens or its question changes: load the
        question's fields, or reset to a blank form when there is none. */
    method Reset(question: Option<LoadedQuestion>)
      modifies this
      ensures Valid()
      ensures question.None? ==> text == "" && questionType == "text" && options == [""]
      ensures question.Some? ==>
        && text == OrElse(question.value.text, "")
        && questionType == OrElse(question.value.questionType, "text")
        && options == (if question.value.options.Some? && |question.value.options.value| > 0
                       then question.value.options.value else [""])
    {
      match question
      case Some(q) =>
        text := OrElse(q.text, "");
        questionType := OrElse(q.questionType, "text");
        if q.options.Some? && |q.options.value| > 0 {
          options := q.options.value;
        } else {
          options := [""];
        }
      case None =>
        text := "";
        questionType := "text";
        options := [""];
    }

    /** The text input's change handler. */
    method SetText(value: string)
      requires Valid()
      modifies this`text
      ensures Valid() && text == value
    {
      text := value;
    }

    /** The type selector's change handler. */
    method SetQuestionType(value: string)
      requires Valid()
      modifies this`questionType
      ensures Valid() && questionType == value
    {
      questionType := value;
    }

    /** `handleOptionChange`: replaces the option at `index`, nothing else. */
    method ChangeOption(index: nat, value: string)
      requires Valid() && index < |options|
      modifies this`options
      ensures Valid()
      ensures |options| == |old(options)|
      ensures options[index] == value
      ensures forall i :: 0 <= i < |options| && i != index ==> options[i] == old(options)[i]
    {
      options := options[index := value];
    }

    /** `addOption`: appends one empty option. */
    method AddOption()
      requires Valid()
      modifies this`options
      ensures Valid()
      ensures options == old(options) + [""]
    {
      options := options + [""];
    }

    /** `removeOption`: with a single option, nothing changes; otherwise the
        option at `index` is dropped (none when `index` is out of range) and
        the others keep their order. */
    method RemoveOption(index: int)
      requires Valid()
      modifies this`options
      ensures Valid()
      ensures |old(options)| <= 1 ==> options == old(options)
      ensures |old(options)| > 1 && 0 <= index < |old(options)| ==>
                options == old(options)[..index] + old(options)[index + 1..]
      ensures index < 0 || index >= |old(options)| ==> options == old(options)
    {
      if |options| <= 1 {
        return;
      }
      if 0 <= index < |options| {
        options := options[..index] + options[index + 1..];
      }
    }

    /** `handleSave`'s payload: the text and type as they are, and the saved
        options: none for a non-choice type, every non-blank one in order otherwise. */
    function Payload(): (p: QuestionPayload)
      reads this
      ensures p.text == text && p.questionType == questionType
      ensures !IsChoiceType(questionType) ==> p.options == []
      ensures IsChoiceType(questionType) ==>
        && Subseq(p.options, options)
        && (forall i :: 0 <= i < |p.options| ==> !IsBlank(p.options[i]))
        && (forall i :: 0 <= i < |options| && !IsBlank(options[i]) ==> options[i] in p.options)
        && (forall x :: multiset(p.options)[x] == if IsBlank(x) then 0 else multiset(options)[x])
    {
      SavedOptionsSpec(questionType, options);
      QuestionPayload(text, questionType, SavedOptions(questionType, options))
    }
  }
}
