/** The Question document schema: a required, trimmed `text`; a `questionType`
    from a four-value enumeration defaulting to `text`; and an `options` list
    that is required exactly for the three choice types. */
module QuestionSchema {
  import opened Wrappers
  import opened Whitespace

  /** The `questionType` enumeration. */
  const QuestionTypes: seq<string> := ["text", "multiple-choice", "checkboxes", "dropdown"]

  /** The value `questionType` takes when none is given. */
  const DefaultQuestionType: string := "text"

  /** The types whose questions offer a list of options to choose from, as
      `options.required` lists them. The question editor keeps its own copy of
      this list; `Editor.ChoiceTypesShared` shows the two agree. */
  const ChoiceTypes: seq<string> := ["multiple-choice", "checkboxes", "dropdown"]

  /** The `options.required` predicate. */
  predicate OptionsRequired(questionType: string) {
    questionType in ChoiceTypes
  }

  /** A question as the schema stores it. */
  datatype Question = Question(text: string, questionType: string, options: seq<string>)

  /** A submitted field: absent (`undefined`), `null`, or a value. Defaults
      apply only to an absent field; `null` is kept and fails `required`. */
  datatype Submitted<T> = Absent | Null | Given(value: T) {

    /** The value, or `default` when the field is absent or `null`. */
    function Or(default: T): (v: T) {
      match this
      case Given(v) => v
      case _ => default
    }
  }

  /** The fields as submitted. */
  datatype QuestionInput = QuestionInput(
    text: Submitted<string>,
    questionType: Submitted<string>,
    options: Submitted<seq<string>>)

  /** The document after casting and defaults, before validation; `None` is a
      field left `null` or `undefined`. */
  datatype Draft = Draft(text: Option<string>, questionType: Option<string>, options: Option<seq<string>>)

  /** The schema paths a validation error can name. */
  datatype Path = TextPath | QuestionTypePath | OptionsPath

  /** A stored question that satisfies every rule of the schema. */
  predicate WellFormed(q: Question) {
    && q.text != ""
    && Trim(q.text) == q.text
    && q.questionType in QuestionTypes
    && (OptionsRequired(q.questionType) ==> |q.options| > 0)
  }

  /** The document before validation: a given text passed through the trim
      setter; an absent type defaulted to `text`; an absent option list
      defaulted to the empty array; `null` left as it is. */
  function Cast(input: QuestionInput): (doc: Draft) {
    Draft(
      match input.text
        case Given(t) => Some(Trim(t))
        case _ => None,
      match input.questionType
        case Absent => Some(DefaultQuestionType)
        case Null => None
        case Given(t) => Some(t),
      match input.options
        case Absent => Some([])
        case Null => None
        case Given(xs) => Some(xs))
  }

  /** The paths whose validators reject a cast document: `required` on the
      text (`null`, `undefined` and the empty string fail it), `required` and
      the enumeration on the type, and the conditional `required` on the
      options (`null` and the empty list fail it). */
  function Violations(doc: Draft): (paths: set<Path>) {
    (if doc.text.None? || doc.text.value == "" then {TextPath} else {})
    + (if doc.questionType.None? || doc.questionType.value !in QuestionTypes then {QuestionTypePath} else {})
    + (if doc.questionType.Some? && OptionsRequired(doc.questionType.value)
          && (doc.options.None? || |doc.options.value| == 0)
       then {OptionsPath} else {})
  }

  /** Creating a question: the stored document, or the non-empty set of failing paths. */
  function Validate(input: QuestionInput): (r: Result<Question, set<Path>>)
    ensures r.Failure? ==> r.error != {}
    ensures r.Success? ==> r.value.text == Cast(input).text.GetOr("")
  {
    var doc := Cast(input);
    var errs := Violations(doc);
    if errs == {} then Success(Question(doc.text.value, doc.questionType.value, doc.options.GetOr([])))
    else Failure(errs)
  }

  /** A question is accepted exactly when its text is given and not blank,
      its type is absent (defaulted to `text`) or given and in the
      enumeration, and a choice type comes with a given, non-empty option
      list; it is stored with trimmed text. */
  lemma ValidateAccepts(input: QuestionInput)
    ensures Validate(input).Success? <==>
      && input.text.Given? && !IsBlank(input.text.value)
      && !input.questionType.Null? && input.questionType.Or("text") in QuestionTypes
      && (OptionsRequired(input.questionType.Or("text")) ==>
            input.options.Given? && |input.options.value| > 0)
    ensures Validate(input).Success? ==>
      Validate(input).value == Question(Trim(input.text.value), input.questionType.Or("text"),
                                        input.options.Or([]))
  {
    TrimEmptyIffBlank(input.text.Or(""));
  }

  /** A rejection names exactly the failing paths. */
  lemma ValidateRejects(input: QuestionInput)
    requires Validate(input).Failure?
    ensures TextPath in Validate(input).error <==>
              !input.text.Given? || IsBlank(input.text.value)
    ensures QuestionTypePath in Validate(input).error <==>
              input.questionType.Null? || input.questionType.Or("text") !in QuestionTypes
    ensures OptionsPath in Validate(input).error <==>
              && !input.questionType.Null?
              && OptionsRequired(input.questionType.Or("text"))
              && !(input.options.Given? && |input.options.value| > 0)
  {
    TrimEmptyIffBlank(input.text.Or(""));
    assert IsBlank("");
  }

  /** A `null` type is not defaulted: unlike an absent one, it is rejected. */
  lemma NullTypeIsRejected(text: string)
    requires Trim(text) != ""
    ensures Validate(QuestionInput(Given(text), Null, Absent)) == Failure({QuestionTypePath})
    ensures Validate(QuestionInput(Given(text), Absent, Absent)).Success?
  {
    var input := QuestionInput(Given(text), Null, Absent);
    assert Violations(Cast(input)) == {QuestionTypePath};
    assert QuestionTypes[0] == "text";
    assert !OptionsRequired("text");
  }

  /** Every question the schema accepts is well formed, its text already trimmed. */
  lemma ValidatedIsWellFormed(input: QuestionInput)
    ensures Validate(input).Success? ==> WellFormed(Validate(input).value)
  {
    if Validate(input).Success? {
      TrimIdempotent(input.text.value);
    }
  }

  /** `options` is required exactly for the enumerated types other than `text`. */
  lemma OptionsRequiredExactlyForChoiceTypes(t: string)
    ensures OptionsRequired(t) <==> t in QuestionTypes && t != "text"
  {
  }

  /** A choice question with an empty option list is rejected on `options` alone. */
  lemma ChoiceQuestionNeedsOptions(text: string)
    requires Trim(text) != ""
    ensures Validate(QuestionInput(Given(text), Given("multiple-choice"), Given([])))
            == Failure({OptionsPath})
  {
    var input := QuestionInput(Given(text), Given("multiple-choice"), Given([]));
    var doc := Cast(input);
    assert doc.questionType.value == QuestionTypes[1] == ChoiceTypes[0];
    assert Violations(doc) == {OptionsPath};
    assert Validate(input) == Failure(Violations(doc));
  }

  /** A question with no type and no options is stored as a `text` question. */
  lemma TextQuestionNeedsNoOptions(text: string)
    requires Trim(text) != ""
    ensures Validate(QuestionInput(Given(text), Absent, Absent))
            == Success(Question(Trim(text), "text", []))
  {
    assert QuestionTypes[0] == "text";
    assert !OptionsRequired("text");
  }
}
