/** The new-question form (src/components/QuestionForm.tsx): a draft
    question held in component state, edited field by field. */
module QuestionForm {
  import opened QuizTypes
  import opened Js

  const ValidationTitle := "Validation Error"
  const FillAllFields := "Please fill in all question fields"

  /** What the Add button does: hand a copy of the draft to `onAddQuestion`,
      or show a toast. */
  datatype AddOutcome = Emitted(question: Question) | Toast(title: string, description: string)

  function BlankDraft(index: int): (q: Question)
    ensures q.question == "" && q.options == BlankOptions && q.correctAnswer == 0 && q.index == index
    ensures !Filled(q.question, q.options)
  {
    Question(index, "", BlankOptions, 0)
  }

  class Form {
    /** The `currentQuestionCount` prop as last rendered. */
    var currentQuestionCount: int
    /** The `currentQuestion` state. */
    var draft: Question

    /** The first render: the draft's index is the prop's value. */
    constructor (currentQuestionCount: int)
      ensures this.currentQuestionCount == currentQuestionCount
      ensures draft == BlankDraft(currentQuestionCount)
    {
      this.currentQuestionCount := currentQuestionCount;
      draft := BlankDraft(currentQuestionCount);
    }

    /** A re-render with a new prop; `useState` keeps the draft. */
    method SetCount(count: int)
      modifies this`currentQuestionCount
      ensures currentQuestionCount == count
    {
      currentQuestionCount := count;
    }

    /** The question textarea's `onChange`. */
    method EditQuestion(text: string)
      modifies this`draft
      ensures draft == old(draft).(question := text)
    {
      draft := draft.(question := text);
    }

    /** Option input `i`: a copy of the options with slot `i` overwritten. */
    method EditOption(i: nat, value: string)
      requires i < |draft.options|
      modifies this`draft
      ensures draft.index == old(draft).index && draft.question == old(draft).question
      ensures draft.correctAnswer == old(draft).correctAnswer
      ensures |draft.options| == |old(draft).options| && draft.options[i] == value
      ensures forall j | 0 <= j < |draft.options| && j != i :: draft.options[j] == old(draft).options[j]
    {
      var newOptions := draft.options[i := value];
      draft := draft.(options := newOptions);
    }

    /** The Correct button beside option `i`. */
    method ChooseCorrect(i: nat)
      modifies this`draft
      ensures draft == old(draft).(correctAnswer := i)
    {
      draft := draft.(correctAnswer := i);
    }

    /** `handleAddQuestion`: a filled draft is emitted and replaced by a
        blank one whose index is computed from the prop, not from the old
        draft; otherwise the toast is shown and the draft kept. */
    method HandleAddQuestion() returns (r: AddOutcome)
      modifies this`draft
      ensures Filled(old(draft).question, old(draft).options) ==>
                r == Emitted(old(draft)) && draft == BlankDraft(currentQuestionCount + 1)
      ensures !Filled(old(draft).question, old(draft).options) ==>
                r == Toast(ValidationTitle, FillAllFields) && draft == old(draft)
    {
      if Filled(draft.question, draft.options) {
        r := Emitted(draft);
        draft := BlankDraft(currentQuestionCount + 1);
      } else {
        r := Toast(ValidationTitle, FillAllFields);
      }
    }
  }
}
