/** The quiz editor (src/components/QuizEditor.tsx): it holds no state of
    its own; each handler builds the next quiz value from the current one. */
module QuizEditor {
  import opened QuizTypes

  /** `handleAddQuestion`: the new question goes at the end. */
  function AddQuestion(quiz: QuizSet, question: Question): (r: QuizSet)
    ensures r.quizId == quiz.quizId && r.title == quiz.title
    ensures |r.questions| == |quiz.questions| + 1
    ensures r.questions[..|quiz.questions|] == quiz.questions
    ensures r.questions[|quiz.questions|] == question
  {
    quiz.(questions := quiz.questions + [question])
  }

  /** `filter((_, i) => i !== position)` over the suffix that starts at
      stored position `from`. */
  function WithoutPosition(qs: seq<Question>, position: int, from: int): seq<Question>
    decreases |qs|
  {
    if qs == [] then []
    else (if from == position then [] else [qs[0]]) + WithoutPosition(qs[1..], position, from + 1)
  }

  /** `handleDeleteQuestion(position)`. */
  function DeleteQuestion(quiz: QuizSet, position: int): (r: QuizSet)
    ensures r.quizId == quiz.quizId && r.title == quiz.title
  {
    quiz.(questions := WithoutPosition(quiz.questions, position, 0))
  }

  lemma {:induction false} WithoutPositionMeaning(qs: seq<Question>, position: int, from: int)
    ensures from <= position < from + |qs| ==>
              WithoutPosition(qs, position, from) == qs[..position - from] + qs[position - from + 1..]
    ensures !(from <= position < from + |qs|) ==> WithoutPosition(qs, position, from) == qs
    decreases |qs|
  {
    if qs != [] {
      WithoutPositionMeaning(qs[1..], position, from + 1);
      if from == position {
        assert qs[..0] + qs[1..] == qs[1..];
      } else if from < position < from + |qs| {
        assert [qs[0]] + (qs[1..][..position - from - 1] + qs[1..][position - from..])
            == qs[..position - from] + qs[position - from + 1..];
      } else {
        assert [qs[0]] + qs[1..] == qs;
      }
    }
  }

  /** Deleting a stored position removes exactly that question and keeps the
      rest in order; an out-of-range position changes nothing. */
  lemma DeleteQuestionRemovesOne(quiz: QuizSet, position: int)
    ensures 0 <= position < |quiz.questions| ==>
              DeleteQuestion(quiz, position).questions
              == quiz.questions[..position] + quiz.questions[position + 1..]
    ensures !(0 <= position < |quiz.questions|) ==> DeleteQuestion(quiz, position) == quiz
  {
    WithoutPositionMeaning(quiz.questions, position, 0);
  }

  /** The title input's `onChange`. */
  function EditTitle(quiz: QuizSet, title: string): (r: QuizSet)
    ensures r.title == title && r.quizId == quiz.quizId && r.questions == quiz.questions
  {
    quiz.(title := title)
  }

  /** The Save button's `disabled`. */
  predicate SaveDisabled(quiz: QuizSet) {
    quiz.title == "" || |quiz.questions| == 0
  }

  /** Adding a question to a titled quiz enables saving, and only deleting
      its last question disables it again. */
  lemma SaveGatingFollowsEdits(quiz: QuizSet, question: Question, position: int)
    ensures quiz.title != "" ==> !SaveDisabled(AddQuestion(quiz, question))
    ensures SaveDisabled(DeleteQuestion(quiz, position)) <==>
              quiz.title == "" || |quiz.questions| == 0
              || (|quiz.questions| == 1 && position == 0)
  {
    DeleteQuestionRemovesOne(quiz, position);
  }
}
