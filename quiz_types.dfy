/** The shapes of src/types/quiz.ts as the editor components use them. */
module QuizTypes {

  datatype Question = Question(index: int, question: string, options: seq<string>, correctAnswer: int)

  datatype QuizSet = QuizSet(quizId: string, title: string, questions: seq<Question>)

  /** The four empty option slots of a blank draft. */
  const BlankOptions: seq<string> := ["", "", "", ""]

  /** The add-question check shared by the editors:
      `question && options.every(opt => opt)`. */
  predicate Filled(question: string, options: seq<string>) {
    question != "" && forall i | 0 <= i < |options| :: options[i] != ""
  }
}
