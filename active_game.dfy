/** The teacher's in-game panel (src/components/ActiveGame.tsx): what is
    shown and which controls are offered, derived from the game state and
    the quiz. */
module ActiveGame {
  import opened Js
  import opened QuizTypes

  datatype Status = Waiting | Asking | Answer | Finished

  datatype GameState = GameState(status: Status, currentQuestionIndex: int)

  /** `quiz.questions[currentQuestionIndex]`: undefined outside the list. */
  function CurrentQuestion(state: GameState, quiz: QuizSet): (q: Option<Question>)
    ensures q.Some? <==> 0 <= state.currentQuestionIndex < |quiz.questions|
    ensures q.Some? ==> q.value == quiz.questions[state.currentQuestionIndex]
  {
    var i := state.currentQuestionIndex;
    if 0 <= i < |quiz.questions| then Some(quiz.questions[i]) else None
  }

  predicate IsLastQuestion(state: GameState, quiz: QuizSet) {
    state.currentQuestionIndex >= |quiz.questions| - 1
  }

  predicate ShowingAnswer(state: GameState) {
    state.status == Answer
  }

  datatype NextButton = NextButton(caption: string, disabled: bool)

  /** The question card: its heading numbers, which options are highlighted
      green, and its buttons. */
  datatype QuestionCard = QuestionCard(
    number: int, total: int, text: string, options: seq<string>,
    highlighted: seq<bool>, showAnswer: bool, next: Option<NextButton>)

  datatype Panel = Panel(playerCount: int, card: Option<QuestionCard>, endGame: bool)

  function Highlights(options: seq<string>, correctAnswer: int, showing: bool): (h: seq<bool>)
    ensures |h| == |options|
    ensures forall i | 0 <= i < |h| :: h[i] <==> showing && i == correctAnswer
  {
    seq(|options|, i requires 0 <= i < |options| => showing && i == correctAnswer)
  }

  function Render(state: GameState, quiz: QuizSet, players: seq<string>): (p: Panel)
    ensures p.playerCount == |players| && p.endGame
    ensures p.card.Some? <==> CurrentQuestion(state, quiz).Some?
    ensures p.card.Some? ==>
              var c := p.card.value;
              var q := quiz.questions[state.currentQuestionIndex];
              && c.number == state.currentQuestionIndex + 1 && c.total == |quiz.questions|
              && c.text == q.question && c.options == q.options
              && |c.highlighted| == |q.options|
              && (forall i | 0 <= i < |c.highlighted| :: c.highlighted[i] <==> ShowingAnswer(state) && i == q.correctAnswer)
              && (c.showAnswer <==> !ShowingAnswer(state))
              && (c.next.Some? <==> ShowingAnswer(state))
              && (c.next.Some? ==> (c.next.value.disabled <==> IsLastQuestion(state, quiz)))
              && (c.next.Some? ==> c.next.value.caption == if IsLastQuestion(state, quiz) then "End Quiz" else "Next Question")
  {
    var card := match CurrentQuestion(state, quiz)
      case None => None
      case Some(q) =>
        var last := IsLastQuestion(state, quiz);
        var showing := ShowingAnswer(state);
        Some(QuestionCard(
          state.currentQuestionIndex + 1, |quiz.questions|, q.question, q.options,
          Highlights(q.options, q.correctAnswer, showing),
          !showing,
          if showing then Some(NextButton(if last then "End Quiz" else "Next Question", last)) else None));
    Panel(|players|, card, true)
  }

  /** Exactly one of Show Answer and the next button is on a card; the next
      button is clickable only when the next index names a question, so the
      panel never advances past the last question. Only one option is ever
      highlighted. */
  lemma ControlsAreConsistent(state: GameState, quiz: QuizSet, players: seq<string>)
    ensures var p := Render(state, quiz, players);
            p.card.Some? ==>
              && (p.card.value.showAnswer != p.card.value.next.Some?)
              && (p.card.value.next.Some? && !p.card.value.next.value.disabled ==>
                    CurrentQuestion(GameState(state.status, state.currentQuestionIndex + 1), quiz).Some?)
              && (forall i, j | 0 <= i < j < |p.card.value.highlighted| ::
                    !(p.card.value.highlighted[i] && p.card.value.highlighted[j]))
  {
  }
}
