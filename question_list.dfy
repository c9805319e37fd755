/** The question list of the quiz editor (src/components/QuestionList.tsx): a
    sorted copy of the questions, one card per question. */
module QuestionList {
  import opened QuizTypes
  import StableSort
  import QuizEditor

  /** The comparator `a.index - b.index` orders by this key. */
  function IndexKey(q: Question): int {
    q.index
  }

  /** `[...questions].sort(...)`: the copy is sorted; the prop itself is a
      value here and cannot be reordered. */
  function SortedQuestions(questions: seq<Question>): seq<Question> {
    StableSort.SortBy(questions, IndexKey)
  }

  /** One rendered card: the number shown and the position handed to the
      delete callback. */
  datatype Card = Card(number: int, question: Question, deletePosition: int)

  datatype View = View(headerCount: int, cards: seq<Card>)

  function Render(questions: seq<Question>): (v: View)
    ensures v.headerCount == |questions|
    ensures |v.cards| == |questions|
    ensures forall k | 0 <= k < |v.cards| ::
              && v.cards[k].question == SortedQuestions(questions)[k]
              && v.cards[k].deletePosition == k
              && v.cards[k].number == v.cards[k].question.index + 1
  {
    var sorted := SortedQuestions(questions);
    View(|questions|, seq(|sorted|, k requires 0 <= k < |sorted| => Card(sorted[k].index + 1, sorted[k], k)))
  }

  /** The cards show a permutation of the questions in ascending `index`
      order, equal indices in their stored order. */
  lemma CardsArePermutationSortedByIndex(questions: seq<Question>, index: int)
    ensures var s := SortedQuestions(questions);
            && multiset(s) == multiset(questions)
            && StableSort.Sorted(s, IndexKey)
            && StableSort.WithKey(s, IndexKey, index) == StableSort.WithKey(questions, IndexKey, index)
  {
    StableSort.SortByPermutesAndSorts(questions, IndexKey);
    StableSort.SortByStable(questions, IndexKey, index);
  }

  /** As written: the card's sorted position goes to the editor's delete,
      which removes by stored position. */
  function DeleteFromCardAsWritten(quiz: QuizSet, card: int): (r: QuizSet)
    ensures r.quizId == quiz.quizId && r.title == quiz.title
  {
    QuizEditor.DeleteQuestion(quiz, card)
  }

  /** When the stored questions are already in index order the two positions
      agree, and the card's own question is the one removed. */
  lemma DeleteFromCardAgreesWhenSorted(quiz: QuizSet, card: int)
    requires StableSort.Sorted(quiz.questions, IndexKey)
    requires 0 <= card < |quiz.questions|
    ensures SortedQuestions(quiz.questions)[card] == quiz.questions[card]
    ensures DeleteFromCardAsWritten(quiz, card).questions == quiz.questions[..card] + quiz.questions[card + 1..]
  {
    StableSort.SortBySortedIsIdentity(quiz.questions, IndexKey);
    QuizEditor.DeleteQuestionRemovesOne(quiz, card);
  }

  /** Out of order, deleting the first card (the question with index 0)
      removes the question with index 1 instead. */
  lemma DeleteFromCardWrongWhenUnsorted()
    ensures var q0 := Question(0, "a", ["1", "2", "3", "4"], 0);
            var q1 := Question(1, "b", ["1", "2", "3", "4"], 0);
            var quiz := QuizSet("quiz", "title", [q1, q0]);
            && Render(quiz.questions).cards[0].question == q0
            && DeleteFromCardAsWritten(quiz, Render(quiz.questions).cards[0].deletePosition).questions == [q0]
  {
    var q0 := Question(0, "a", ["1", "2", "3", "4"], 0);
    var q1 := Question(1, "b", ["1", "2", "3", "4"], 0);
    var quiz := QuizSet("quiz", "title", [q1, q0]);
    assert [q1, q0][1..] == [q0] && [q0][1..] == [];
    assert StableSort.SortBy([q0], IndexKey) == StableSort.Insert(q0, [], IndexKey) == [q0];
    assert StableSort.Insert(q1, [q0], IndexKey) == [q0] + StableSort.Insert(q1, [], IndexKey) == [q0, q1];
    assert SortedQuestions([q1, q0]) == [q0, q1];
    QuizEditor.DeleteQuestionRemovesOne(quiz, 0);
    assert [q1, q0][..0] + [q1, q0][1..] == [q0];
  }

  /** A question paired with its stored position. */
  datatype Placed = Placed(position: int, question: Question)

  function PlacedIndex(p: Placed): int {
    p.question.index
  }

  /** The display order of the stored positions. */
  function SortedPlacements(questions: seq<Question>): seq<Placed> {
    StableSort.SortBy(seq(|questions|, i requires 0 <= i < |questions| => Placed(i, questions[i])), PlacedIndex)
  }

  /** Corrected: the card hands over the stored position of the question it
      shows. */
  function DeleteDisplayedQuestion(quiz: QuizSet, card: int): (r: QuizSet)
    requires 0 <= card < |quiz.questions|
    ensures r.quizId == quiz.quizId && r.title == quiz.title
  {
    QuizEditor.DeleteQuestion(quiz, SortedPlacements(quiz.questions)[card].position)
  }

  /** The corrected delete removes exactly one stored question, and it is the
      one shown on the card, whatever the stored order. */
  lemma DeleteDisplayedQuestionRemovesShownQuestion(quiz: QuizSet, card: int)
    requires 0 <= card < |quiz.questions|
    ensures var placed := SortedPlacements(quiz.questions)[card];
            && 0 <= placed.position < |quiz.questions|
            && placed.question == SortedQuestions(quiz.questions)[card]
            && quiz.questions[placed.position] == placed.question
            && DeleteDisplayedQuestion(quiz, card).questions
               == quiz.questions[..placed.position] + quiz.questions[placed.position + 1..]
  {
    var qs := quiz.questions;
    var enumerated := seq(|qs|, i requires 0 <= i < |qs| => Placed(i, qs[i]));
    StableSort.SortByPermutesAndSorts(enumerated, PlacedIndex);
    var placedSeq := SortedPlacements(qs);
    var placed := placedSeq[card];
    assert placed in multiset(enumerated);
    var i :| 0 <= i < |enumerated| && enumerated[i] == placed;
    QuizEditor.DeleteQuestionRemovesOne(quiz, placed.position);
    assert placed.question == SortedQuestions(qs)[card] by {
      ProjectionCommutesWithSort(enumerated, qs);
    }
  }

  /** Sorting the placements and forgetting positions is sorting the
      questions. */
  lemma {:induction false} ProjectionCommutesWithSort(enumerated: seq<Placed>, qs: seq<Question>)
    requires |enumerated| == |qs|
    requires forall i | 0 <= i < |qs| :: enumerated[i].question == qs[i]
    ensures var s := StableSort.SortBy(enumerated, PlacedIndex);
            |s| == |qs| && forall k | 0 <= k < |s| :: s[k].question == SortedQuestions(qs)[k]
  {
    StableSort.SortByPermutesAndSorts(enumerated, PlacedIndex);
    StableSort.SortByPermutesAndSorts(qs, IndexKey);
    if qs != [] {
      ProjectionCommutesWithSort(enumerated[1..], qs[1..]);
      ProjectionCommutesWithInsert(enumerated[0], StableSort.SortBy(enumerated[1..], PlacedIndex), SortedQuestions(qs[1..]));
    }
  }

  lemma {:induction false} ProjectionCommutesWithInsert(x: Placed, l: seq<Placed>, m: seq<Question>)
    requires |l| == |m| && forall k | 0 <= k < |l| :: l[k].question == m[k]
    ensures var a, b := StableSort.Insert(x, l, PlacedIndex), StableSort.Insert(x.question, m, IndexKey);
            |a| == |b| && forall k | 0 <= k < |a| :: a[k].question == b[k]
  {
    if l != [] && PlacedIndex(x) > PlacedIndex(l[0]) {
      ProjectionCommutesWithInsert(x, l[1..], m[1..]);
    }
  }
}
