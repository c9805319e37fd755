/** The import check of the client (src/services/quizService.ts,
    `validateQuizStructure`), applied to a parsed JSON file. */
module QuizValidation {
  import opened Js

  /** `true`, `false`, or a TypeError thrown while reading a property of a
      null question. */
  datatype Verdict = Accepted | Rejected | Throws

  /** A non-empty string (`typeof x === 'string' && x`). */
  predicate NonEmptyString(v: Json) {
    v.Str? && v.s != ""
  }

  /** The checks made on one question that is neither null nor undefined. */
  predicate QuestionWellFormed(q: Json)
    requires !Nullish(q)
  {
    && NonEmptyString(Get(q, "question"))
    && Get(q, "options").Arr?
    && |Get(q, "options").items| == 4
    && (forall i | 0 <= i < 4 :: NonEmptyString(Get(q, "options").items[i]))
    && Get(q, "correctAnswer").Num?
    && 0 <= Get(q, "correctAnswer").n <= 3
  }

  /** A question the `every` callback answers true for. */
  predicate Fine(q: Json) {
    !Nullish(q) && QuestionWellFormed(q)
  }

  /** The first `k` questions all pass. */
  predicate FineBefore(questions: seq<Json>, k: int)
    requires k <= |questions|
  {
    forall i | 0 <= i < k :: Fine(questions[i])
  }

  /** The callback of `questions.every`, applied left to right: it stops at
      the first question that fails, and throws on a null one it reaches. */
  function EveryQuestion(questions: seq<Json>): Verdict
  {
    if questions == [] then Accepted
    else if Nullish(questions[0]) then Throws
    else if !QuestionWellFormed(questions[0]) then Rejected
    else EveryQuestion(questions[1..])
  }

  /** `every` accepts exactly when all questions pass, and throws exactly
      when it reaches a null question before any failing one. */
  lemma {:induction false} EveryQuestionMeaning(questions: seq<Json>)
    ensures EveryQuestion(questions) == Accepted <==> FineBefore(questions, |questions|)
    ensures EveryQuestion(questions) == Throws <==>
              exists k | 0 <= k < |questions| :: Nullish(questions[k]) && FineBefore(questions, k)
  {
    if questions != [] && !Nullish(questions[0]) && QuestionWellFormed(questions[0]) {
      var rest := questions[1..];
      EveryQuestionMeaning(rest);
      assert forall i | 1 <= i < |questions| :: questions[i] == rest[i - 1];
      assert FineBefore(questions, |questions|) <==> FineBefore(rest, |rest|);
      if EveryQuestion(rest) == Throws {
        var k :| 0 <= k < |rest| && Nullish(rest[k]) && FineBefore(rest, k);
        assert Nullish(questions[k + 1]) && FineBefore(questions, k + 1);
      }
      if k :| 0 <= k < |questions| && Nullish(questions[k]) && FineBefore(questions, k) {
        assert k > 0;
        assert Nullish(rest[k - 1]) && FineBefore(rest, k - 1);
      }
    } else if questions != [] && Nullish(questions[0]) {
      assert FineBefore(questions, 0);
    }
  }

  /** `validateQuizStructure(quiz)`: the quiz must be a non-null object (an
      array counts as one), with a non-empty string title and a non-empty
      questions array whose every question is well formed. The `index` field
      is never read. */
  function ValidateQuizStructure(quiz: Json): (r: Verdict)
    ensures Nullish(quiz) || !(quiz.Obj? || quiz.Arr?) ==> r == Rejected
    ensures (quiz.Obj? || quiz.Arr?) && !NonEmptyString(Get(quiz, "title")) ==> r == Rejected
    ensures (quiz.Obj? || quiz.Arr?) && !(Get(quiz, "questions").Arr? && |Get(quiz, "questions").items| > 0) ==> r == Rejected
    ensures r == Accepted <==>
              && quiz.Obj?
              && NonEmptyString(Get(quiz, "title"))
              && Get(quiz, "questions").Arr?
              && |Get(quiz, "questions").items| > 0
              && FineBefore(Get(quiz, "questions").items, |Get(quiz, "questions").items|)
  {
    if Nullish(quiz) || !(quiz.Obj? || quiz.Arr?) then Rejected
    else if !NonEmptyString(Get(quiz, "title")) then Rejected
    else if !Get(quiz, "questions").Arr? || |Get(quiz, "questions").items| == 0 then Rejected
    else
      var questions := Get(quiz, "questions").items;
      EveryQuestionMeaning(questions);
      EveryQuestion(questions)
  }

  /** Deleting one question of an accepted quiz with at least two questions
      leaves it accepted. */
  lemma RemoveQuestionKeepsAccepted(quiz: Json, k: nat)
    requires ValidateQuizStructure(quiz) == Accepted
    requires |Get(quiz, "questions").items| >= 2 && k < |Get(quiz, "questions").items|
    ensures var qs := Get(quiz, "questions").items;
            ValidateQuizStructure(Obj(quiz.fields["questions" := Arr(qs[..k] + qs[k + 1..])])) == Accepted
  {
    var qs := Get(quiz, "questions").items;
    var smaller := qs[..k] + qs[k + 1..];
    var q' := Obj(quiz.fields["questions" := Arr(smaller)]);
    assert Get(q', "title") == Get(quiz, "title");
    assert Get(q', "questions").items == smaller;
    forall i | 0 <= i < |smaller|
      ensures Fine(smaller[i])
    {
      if i < k { assert smaller[i] == qs[i]; } else { assert smaller[i] == qs[i + 1]; }
    }
  }
}
