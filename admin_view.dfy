/** The stand-alone quiz administration page (src/components/AdminView.tsx):
    the saved-quiz list, the quiz being edited, a draft question, and the
    save and import requests. Its questions carry no `index`. */
module AdminView {
  import opened Js
  import opened QuizTypes

  datatype Draft = Draft(question: string, options: seq<string>, correctAnswer: int)

  datatype AdminQuiz = AdminQuiz(quizId: string, title: string, questions: seq<Draft>)

  const BlankDraft := Draft("", BlankOptions, 0)

  function EmptyQuiz(freshId: string): (q: AdminQuiz)
    ensures q.quizId == freshId && q.title == "" && q.questions == []
  {
    AdminQuiz(freshId, "", [])
  }

  /** The guard of `saveQuiz`, which is also the Save button's `disabled`. */
  predicate SaveBlocked(quiz: AdminQuiz) {
    quiz.title == "" || |quiz.questions| == 0
  }

  /** The Export button's `disabled`. */
  predicate ExportDisabled(quiz: AdminQuiz) {
    |quiz.questions| == 0
  }

  /** Whenever Export is disabled so is Save; Save alone is disabled exactly
      for an untitled quiz that has questions. */
  lemma ExportGatingWithinSaveGating(quiz: AdminQuiz)
    ensures ExportDisabled(quiz) ==> SaveBlocked(quiz)
    ensures SaveBlocked(quiz) && !ExportDisabled(quiz) <==> quiz.title == "" && |quiz.questions| > 0
  {
  }

  /** The check of `importQuiz` and the body it posts: only a parsed object
      with a truthy `title` and an array `questions` is sent, with its own
      `quizId` when that is truthy and a fresh one otherwise. `parsed` is None
      when the file is not JSON. */
  function ImportRequest(parsed: Option<Json>, freshId: string): (r: Option<Json>)
    ensures r.Some? <==>
              parsed.Some? && parsed.value.Obj?
              && Truthy(Get(parsed.value, "title")) && Get(parsed.value, "questions").Arr?
    ensures r.Some? ==>
              && r.value.Obj?
              && r.value.fields.Keys == parsed.value.fields.Keys + {"quizId"}
              && (forall k | k in r.value.fields && k != "quizId" :: r.value.fields[k] == parsed.value.fields[k])
              && r.value.fields["quizId"]
                 == if Truthy(Get(parsed.value, "quizId")) then Get(parsed.value, "quizId") else Str(freshId)
  {
    if parsed.None? || Nullish(parsed.value) then None
    else
      var q := parsed.value;
      if !Truthy(Get(q, "title")) || !Get(q, "questions").Arr? then None
      else
        var id := Get(q, "quizId");
        Some(Obj(q.fields["quizId" := if Truthy(id) then id else Str(freshId)]))
  }

  /** Importing the body an import produced sends that body again: its id is
      now truthy (given a non-empty fresh id) and is kept. */
  lemma ImportIsStable(parsed: Option<Json>, freshId: string, laterId: string)
    requires freshId != ""
    requires ImportRequest(parsed, freshId).Some?
    ensures ImportRequest(ImportRequest(parsed, freshId), laterId) == ImportRequest(parsed, freshId)
  {
    var r := ImportRequest(parsed, freshId).value;
    assert Get(r, "title") == Get(parsed.value, "title");
    assert Get(r, "questions") == Get(parsed.value, "questions");
    assert r.fields["quizId" := r.fields["quizId"]] == r.fields;
  }

  class Page {
    var quizzes: seq<AdminQuiz>
    var quizSet: AdminQuiz
    var currentQuestion: Draft

    /** The first render: a fresh id, no title, no questions, a blank draft
        and an empty list until the fetch answers. */
    constructor (freshId: string)
      ensures quizzes == [] && quizSet == EmptyQuiz(freshId) && currentQuestion == BlankDraft
    {
      quizzes := [];
      quizSet := EmptyQuiz(freshId);
      currentQuestion := BlankDraft;
    }

    /** `fetchQuizzes` settling: the served list, or nothing on failure. */
    method LoadQuizzes(served: Option<seq<AdminQuiz>>)
      modifies this`quizzes
      ensures served.Some? ==> quizzes == served.value
      ensures served.None? ==> quizzes == old(quizzes)
    {
      if served.Some? {
        quizzes := served.value;
      }
    }

    /** Clicking a saved quiz makes it the edited one. */
    method SelectQuiz(k: nat)
      requires k < |quizzes|
      modifies this`quizSet
      ensures quizSet == quizzes[k]
    {
      quizSet := quizzes[k];
    }

    method EditTitle(title: string)
      modifies this`quizSet
      ensures quizSet == old(quizSet).(title := title)
    {
      quizSet := quizSet.(title := title);
    }

    method EditQuestion(text: string)
      modifies this`currentQuestion
      ensures currentQuestion == old(currentQuestion).(question := text)
    {
      currentQuestion := currentQuestion.(question := text);
    }

    /** Option input `i` overwrites slot `i` of a copy of the options. */
    method EditOption(i: nat, value: string)
      requires i < |currentQuestion.options|
      modifies this`currentQuestion
      ensures currentQuestion.question == old(currentQuestion).question
      ensures currentQuestion.correctAnswer == old(currentQuestion).correctAnswer
      ensures |currentQuestion.options| == |old(currentQuestion).options|
      ensures currentQuestion.options[i] == value
      ensures forall j | 0 <= j < |currentQuestion.options| && j != i ::
                currentQuestion.options[j] == old(currentQuestion).options[j]
    {
      currentQuestion := currentQuestion.(options := currentQuestion.options[i := value]);
    }

    method ChooseCorrect(i: nat)
      modifies this`currentQuestion
      ensures currentQuestion == old(currentQuestion).(correctAnswer := i)
    {
      currentQuestion := currentQuestion.(correctAnswer := i);
    }

    /** `addQuestion`: a filled draft is appended and replaced by a blank
        one; otherwise nothing changes and the toast is shown (`accepted` is
        false). */
    method AddQuestion() returns (accepted: bool)
      modifies this`quizSet, this`currentQuestion
      ensures accepted <==> Filled(old(currentQuestion).question, old(currentQuestion).options)
      ensures accepted ==>
                && quizSet == old(quizSet).(questions := old(quizSet).questions + [old(currentQuestion)])
                && currentQuestion == BlankDraft
      ensures !accepted ==> quizSet == old(quizSet) && currentQuestion == old(currentQuestion)
    {
      accepted := Filled(currentQuestion.question, currentQuestion.options);
      if accepted {
        quizSet := quizSet.(questions := quizSet.questions + [currentQuestion]);
        currentQuestion := BlankDraft;
      }
    }

    /** `saveQuiz` up to the request: nothing is sent exactly when the Save
        button is disabled; otherwise the edited quiz is the body. */
    method SaveQuiz() returns (request: Option<AdminQuiz>)
      ensures request.None? <==> SaveBlocked(quizSet)
      ensures request.Some? ==> request.value == quizSet
    {
      if SaveBlocked(quizSet) {
        return None;
      }
      request := Some(quizSet);
    }

    /** The rest of `saveQuiz`: an ok answer resets the form to a fresh empty
        quiz; a failure keeps it. */
    method ReceiveSaveResponse(ok: bool, freshId: string)
      modifies this`quizSet
      ensures ok ==> quizSet == EmptyQuiz(freshId)
      ensures !ok ==> quizSet == old(quizSet)
    {
      if ok {
        quizSet := EmptyQuiz(freshId);
      }
    }

  }
}
