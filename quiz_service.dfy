/** The quiz catalogue (src/server/services/quizService.js): one Redis hash
    `quizzes` from quiz id to the quiz's JSON text. JSON.stringify followed by
    JSON.parse is taken to be the identity, so the hash holds the values. */
module QuizCatalog {
  import opened Js

  datatype Stored = Stored(quiz: Json) | StoreError(message: string)


  /** `values` lists the values of `m`, one per key: `ids` is the key each
      position came from. */
  ghost predicate ListsValues(values: seq<Json>, ids: seq<string>, m: map<string, Json>) {
    && |values| == |ids| == |m|
    && (forall i | 0 <= i < |ids| :: ids[i] in m && values[i] == m[ids[i]])
    && (forall k :: k in m ==> k in ids)
    && (forall i, j | 0 <= i < j < |ids| :: ids[i] != ids[j])
  }

  class QuizService {
    var quizzes: map<string, Json>

    constructor ()
      ensures quizzes == map[]
    {
      quizzes := map[];
    }

    /** `getQuiz(quizId)`: HGET; a missing field is null. The stored text is
        never empty, so a present entry is always returned. */
    function GetQuiz(quizId: string): (r: Option<Json>)
      reads this
      ensures r.Some? <==> quizId in quizzes
      ensures r.Some? ==> r.value == quizzes[quizId]
    {
      if quizId in quizzes then Some(quizzes[quizId]) else None
    }

    /** `createQuiz(quizData)`: HSET under `quizData.quizId`, overwriting any
        earlier entry, and returns the data. */
    method CreateQuiz(quizData: Json) returns (r: Stored)
      requires !Nullish(quizData)
      modifies this
      ensures Get(quizData, "quizId").Str? ==>
                r == Stored(quizData)
                && quizzes == old(quizzes)[Get(quizData, "quizId").s := quizData]
                && GetQuiz(Get(quizData, "quizId").s) == Some(quizData)
      ensures !Get(quizData, "quizId").Str? ==>
                r == StoreError(StoreArgumentError) && quizzes == old(quizzes)
      ensures forall k :: Get(quizData, "quizId") != Str(k) ==> GetQuiz(k) == old(GetQuiz(k))
    {
      var quizId := Get(quizData, "quizId");
      if !quizId.Str? {
        return StoreError(StoreArgumentError);
      }
      quizzes := quizzes[quizId.s := quizData];
      r := Stored(quizData);
    }

    /** `getAllQuizzes`: HGETALL then Object.values; the hash's field order is
        the store's, so only the multiset of values is determined. */
    method GetAllQuizzes() returns (all: seq<Json>, ghost ids: seq<string>)
      ensures ListsValues(all, ids, quizzes)
    {
      all, ids := [], [];
      var rest := quizzes.Keys;
      while rest != {}
        invariant rest <= quizzes.Keys
        invariant |all| == |ids|
        invariant forall i | 0 <= i < |ids| :: ids[i] in quizzes && all[i] == quizzes[ids[i]]
        invariant forall k :: k in quizzes ==> k in rest || k in ids
        invariant forall k :: k in rest ==> k !in ids
        invariant forall i, j | 0 <= i < j < |ids| :: ids[i] != ids[j]
        invariant |ids| + |rest| == |quizzes|
        decreases rest
      {
        var k :| k in rest;
        all, ids := all + [quizzes[k]], ids + [k];
        rest := rest - {k};
      }
    }

    /** `updateQuiz(quizId, quizData)`: HEXISTS, then HSET only when present. */
    method UpdateQuiz(quizId: string, quizData: Json) returns (r: Option<Json>)
      modifies this
      ensures quizId !in old(quizzes) ==> r == None && quizzes == old(quizzes)
      ensures quizId in old(quizzes) ==> r == Some(quizData) && quizzes == old(quizzes)[quizId := quizData]
      ensures forall k :: k != quizId ==> GetQuiz(k) == old(GetQuiz(k))
    {
      if quizId !in quizzes {
        return None;
      }
      quizzes := quizzes[quizId := quizData];
      r := Some(quizData);
    }

    /** `deleteQuiz(quizId)`: HDEL; true iff a field was removed. */
    method DeleteQuiz(quizId: string) returns (deleted: bool)
      modifies this
      ensures deleted <==> quizId in old(quizzes)
      ensures quizzes == old(quizzes) - {quizId}
      ensures GetQuiz(quizId) == None
      ensures forall k :: k != quizId ==> GetQuiz(k) == old(GetQuiz(k))
    {
      deleted := quizId in quizzes;
      quizzes := quizzes - {quizId};
    }
  }
}
