/** The route handlers of the clustered server (src/server/server.js, lines
    84-229): each turns a request body and the store into a response, after
    guards on the body. Handlers whose service method is not part of this
    model end in a `Delegate` naming the call they would make. */
module Routes {
  import opened Js
  import RedisGame
  import QuizCatalog

  datatype Reply =
    | ErrorReply(error: string)
    | InvalidQuizReply(error: string, details: string)
    | QuizReply(quiz: Json)
    | QuizzesReply(quizzes: seq<Json>)
    | PinReply(pin: string)
    | SuccessReply
    | PlayersReply(players: seq<string>)
    | BarePinReply(pin: string)

  /** A GameService method the handler would call next. */
  datatype ServiceCall =
    | StartGame(quizId: Json)
    | SubmitAnswer(playerName: Json, answer: Json)
    | RemovePlayer(playerName: Json)

  datatype Outcome = Respond(status: int, reply: Reply) | Delegate(call: ServiceCall)

  /** The answer of the error-handling middleware to anything a handler
      throws (outside development mode). */
  const InternalError := Respond(500, ErrorReply("Internal server error"))

  /** express.json in strict mode hands the handlers an object or an array. */
  predicate IsRequestBody(body: Json) {
    body.Obj? || body.Arr?
  }

  /** The guard of POST /api/quiz. */
  predicate QuizBodyAccepted(body: Json)
    requires IsRequestBody(body)
  {
    Truthy(Get(body, "quizId")) && Truthy(Get(body, "title")) && Get(body, "questions").Arr?
  }

  /** POST /api/quiz: a rejected body stores nothing; an accepted one is
      stored under its quizId and echoed with 201. */
  method CreateQuizRoute(catalog: QuizCatalog.QuizService, body: Json) returns (r: Outcome)
    requires IsRequestBody(body)
    modifies catalog
    ensures !QuizBodyAccepted(body) ==>
              r == Respond(400, InvalidQuizReply("Invalid quiz data", "Quiz must include quizId, title, and questions array"))
              && catalog.quizzes == old(catalog.quizzes)
    ensures QuizBodyAccepted(body) && Get(body, "quizId").Str? ==>
              r == Respond(201, QuizReply(body))
              && catalog.quizzes == old(catalog.quizzes)[Get(body, "quizId").s := body]
    ensures QuizBodyAccepted(body) && !Get(body, "quizId").Str? ==>
              r == InternalError && catalog.quizzes == old(catalog.quizzes)
  {
    if !QuizBodyAccepted(body) {
      return Respond(400, InvalidQuizReply("Invalid quiz data", "Quiz must include quizId, title, and questions array"));
    }
    var stored := catalog.CreateQuiz(body);
    match stored
    case Stored(quiz) => r := Respond(201, QuizReply(quiz));
    case StoreError(_) => r := InternalError;
  }

  /** GET /api/quiz/:quizId. */
  method GetQuizRoute(catalog: QuizCatalog.QuizService, quizId: string) returns (r: Outcome)
    ensures quizId in catalog.quizzes && Truthy(catalog.quizzes[quizId]) ==>
              r == Respond(200, QuizReply(catalog.quizzes[quizId]))
    ensures quizId !in catalog.quizzes ==> r == Respond(404, ErrorReply("Quiz not found"))
    ensures r.Respond? && (r.status == 200 <==> quizId in catalog.quizzes && Truthy(catalog.quizzes[quizId]))
  {
    var quiz := catalog.GetQuiz(quizId);
    if quiz.None? || !Truthy(quiz.value) {
      return Respond(404, ErrorReply("Quiz not found"));
    }
    r := Respond(200, QuizReply(quiz.value));
  }

  /** GET /api/quizzes. */
  method ListQuizzesRoute(catalog: QuizCatalog.QuizService) returns (r: Outcome, ghost ids: seq<string>)
    ensures r.Respond? && r.status == 200 && r.reply.QuizzesReply?
    ensures QuizCatalog.ListsValues(r.reply.quizzes, ids, catalog.quizzes)
  {
    var all;
    all, ids := catalog.GetAllQuizzes();
    r := Respond(200, QuizzesReply(all));
  }

  /** POST /api/teacher/start-game: GameService.startGame is reached only for
      a quiz the catalogue holds. */
  method StartGameRoute(catalog: QuizCatalog.QuizService, body: Json) returns (r: Outcome)
    requires IsRequestBody(body)
    ensures !Truthy(Get(body, "quizId")) ==> r == Respond(400, ErrorReply("Quiz ID is required"))
    ensures Truthy(Get(body, "quizId")) && Get(body, "quizId").Str? && Get(body, "quizId").s !in catalog.quizzes ==>
              r == Respond(404, ErrorReply("Quiz not found"))
    ensures r.Delegate? <==>
              && Get(body, "quizId").Str? && Get(body, "quizId").s != ""
              && Get(body, "quizId").s in catalog.quizzes
              && Truthy(catalog.quizzes[Get(body, "quizId").s])
    ensures r.Delegate? ==> r.call == StartGame(Get(body, "quizId"))
  {
    var quizId := Get(body, "quizId");
    if !Truthy(quizId) {
      return Respond(400, ErrorReply("Quiz ID is required"));
    }
    if !quizId.Str? {
      return InternalError;
    }
    var quiz := catalog.GetQuiz(quizId.s);
    if quiz.None? || !Truthy(quiz.value) {
      return Respond(404, ErrorReply("Quiz not found"));
    }
    r := Delegate(StartGame(quizId));
  }

  /** POST /api/play/submit-answer: the guard before GameService.submitAnswer.
      A falsy player name is refused; an answer is refused only when absent,
      so the answer 0 passes. */
  function SubmitAnswerRoute(body: Json): (r: Outcome)
    requires IsRequestBody(body)
    ensures r.Delegate? <==> Truthy(Get(body, "playerName")) && Get(body, "answer") != Undefined
    ensures r.Delegate? ==> r.call == SubmitAnswer(Get(body, "playerName"), Get(body, "answer"))
    ensures !r.Delegate? ==> r == Respond(400, ErrorReply("Player name and answer are required"))
  {
    var playerName, answer := Get(body, "playerName"), Get(body, "answer");
    if !Truthy(playerName) || answer.Undefined? then
      Respond(400, ErrorReply("Player name and answer are required"))
    else
      Delegate(SubmitAnswer(playerName, answer))
  }

  /** POST /api/play/disconnect: the guard before GameService.removePlayer. */
  function DisconnectRoute(body: Json): (r: Outcome)
    requires IsRequestBody(body)
    ensures r.Delegate? <==> Truthy(Get(body, "playerName"))
    ensures r.Delegate? ==> r.call == RemovePlayer(Get(body, "playerName"))
    ensures !r.Delegate? ==> r == Respond(400, ErrorReply("Player name is required"))
  {
    var playerName := Get(body, "playerName");
    if !Truthy(playerName) then Respond(400, ErrorReply("Player name is required"))
    else Delegate(RemovePlayer(playerName))
  }

  /** GET /api/teacher/pin. */
  method PinRoute(game: RedisGame.GameService) returns (r: Outcome)
    requires game.Valid()
    modifies game`pin
    ensures game.Valid() && game.players == old(game.players)
    ensures game.pin.Some? && r == Respond(200, PinReply(game.pin.value))
    ensures Present(old(game.pin)) ==> game.pin == old(game.pin)
  {
    var pin := game.GeneratePin();
    r := Respond(200, PinReply(pin));
  }

  /** POST /api/play/join. Missing fields are refused before the store is
      read; the PIN is checked next; then the name is added, and the answer is
      success whether or not the name was already taken. */
  method JoinRoute(game: RedisGame.GameService, body: Json) returns (r: Outcome)
    requires IsRequestBody(body)
    modifies game`players
    ensures game.pin == old(game.pin)
    ensures !Truthy(Get(body, "pin")) || !Truthy(Get(body, "name")) ==>
              r == Respond(400, ErrorReply("PIN and name are required")) && game.players == old(game.players)
    ensures Truthy(Get(body, "pin")) && Truthy(Get(body, "name")) && !game.Accepts(Get(body, "pin")) ==>
              r == Respond(400, ErrorReply("Incorrect PIN")) && game.players == old(game.players)
    ensures Truthy(Get(body, "pin")) && game.pin.None? ==> r.status == 400 && game.players == old(game.players)
    ensures Truthy(Get(body, "pin")) && Truthy(Get(body, "name")) && game.Accepts(Get(body, "pin")) && Get(body, "name").Str? ==>
              r == Respond(200, SuccessReply) && game.players == old(game.players) + {Get(body, "name").s}
    ensures Truthy(Get(body, "pin")) && Truthy(Get(body, "name")) && game.Accepts(Get(body, "pin")) && !Get(body, "name").Str? ==>
              r == Respond(400, ErrorReply(StoreArgumentError)) && game.players == old(game.players)
    ensures r.Respond? && (r.status == 200 <==> r.reply == SuccessReply)
  {
    var pin, name := Get(body, "pin"), Get(body, "name");
    if !Truthy(pin) || !Truthy(name) {
      return Respond(400, ErrorReply("PIN and name are required"));
    }
    var isValidPin := game.ValidatePin(pin);
    if !isValidPin {
      return Respond(400, ErrorReply("Incorrect PIN"));
    }
    var added := game.AddPlayer(name);
    match added
    case Added(_) => r := Respond(200, SuccessReply);
    case StoreError(message) => r := Respond(400, ErrorReply(message));
  }

  /** GET /api/teacher/players. */
  method PlayersRoute(game: RedisGame.GameService) returns (r: Outcome)
    ensures r.Respond? && r.status == 200 && r.reply.PlayersReply?
    ensures RedisGame.Enumerates(r.reply.players, game.players)
  {
    var names := game.GetPlayers();
    r := Respond(200, PlayersReply(names));
  }

  /** POST /api/teacher/reset: answers with what resetGame returns, which is
      the new PIN as a bare JSON string, not an object. */
  method ResetRoute(game: RedisGame.GameService) returns (r: Outcome)
    modifies game
    ensures game.Valid() && game.players == {}
    ensures game.pin.Some? && r == Respond(200, BarePinReply(game.pin.value))
  {
    var pin := game.ResetGame();
    r := Respond(200, BarePinReply(pin));
  }
}
