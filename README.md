# Kahoot-style classroom quiz: verified model of the PIN, roster, catalogue and editor logic

The system is a live classroom quiz. A teacher builds and saves quizzes, shows a
four-digit join PIN, and students join under a name. This project models the
parts whose code exists in the repository, in Dafny:

- **Two PIN and roster servers.** The first (`server.js`) keeps `currentPin`
  and a `players` array in memory. The second stores a PIN key and a players
  set in Redis (`src/server/services/gameService.js`). Both mint a PIN only
  when none is stored. A reset mints a fresh one, which may repeat the old
  PIN.
- **The route handlers of the clustered server** (`src/server/server.js`).
  Each is a request-to-response step over the stores, behind truthiness
  guards on the request body.
- **The quiz catalogue**: one hash from quiz id to quiz
  (`src/server/services/quizService.js`).
- **The client-side checks and editors**:
  - the import validator `validateQuizStructure`;
  - the browser PIN singleton;
  - the join page's PIN sanitiser and join checks;
  - the question draft form, the quiz editor, and the sorted question list;
  - the stand-alone admin page.
- **Derived views**: the final leaderboard and the teacher's in-game
  controls.
- **The client socket wrapper's registry** from event name to handlers.
- **The Redis reconnect policy.**

Modelling conventions:

- JavaScript values that reach the code from JSON are the `Js.Json` datatype.
  A missing property is `Undefined`. Numbers are integers.
- Truthiness, `===` against a stored string or null, and the SameValueZero
  comparison of `includes` are written out in module `Js`.
- Randomness is a nondeterministic choice:
  - a PIN is `n :| 1000 <= n <= 9999` written in decimal (`Pins.ChoosePin`);
  - `crypto.randomUUID()` is a parameter `freshId`.
- Stores and component state are classes whose fields the methods reassign.
  Pure derivations are functions.
- Each state-changing method states its whole new state. The lasting
  properties are lemmas about the functions:
  - PIN round trips;
  - the ranking is a permutation, ordered and stable;
  - the validator's meaning;
  - delete-by-position, sanitiser idempotence, and handler removal.

Behaviours of the code that the model keeps as written:

- Before any PIN exists, the first server compares the body's `pin` with
  `null` by `!==`. A join whose `pin` is JSON `null` therefore passes the PIN
  check (`LegacyServer.JoinBeforeAnyPin`).
- In the clustered server, a join with a taken name is answered
  `{success: true}` and leaves the roster unchanged. It is not refused.
- PINs are exactly four digits from 1000 to 9999.
- The reset route answers the bare PIN string that `resetGame` returns. The
  comment beside it promises a `{success, pin}` object.

## Model

| member | source | states |
|---|---|---|
| Pins.PinText | server.js:15 | the decimal text of any n in [1000, 9999] is a PIN: four digits, no leading zero |
| Pins.PinTextRoundTrip | server.js:15 | reading the PIN text of n back as a number gives n |
| Pins.PinValueRoundTrip | server.js:15 | every PIN is the text of the number it denotes, so PINs are exactly the texts of [1000, 9999] |
| Pins.PinTextInjective | server.js:15 | two draws give the same PIN iff they are the same number |
| Pins.ChoosePin | src/server/services/gameService.js:24 | a `Math.random` draw yields a four-digit PIN |
| LegacyServer.Server.constructor | server.js:10-11 | no PIN and an empty roster at start |
| LegacyServer.Server.GetPin | server.js:13-20 | a PIN is minted only when none exists; an existing one is answered unchanged, so repeated gets agree |
| LegacyServer.Server.Join | server.js:22-40 | a pin that is not `===` the stored one gives 400 'Incorrect PIN', checked before the name; a name already included gives 400 'Name already taken'; both leave the roster unchanged; otherwise the name is appended at the end and 200 success; the roster stays duplicate-free |
| LegacyServer.Server.Players | server.js:42-44 | answers the roster in join order and changes nothing |
| LegacyServer.Server.Reset | server.js:46-51 | a fresh PIN in [1000, 9999], an empty roster, and `{success: true}` without the PIN |
| LegacyServer.JoinBeforeAnyPin | server.js:26-29 | with no PIN stored, exactly a JSON-null pin gets past the PIN check |
| LegacyServer.AppendKeepsDistinct | server.js:31-36 | appending a name the roster does not include keeps it free of duplicates |
| RedisGame.GameService.GeneratePin | src/server/services/gameService.js:19-31 | with no (or an empty) stored PIN, a new four-digit PIN is stored and returned; otherwise the stored one is returned with no write; the returned PIN validates |
| RedisGame.GameService.ValidatePin | src/server/services/gameService.js:38-42 | true iff the candidate is the stored PIN string; with no PIN it is true only for null, so false for every string |
| RedisGame.GameService.AddPlayer | src/server/services/gameService.js:48-57 | false and no change for a member; true and exactly that name added for a non-member; a non-string name is refused by the store |
| RedisGame.GameService.GetPlayers | src/server/services/gameService.js:64-71 | lists every member exactly once, in no specified order, and changes nothing |
| RedisGame.GameService.ResetGame | src/server/services/gameService.js:73-84 | a new four-digit PIN is stored and returned as a bare string, the players set is emptied, and a later GeneratePin answers this PIN |
| RedisGame.GameService.ResetThenGeneratePin | src/server/services/gameService.js:19-31 | a reset followed by generatePin answers exactly the PIN the reset stored, with an empty roster |
| RedisGame.GameService.Expire | src/server/services/gameService.js:25-27 | the PIN key's expiry removes the PIN and keeps the players set |
| Routes.CreateQuizRoute | src/server/server.js:84-96 | 400 and nothing stored unless quizId and title are truthy and questions is an array; otherwise stored under its quizId (overwriting) and echoed with 201; a non-string id ends in the 500 answer |
| Routes.GetQuizRoute | src/server/server.js:98-107 | the stored quiz with 200, or 404 when the id is absent |
| Routes.ListQuizzesRoute | src/server/server.js:109-113 | 200 with exactly the stored quizzes, one per id |
| Routes.StartGameRoute | src/server/server.js:116-127 | 400 for a falsy quizId, 404 for an id the catalogue lacks; startGame is reached iff the id names a stored quiz |
| Routes.SubmitAnswerRoute | src/server/server.js:160-168 | 400 iff playerName is falsy or answer is absent; answer 0 passes to submitAnswer |
| Routes.PinRoute | src/server/server.js:179-183 | answers the PIN generatePin returns and leaves the roster alone |
| Routes.JoinRoute | src/server/server.js:185-207 | missing pin or name gives 400 before the store is read; a PIN that fails validation gives 400 'Incorrect PIN', as does every join while no PIN is stored; a valid PIN gives success whether or not the name was new, with the name added to the set; the roster changes only on success |
| Routes.DisconnectRoute | src/server/server.js:209-214 | 400 iff playerName is falsy; otherwise removePlayer is reached |
| Routes.PlayersRoute | src/server/server.js:219-223 | 200 with every roster member once |
| Routes.ResetRoute | src/server/server.js:225-229 | answers the new PIN as a bare string; the roster is emptied |
| QuizCatalog.QuizService.GetQuiz | src/server/services/quizService.js:29-41 | the stored quiz for a present id, null for an absent one |
| QuizCatalog.QuizService.CreateQuiz | src/server/services/quizService.js:15-22 | stores the data under its quizId, overwriting, returns it, and GetQuiz of that id then answers it; other ids are unchanged |
| QuizCatalog.QuizService.GetAllQuizzes | src/server/services/quizService.js:48-54 | exactly the stored values, one per key, so the count is the number of keys |
| QuizCatalog.QuizService.UpdateQuiz | src/server/services/quizService.js:61-73 | an absent id gives null and no change; a present one is replaced and the new data returned; other ids unchanged |
| QuizCatalog.QuizService.DeleteQuiz | src/server/services/quizService.js:80-91 | true iff the id was present; afterwards it is absent and other ids are unchanged |
| QuizValidation.ValidateQuizStructure | src/services/quizService.ts:36-48 | rejects null and non-objects, a title that is not a non-empty string, and missing, non-array or empty questions; otherwise accepts iff every question passes; `index` is never read and correctAnswer is only range-checked |
| QuizValidation.EveryQuestionMeaning | src/services/quizService.ts:41-47 | the nested `every` accepts iff all questions are well formed, and throws iff it reaches a null question before any failing one |
| QuizValidation.RemoveQuestionKeepsAccepted | src/services/quizService.ts:39-47 | removing any one question from an accepted quiz with at least two questions keeps it accepted |
| ClientStore.GameStore.constructor | src/store/gameStore.ts:4-12 | mints a four-digit PIN only when the slot is empty, otherwise keeps the stored one; a PIN is present afterwards |
| ClientStore.StoreModule.GetInstance | src/store/gameStore.ts:14-19 | constructs only on the first call; every call returns the same instance |
| ClientStore.GameStore.GetPin | src/store/gameStore.ts:21-25 | the stored PIN, or the empty string when there is none, with no change |
| ClientStore.GameStore.ValidatePin | src/store/gameStore.ts:27-31 | true iff the input is the stored PIN |
| ClientStore.GameStore.ResetPin | src/store/gameStore.ts:33-37 | the slot holds a fresh four-digit PIN |
| RedisConfig.RetryStrategy | src/server/config/redis.js:16-30 | ECONNREFUSED gives an error whatever else holds; then more than an hour of retrying gives an error; then more than ten attempts stops; otherwise the delay is attempt*100, at most 1000, so the 3000 cap never binds |
| RedisConfig.DelayNonDecreasing | src/server/config/redis.js:29 | a later attempt never waits less |
| StableSort.SortByPermutesAndSorts | src/components/QuestionList.tsx:13 | the comparator sort yields a permutation of its input ordered by key |
| StableSort.SortByStable | src/components/GameResults.tsx:12 | elements with equal keys keep their input order |
| StableSort.SortBySortedIsIdentity | src/components/QuestionList.tsx:13 | an input already in key order is left as it is |
| GameResults.RankingIsOrderedPermutation | src/components/GameResults.tsx:11-17 | the ranking is a permutation of the score entries, scores never increase down it, ranks are 1..n in list order (ties get distinct ranks), and each name appears once |
| GameResults.TiesKeepEntryOrder | src/components/GameResults.tsx:12 | players with equal scores appear in the order of the score object's entries |
| GameResults.FirstPlaceIsMaximal | src/components/GameResults.tsx:12-14 | for a non-empty score map, rank 1 holds a maximal score |
| GameResults.Find | src/components/GameResults.tsx:21 | the first row with that name, as `find` returns it, or none when no row has it |
| GameResults.PlayerResult | src/components/GameResults.tsx:20-22 | nothing for a missing or empty player name |
| GameResults.PlayerResultIsOwnEntry | src/components/GameResults.tsx:20-22 | for a named player the row exists iff the name is a key of the scores, and it carries that player's own score |
| QuizEditor.AddQuestion | src/components/QuizEditor.tsx:16-21 | appends: one longer, earlier questions unchanged, quizId and title unchanged |
| QuizEditor.DeleteQuestion | src/components/QuizEditor.tsx:23-28 | quizId and title unchanged |
| QuizEditor.DeleteQuestionRemovesOne | src/components/QuizEditor.tsx:26 | an in-range position removes exactly that question and keeps the rest in order; an out-of-range one changes nothing |
| QuizEditor.EditTitle | src/components/QuizEditor.tsx:44 | changes only the title |
| QuizEditor.SaveGatingFollowsEdits | src/components/QuizEditor.tsx:62 | adding a question to a titled quiz enables Save; after a delete Save is disabled iff the title is empty or no question is left |
| QuestionForm.BlankDraft | src/components/QuestionForm.tsx:16-21 | an empty question, four empty options, correctAnswer 0, the given index; never fillable as is |
| QuestionForm.Form.constructor | src/components/QuestionForm.tsx:16-21 | the first draft is blank with index currentQuestionCount |
| QuestionForm.Form.SetCount | src/components/QuestionForm.tsx:14 | a new prop value leaves the draft alone |
| QuestionForm.Form.EditQuestion | src/components/QuestionForm.tsx:49 | changes only the question text |
| QuestionForm.Form.EditOption | src/components/QuestionForm.tsx:58-61 | changes only option i |
| QuestionForm.Form.ChooseCorrect | src/components/QuestionForm.tsx:67 | changes only correctAnswer |
| QuestionForm.Form.HandleAddQuestion | src/components/QuestionForm.tsx:23-39 | a draft with non-empty text and options is emitted and replaced by a blank one with index currentQuestionCount + 1, from the prop, so every add without a prop change resets to that same index; otherwise the toast and an unchanged draft |
| QuestionList.Render | src/components/QuestionList.tsx:13-38 | header count is the number of questions; card k shows the k-th question of the sorted copy, numbered index + 1, and hands position k to delete |
| QuestionList.CardsArePermutationSortedByIndex | src/components/QuestionList.tsx:13 | the cards show a permutation of the questions in ascending index order, equal indices in stored order; the prop itself is a value and is not reordered |
| QuestionList.DeleteFromCardAsWritten | src/components/QuestionList.tsx:38 | the card's sorted position is handed to the editor's delete; quizId and title unchanged |
| QuestionList.DeleteFromCardAgreesWhenSorted | src/components/QuestionList.tsx:38 | when the stored questions are already in index order, a card's delete removes that card's question |
| QuestionList.DeleteFromCardWrongWhenUnsorted | src/components/QuestionList.tsx:38 | with questions stored as index 1 then index 0, deleting from the first card removes the question with index 1 and leaves the card's own question |
| QuestionList.DeleteDisplayedQuestion | src/components/QuestionList.tsx:38 | corrected delete by the card's stored position; quizId and title unchanged |
| QuestionList.DeleteDisplayedQuestionRemovesShownQuestion | src/components/QuestionList.tsx:38 | the corrected delete removes exactly one stored question, the one the card shows, whatever the stored order |
| AdminView.EmptyQuiz | src/components/AdminView.tsx:27-31 | a fresh id, an empty title and no questions |
| AdminView.ExportGatingWithinSaveGating | src/components/AdminView.tsx:279-285 | Export is disabled exactly when there are no questions, and then Save is disabled too; only an untitled quiz with questions has Save alone disabled |
| AdminView.ImportRequest | src/components/AdminView.tsx:142-162 | only a parsed object with a truthy title and an array of questions is posted; every field is kept except quizId, which keeps a truthy value and is otherwise a fresh id |
| AdminView.ImportIsStable | src/components/AdminView.tsx:158-161 | importing the body an import posted posts the same body again: its id is kept |
| AdminView.Page.constructor | src/components/AdminView.tsx:26-36 | no saved quizzes, a fresh empty quiz and a blank draft |
| AdminView.Page.LoadQuizzes | src/components/AdminView.tsx:42-55 | a served list replaces the saved quizzes; a failure keeps them |
| AdminView.Page.SelectQuiz | src/components/AdminView.tsx:196 | the clicked saved quiz becomes the edited one |
| AdminView.Page.EditTitle | src/components/AdminView.tsx:220 | changes only the title |
| AdminView.Page.EditQuestion | src/components/AdminView.tsx:230 | changes only the draft's text |
| AdminView.Page.EditOption | src/components/AdminView.tsx:239-243 | changes only option i of the draft |
| AdminView.Page.ChooseCorrect | src/components/AdminView.tsx:248 | changes only the draft's correctAnswer |
| AdminView.Page.AddQuestion | src/components/AdminView.tsx:99-117 | accepted iff the text and every option are non-empty; then the draft is appended and reset to blanks; otherwise nothing changes |
| AdminView.Page.SaveQuiz | src/components/AdminView.tsx:57-74 | nothing is sent iff the title is empty or there are no questions, the same condition that disables Save; otherwise the edited quiz is the body |
| AdminView.Page.ReceiveSaveResponse | src/components/AdminView.tsx:76-96 | an ok answer resets the form to a fresh empty quiz; a failure keeps it |
| PlayView.TrimStart | src/components/PlayView.tsx:14 | drops exactly the leading white space |
| PlayView.TrimEnd | src/components/PlayView.tsx:14 | drops exactly the trailing white space |
| PlayView.Trim | src/components/PlayView.tsx:14-18 | a slice of the text with only white space before and after it; empty iff the text is all white space; otherwise starts and ends with a non-space |
| PlayView.DigitsOf | src/components/PlayView.tsx:82 | only digits, no longer than the input |
| PlayView.DigitsOfKeepsEveryDigit | src/components/PlayView.tsx:82 | every ASCII digit of the input is kept as often as it occurs, and nothing else |
| PlayView.DigitsOfConcat | src/components/PlayView.tsx:82 | the digits of a concatenation are the digits of each part in turn, so the digits keep their input order |
| PlayView.SanitizePin | src/components/PlayView.tsx:82 | only digits, at most four, a prefix of the input's digits as long as it can be |
| PlayView.SanitizePinIdempotent | src/components/PlayView.tsx:82 | sanitising twice is sanitising once |
| PlayView.SanitizePinFixedPoints | src/components/PlayView.tsx:82 | sanitising leaves a text unchanged iff it is at most four digits |
| PlayView.SanitizedPinIsTrimmed | src/components/PlayView.tsx:18 | a sanitised PIN is unchanged by trim |
| PlayView.JoinCheck | src/components/PlayView.tsx:14-21 | an empty trimmed name gives 'Please enter your name' before the PIN is looked at; then an all-blank PIN or one not of length 4 gives 'Please enter a valid 4-digit PIN'; otherwise no message |
| PlayView.ButtonMatchesCheck | src/components/PlayView.tsx:99 | for a typed PIN the Join button is enabled iff the checks pass; a four-space PIN from the address enables the button and still fails the check |
| PlayView.Page.constructor | src/components/PlayView.tsx:8-11 | no name, the PIN from the address or empty, not joined, no error |
| PlayView.Page.OnNameChange | src/components/PlayView.tsx:71 | the name is what was typed |
| PlayView.Page.OnPinChange | src/components/PlayView.tsx:81-84 | the PIN is the sanitised input |
| PlayView.Page.HandleJoin | src/components/PlayView.tsx:13-33 | a failed check shows its message and sends nothing; otherwise the trimmed name and trimmed PIN are sent; anything sent had the button enabled |
| PlayView.Page.ReceiveJoinResponse | src/components/PlayView.tsx:35-47 | only an ok reply sets joined and clears the error; a refusal shows the server's error or 'Failed to join the game'; a failed request shows 'Failed to connect to the game server' |
| ActiveGame.CurrentQuestion | src/components/ActiveGame.tsx:23 | a question iff 0 <= index < number of questions, and it is the one at that index |
| ActiveGame.Highlights | src/components/ActiveGame.tsx:43-44 | option i is highlighted iff the answer is showing and i is correctAnswer |
| ActiveGame.Render | src/components/ActiveGame.tsx:23-81 | the card appears iff the index is in range; Show Answer iff status is not answer; the next button iff it is, disabled and labelled 'End Quiz' iff it is the last question; End Game always |
| ActiveGame.ControlsAreConsistent | src/components/ActiveGame.tsx:54-70 | exactly one of Show Answer and next is on a card; an enabled next button always leads to an existing question; at most one option is highlighted |
| SocketRegistry.IndexOf | src/services/socketService.ts:94 | the first position holding the handler, -1 iff absent |
| SocketRegistry.RemoveFirst | src/services/socketService.ts:93-97 | removes only the first occurrence; an absent handler changes nothing |
| SocketRegistry.RemoveFirstUndoesAppend | src/services/socketService.ts:87-97 | off right after the first on of a handler restores the list; a handler registered twice survives one off |
| SocketRegistry.SocketService.constructor | src/services/socketService.ts:19-20 | no transport and an empty registry |
| SocketRegistry.SocketService.HandlersFor | src/services/socketService.ts:87 | the event's list, or empty when the event was never registered |
| SocketRegistry.SocketService.Dispatch | src/services/socketService.ts:81-84 | an event whose relay `on` attached to the current transport calls the registry's handlers in registration order; any other event, including a base event heard only by its logging listener, calls none; with no transport nothing is called |
| SocketRegistry.SocketService.OnThenDispatch | src/services/socketService.ts:76-90 | after `on`, the handler is reached after the earlier ones exactly when the current transport relays the event (it did already, or the event was new to the registry); otherwise nothing is reached |
| SocketRegistry.SocketService.ReconnectDropsRegisteredHandler | src/services/socketService.ts:22-31 | `connect`, `on('connect', h)`, then `connect` again while still connecting: the new transport never reaches h |
| SocketRegistry.SocketService.Connect | src/services/socketService.ts:22-31 | a no-op when connected; otherwise a new transport with logging listeners for only the base events and no relays replaces the old one, and the registry is kept |
| SocketRegistry.SocketService.On | src/services/socketService.ts:76-90 | with no transport nothing is registered; otherwise the handler goes at the end of that event's list, other events untouched, and a relay listener is attached only the first time the event is registered; the logging listeners are untouched |
| SocketRegistry.SocketService.Off | src/services/socketService.ts:92-99 | removes only the first occurrence; an absent handler or event is a no-op |
| SocketRegistry.SocketService.OnError | src/services/socketService.ts:134-138 | the same handler is appended under join_error, answer_error and game_error, and every other event is untouched; the transport keeps its connected flag and gains a relay for exactly the error events not registered before, and its logging listeners are unchanged |
| SocketRegistry.SocketService.Disconnect | src/services/socketService.ts:140-146 | a connected transport is closed; the registry is emptied and the transport cleared |

## Left out

- The live game session and scoring are not modelled: `startGame`,
  `nextQuestion`, `showAnswer`, `submitAnswer`, `finishGame`, `getGameState`,
  `getQuestionAnswers` and `removePlayer`. The routes call them, but
  src/server/services/gameService.js, whose class these routes call, does not
  define them. The route models end in `Delegate` naming the
  call.
- The routes that do nothing but call those methods are not modelled:
  game state, show-answer, next-question, finish-game and question-answers.
- src/server/socket/gameSocket.js is not part of this model. It relays
  socket.io room events to the same service calls.
- Express and process plumbing is left out: helmet, cors, rate limiting,
  logging, cluster forking and process handlers. The error middleware appears
  only as the constant `Routes.InternalError`.
- The health check is left out: it is a foreign ping.
- The HTTP client wrappers are left out: src/services/gameService.ts and the
  fetch methods of src/services/quizService.ts. They are bare `fetch` calls.
- React plumbing, polling and rendering are left out: useGameState,
  TeacherView, QuizList, GameSetup, PlayerList, App, and toasts beyond the
  outcome they report. src/lib/constants.ts is left out: it holds colours.
- The client socket calls are left out: the emit wrappers (`joinGame`,
  `startGame` and the like) and the typed `on*` wrappers. They are one-line
  calls of `emit` and `on`.
- `RedisGame.GameService.Expire`: the one-hour PIN expiry is modelled only as
  an explicit event. Clocks are not modelled.
- JavaScript numbers are integers. Fractional `correctAnswer` values, NaN and
  floating-point comparisons do not arise. The NaN index is also not
  modelled: QuizEditor renders QuestionForm without `currentQuestionCount`,
  so its draft index is `undefined + 1`. `QuestionForm.Form` takes the count
  as an integer.
- JSON text is not modelled. The catalogue keeps quiz values directly
  (stringify then parse is taken as the identity). `AdminView.ImportRequest`
  takes the parsed file, with None for text that does not parse.
- Command arguments that are not strings are modelled as a store error with a
  fixed message. This is an assumption about the Redis client (node-redis v4),
  not a property of this repository: if the client instead turns numbers into
  strings, a numeric quizId in `Routes.CreateQuizRoute`,
  `QuizCatalog.QuizService.CreateQuiz` and `QuizCatalog.QuizService.UpdateQuiz`
  would be stored rather than answered 500.
- Requests are modelled one at a time. The clustered server forks workers
  that share one Redis, and each handler awaits between store calls, so
  interleavings are not modelled:
  - `RedisGame.GameService.GeneratePin`: two first requests can both read no
    PIN and both store one; the earlier caller's PIN is then refused, so
    "repeated gets agree" holds only for requests that do not overlap.
  - `RedisGame.GameService.AddPlayer`: the membership test and the SADD can
    be interleaved with another join of the same name.
  - `Routes.JoinRoute` inherits both windows.
- Store commands fail only on non-string arguments. Connection and server
  failures of the store are not modelled. In the code they are passed on by
  every service method; the join route answers them 400 with the error's
  message, and the other routes answer them through the 500 error handler.
- `RedisGame.GameService.ResetGame` is treated as atomic. Its two writes run
  under `Promise.all`, so in the code one of them can take effect without the
  other.
- `SocketRegistry.SocketService.Dispatch` and `SocketRegistry.SocketService.Off`:
  a handler that calls `off` on itself during a dispatch is not modelled. The
  code's `forEach` runs over the same array that `off` splices, so the next
  handler would be skipped.
- `RedisConfig.RetryStrategy`: whether the installed Redis client (v4)
  consults it at all is a property of that library, and is not modelled.
- `Routes.GetQuizRoute`, `Routes.CreateQuizRoute` and `Routes.ListQuizzesRoute`
  do not model the URL-decoding of `:quizId`. The id arrives as a string.
- `AdminView.Page.LoadQuizzes` takes the served list as typed quizzes. It
  does not model a server answer of another shape.
- `PlayView.Trim` and `PlayView.JoinCheck` measure length in characters, not
  UTF-16 code units. They differ only for characters outside the Basic
  Multilingual Plane, which the PIN sanitiser never keeps.
- `SocketRegistry.SocketService.Dispatch` covers the current transport only.
  A transport dropped while still connecting may later deliver events through
  its own relays, which read the registry that later `on` calls fill again.
  Two members drop a transport this way: `SocketRegistry.SocketService.Connect`
  replaces it, and `SocketRegistry.SocketService.Disconnect` sets it to null
  without closing it. That aliasing is not modelled.
- `RedisGame.GameService.GetPlayers`: set order is not modelled. The result
  is any duplicate-free listing of the members.

## Findings

| source | as written | input that shows it | evidently intended | confidence | as-written member | corrected member |
|---|---|---|---|---|---|---|
| src/components/QuestionList.tsx:38 | the delete button passes the card's position in the sorted copy, and src/components/QuizEditor.tsx:26 removes that position of the stored, unsorted list | stored questions with index 1 then index 0: the first card shows index 0, and its delete removes the question with index 1 | a card's delete removes the question the card shows | high (not executed) | QuestionList.DeleteFromCardWrongWhenUnsorted | QuestionList.DeleteDisplayedQuestionRemovesShownQuestion |
