# Code-Quiz: the quiz session and the leaderboard service in Dafny

Code-Quiz is a browser trivia quiz with a small Express backend. The page fetches the
questions for one difficulty tier, scores the player's answers locally and, once the last
question is done, posts the result to a shared leaderboard. The service answers with the
leaderboard sorted by score, highest first, with ties broken alphabetically by username.

This project models the two deterministic cores of the repository:

- **The quiz session** (`Script.js`) is the `Client.Session` class. Its fields stand for the
  module-level globals of the page script: the active screen, `username`, `currentDifficulty`,
  `currentQuestions`, `currentQuestionIndex`, `score`, and whether the option buttons are
  disabled. Each handler (`startQuiz`, `selectAnswer`, `nextQuestion`, `showResult`,
  `showLeaderboard`, `restartQuiz`/`showStartScreen`) is a method with `modifies` and a
  contract that gives the whole new state. `Valid()` is the session invariant the handlers
  keep: the score never exceeds the questions answered so far, and on the result screen
  the score is at most the number of questions.
- **The service** (`Server.js`) is the `Server` module. It covers:
  - the static question bank and its lookup by tier;
  - the validation expression of `POST /api/leaderboard`;
  - an append-only `Store` of entries, standing for the Firestore collection;
  - `GET /api/leaderboard`, which copies the entries into an array and sorts it in place.
- **The ranking rule** is the `Ranking` module. `Compare` is the sort comparator. `Rank` is
  the order a stable sort by it produces, and `SortScores` is proved equal to it. Lemmas
  prove three further facts. `Rank` returns a permutation of the stored entries. Its
  result is ordered: scores never increase, and neighbours with equal scores are in
  username order. Ranking a ranked list changes nothing.
- **`Scenario`** joins the two sides. It plays a whole quiz through the session methods,
  posts the resulting submission to a `Store`, and reads back the leaderboard.

Inputs from the outside world are parameters:

- the outcome of the question `fetch` (`Client.Fetch`);
- the text in the username box;
- success or failure of the store's read and write (`readOk`, `writeOk`).

The body posted at the end of a quiz is returned as a value (`Api.Submission`).

The model follows the code, including where its behaviour is easy to misread:

- A failed start is not free of side effects. The stored `username` is always overwritten
  with the trimmed input, even when that input is empty. Once the name is accepted,
  `currentDifficulty` is overwritten. If the fetch succeeds, `currentQuestions` is
  overwritten as well, even when the list turns out to be empty. Screen, index and score
  stay as they were.
- The service does not check `score <= total`. It also accepts a negative score or a
  negative total, because only `undefined` (for the score) or falsy values (for the other
  three fields) are refused. A total of 0 is refused, since 0 is falsy. A score of 0 is
  accepted.
- `restartQuiz` does not reset index or score; the next successful `startQuiz` does.

## Model

| member | source | states |
|---|---|---|
| `Client.IsSpace` | Script.js:57 | the characters `trim` removes: ECMAScript white space and line terminators |
| `Client.Trim` | Script.js:57 | the trimmed name is never longer than the input and neither starts nor ends with white space |
| `Client.TrimStart` | Script.js:57 | the result is a suffix of the input; every dropped character is white space; the result does not start with white space |
| `Client.TrimEnd` | Script.js:57 | the result is a prefix of the input; every dropped character is white space; the result does not end with white space |
| `Client.TrimIsEndOfStart` | Script.js:57 | trimming both ends equals dropping leading and then trailing white space (an independent definition of `trim`) |
| `Client.TrimEmptyIffBlank` | Script.js:57-58 | the name check fails exactly when every typed character is white space (both directions) |
| `Client.BlankTrimsToNothing` | Script.js:57-58 | an input made only of white space trims to the empty string |
| `Client.TrimIdempotent` | Script.js:57 | trimming an already trimmed name changes nothing |
| `Client.Session.Valid` | Script.js:7-11 | the session invariant over the page globals: the score never exceeds the questions answered, and each screen's counters fit |
| `Client.Session.constructor` | Script.js:7-11 | initial state: start screen, empty name, tier "easy", no questions, index and score 0 |
| `Client.Session.StartQuiz` | Script.js:56-92 | the box holds the typed input and the stored name becomes its trimmed form. An empty name sets the inline error and changes nothing else. A failed fetch keeps the old questions. An empty list is stored, but screen, index and score are unchanged. A non-empty list starts the quiz at index 0 with score 0 on the quiz screen, every option button unmarked. `Valid()` is kept. |
| `Client.Session.Begin` | Script.js:62-91 | after an accepted name: the tier is recorded; outcome `Started` exactly when the fetched list is non-empty; every failure leaves screen, index and score unchanged |
| `Client.Session.ShowQuestion` | Script.js:94-111 | one enabled, unmarked button per option of the current question |
| `Client.Session.SelectAnswer` | Script.js:114-137 | on a first click the score rises by 1 exactly when the chosen option string-equals the answer, and otherwise stays. Exactly the options equal to the answer are marked correct. Exactly the chosen wrong option is marked incorrect. All buttons become disabled. A click once answered changes nothing. `score <= index + 1 <= \|questions\|` holds afterwards. |
| `Client.Session.NextQuestion` | Script.js:140-147 | the index rises by exactly 1 and the score is unchanged. Below the number of questions, it stays on the quiz screen with fresh buttons and sends nothing. Otherwise it moves to the result screen, leaves the buttons disabled and marked as they were, and sends one submission `{username, score, total: \|questions\|, difficulty}`, with `score <= total`. The service accepts that submission exactly when the tier is non-empty. |
| `Client.Session.ShowResult` | Script.js:149-169 | switches to the result screen and returns exactly the posted body `{username, score, total: \|questions\|, difficulty}`; the service accepts it exactly when the tier is non-empty |
| `Client.Session.ShowLeaderboard` | Script.js:177-178 | the leaderboard screen becomes active and nothing else changes |
| `Client.Session.ShowStartScreen` | Script.js:225-228 | the start screen becomes active and the username box holds the last username |
| `Client.Session.RestartQuiz` | Script.js:221-223 | the same as showing the start screen; username, index and score are kept |
| `Server.GetQuestions` | Server.js:44-54 | a list is found exactly for "easy", "medium" and "hard"; each found list holds three well-formed questions; any other key gives not-found |
| `Server.Bank` | Server.js:23-39 | the static question bank, with the question texts, options and answers of the source |
| `Server.BankTiers` | Server.js:23-39 | the bank is keyed by exactly the three tiers |
| `Server.BankWellFormed` | Server.js:23-39 | every tier holds three questions, each with at least two distinct options of which the answer is one |
| `Server.Accepts` | Server.js:87 | the validation guard: username, total and difficulty truthy, score defined |
| `Server.ValidationEdgeCases` | Server.js:87-88 | a score of 0 is accepted; a total of 0 is refused; a score above the total is accepted; a missing score or an empty username is refused |
| `Server.EntryOf` | Server.js:92-98 | the stored entry holds the four submitted values unchanged |
| `Server.Store.PostScore` | Server.js:83-104 | a refused body yields the bad-request answer and leaves the store unchanged. An accepted body appends exactly one entry, `EntryOf(body)`. A failed write yields the server-error answer and leaves the store unchanged. |
| `Server.Store.GetLeaderboard` | Server.js:57-80 | a failed read yields the server-error answer. Otherwise the answer is `Rank` of the entries in the order the store reads them out, which is ranked and a permutation of the stored entries. When no two stored entries share score and username, it is `Rank` of the stored entries whatever the read order. |
| `Server.SortScores` | Server.js:68-73 | the array afterwards is `Rank` of its old contents |
| `Server.InsertLast` | Server.js:68-73 | after one insertion step the prefix is `Insert` of the old prefix and the old element; the rest of the array is untouched |
| `Server.InsertAt` | Server.js:68-73 | `Insert` places the new entry straight after the last entry that does not rank after it |
| `Ranking.LexCompare` | Server.js:72 | the comparison of usernames returns -1, 0 or 1 |
| `Ranking.LexCompareZeroIff` | Server.js:72 | two usernames compare as a tie exactly when they are equal |
| `Ranking.LexCompareFlip` | Server.js:72 | swapping the two usernames negates the comparison |
| `Ranking.LexCompareTrans` | Server.js:72 | username order is transitive |
| `Ranking.Compare` | Server.js:68-73 | the sort comparator: score descending, then username order |
| `Ranking.CompareFlip` | Server.js:68-73 | the comparator is antisymmetric in sign |
| `Ranking.CompareTrans` | Server.js:68-73 | "ranks at or before" is transitive, so the comparator is a total preorder |
| `Ranking.RankedIffScoreThenName` | Server.js:69-72 | a list is ranked exactly when, between neighbours, scores never rise and equal scores are in username order |
| `Ranking.NeighboursRanked` | Server.js:69-72 | scores never rising and ties in username order between neighbours make the whole list ranked |
| `Ranking.Insert` | Server.js:68-73 | insertion adds exactly one element |
| `Ranking.Rank` | Server.js:68-73 | ranking keeps the number of entries |
| `Ranking.InsertPermutes` | Server.js:68-73 | insertion adds exactly the new entry and keeps all others |
| `Ranking.InsertRanked` | Server.js:68-73 | insertion into a ranked list gives a ranked list |
| `Ranking.RankedAppend` | Server.js:68-73 | appending an entry that no earlier one ranks after keeps a list ranked |
| `Ranking.InsertBounded` | Server.js:68-73 | an upper bound on x and on every entry of a list is an upper bound on every entry after insertion |
| `Ranking.RankIsRanked` | Server.js:69-72 | the leaderboard is ordered by score descending, then username ascending |
| `Ranking.RankPermutes` | Server.js:62-73 | the leaderboard is a permutation of the stored entries: nothing added or dropped |
| `Ranking.RankIdempotent` | Server.js:68-73 | ranking an already ranked list returns it unchanged |
| `Ranking.RankTwice` | Server.js:68-73 | ranking the leaderboard again yields the same leaderboard |
| `Ranking.NoTies` | Server.js:68-73 | no two distinct entries share score and username, so the comparator ties none of them |
| `Ranking.RankedUnique` | Server.js:68-73 | two ranked lists with the same entries and no ties are equal |
| `Ranking.SameHead` | Server.js:68-73 | two ranked lists with the same entries and no ties start with the same entry |
| `Ranking.RankedTail` | Server.js:68-73 | a ranked list stays ranked without its first entry |
| `Ranking.RankOrderFree` | Server.js:60-73 | without ties, the leaderboard does not depend on the order in which the store reads the entries out |
| `Ranking.ReadOrderDecidesTies` | Server.js:60-73 | two entries that tie on score and username keep the read order, either way round |
| `Scenario.Transport` | Script.js:68-71 | what the page's question request sees: the list on a found tier of a reachable service, a failure otherwise (a 404 is thrown) |
| `Scenario.TransportOfLookup` | Script.js:68-71 | against a reachable service, the page receives a non-empty list for each tier and a failure for any other key |
| `Scenario.CorrectCount` | Script.js:128-129 | the number of correct picks never exceeds the number of questions |
| `Scenario.FullMarksIffAllCorrect` | Script.js:128-129 | full marks exactly when every pick is the correct option (both directions) |
| `Scenario.PlayThrough` | Script.js:114-147 | playing a started quiz to the end ends on the result screen. The final score is the number of correct picks. The submission carries the name, that score, the number of questions and the tier. |
| `Scenario.EveQuiz` | Script.js:56-169 | "eve" answering every "medium" question correctly scores 3 of 3 and submits `{eve, 3, 3, medium}` |
| `Scenario.EveScenario` | Server.js:57-104 | after eve's submission is posted, the leaderboard is exactly `[{eve, 3, 3, medium}]`; the page showed 3 of 3 |
| `Scenario.DaveScenario` | Server.js:83-104 | a body without a username is refused; "dave" with 3 of 5 on "easy" is stored and is then the whole leaderboard |
| `Scenario.RankingExample` | Server.js:68-73 | alice 5, bob 8 and carol 5 rank as bob, alice, carol |

## Left out

- DOM work is not modelled: element lookup, CSS classes beyond the four button looks, text
  rendering, and the rank numbers drawn on the leaderboard. It is presentation only.
- `fetch`, `alert`, `console` and the async sequencing are not modelled. A fetch outcome is a
  parameter, the alert is the `StartOutcome` value, and the posted body is a returned value.
  The outcome of the post and the leaderboard request on the page are not tracked, since the
  page only logs a failed post.
- The HTML that wires the handlers to buttons is not part of this model. `StartQuiz`
  requires the start screen, where the tier buttons sit. `SelectAnswer` requires the quiz
  screen and an existing option button. `NextQuestion` requires the quiz screen and an
  answered question, because the Next button is invisible until then.
- Express setup, CORS, HTTP status codes and `app.listen` are not modelled. Answers are the
  datatypes `QuestionsResponse`, `SubmitResponse` and `LeaderboardResponse`.
- Firebase setup and credentials are not modelled. The Firestore collection is a sequence
  that only grows by `PostScore`. A failed read or write is the `readOk` or `writeOk`
  parameter. The order in which a read hands the documents out is not modelled either (it
  follows the random document IDs): it is the `listing` parameter of `GetLeaderboard`, any
  arrangement of the stored entries. It only matters for entries that tie on score and
  username.
- The `createdAt` timestamp is not modelled, because it is clock input.
- Body fields are typed: a username or tier is a string, a score or total an integer, and
  each may be absent. JSON `null`, booleans, `NaN` and values of the wrong type are not
  modelled. A question list that is JSON `null` is not modelled either; the service never
  sends one.
- `Server.GetQuestions`: lookup by object key is modelled as a map over exactly the three
  tiers. So keys inherited from the object prototype (for example `constructor`) are not
  modelled as found.
- `Ranking.LexCompare`: `localeCompare` is modelled as plain lexicographic order on
  character codes. Locale-specific collation is not modelled.
- `Ranking.Compare`: `b.score - a.score` works on unbounded integers, not on JavaScript
  floating-point numbers.
- `Client.IsSpace`: the characters `trim` removes are the ECMAScript white space and line
  terminator code points, listed one by one as of Unicode's current space separators.
