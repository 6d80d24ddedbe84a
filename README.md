# Quiz session model

A Dafny model of the browser quiz application: a thirty-minute, fifteen-question
trivia quiz taken under an email address, with progress kept in the browser's
local storage so an interrupted quiz can be resumed.

The model follows the program's files, one module each:

- `QuizContext` (`quiz_context.dfy`): the session state the quiz context shares.
  The class `QuizProvider` holds the same fields as the source provider, and its
  methods (`StartQuiz`, `SetAnswer`, `GoTo`, `ToggleMarkForReview`, `Submit`,
  `ClearSavedQuiz`, the save effect `SaveProgress`) are each proved to take
  exactly one pure step (`Start`, `Answered`, `Moved`, `Toggled`, `Submitted`,
  `Saved`) on the packed state `State()`. The properties of the session are
  lemmas about those steps. The Fisher–Yates `Shuffle` keeps its array and its
  descending loop. The random draws are passed in.
- `Storage` (`storage.dfy`): local storage reduced to its two keys, a progress
  snapshot and the deadline text.
- `TimerComponent` (`timer.dfy`): the countdown as a class with the deadline, the
  seconds left and whether an interval is scheduled. The mount effect, the
  interval effect and each interval firing are methods. The seconds left, the
  mm:ss fields and the badge text are functions.
- `QuizPage`, `QuestionCard`, `OverviewPanel`, `ReportPage`, `HomePage`: the
  screens. Their counts, key rules, tile colours, score and percentage are
  functions. Their dialog flags are class fields changed by handler methods.
- `Utils` (`clamp`), `JsString` (the JavaScript `trim`, `parseInt`, decimal
  `toString` and `padStart(2, "0")` on strings of Unicode scalar values) and
  `Wrappers` (`Option`).

Inputs the program takes from outside are parameters: `Date.now()` is `now`, the
question request's outcome is a `FetchResult`, each `Math.random()` draw of the
shuffle is an index `j <= i` in `picks`, and a storage call that throws is a
`storageOk`/`writeOk` flag.

Setting `submitted` does not block `setAnswer`, `goTo` or
`toggleMarkForReview`: each tests only `hasTimerExpired`, and nothing ever sets
that flag to true. The model follows
the code: `QuizContext.SubmittedDoesNotFreeze` shows a submitted session still
takes answers, and `QuizContext.ExpiryNeverRaised` shows that no step raises the
flag.

## Model

| member | source | states |
|---|---|---|
| `QuizContext.ValidPicks` | app/context/QuizContext.tsx:13-14 | the draws of one pass: one per cell, the draw for index `i` between 0 and `i`, as `Math.floor(Math.random() * (i + 1))` gives; a predicate with no contract of its own |
| `QuizContext.Shuffle` | app/context/QuizContext.tsx:11-18 | the result is the Fisher–Yates pass defined by `Shuffled` over the drawn indices: same length, same multiset; the input sequence is a value and is untouched |
| `QuizContext.SwapCells` | app/context/QuizContext.tsx:15 | the destructuring swap exchanges the two array cells and nothing else |
| `QuizContext.Swap` | app/context/QuizContext.tsx:15 | the value form of the destructuring swap keeps the length; `SwapPermutes` states that it keeps the elements |
| `QuizContext.SwapPermutes` | app/context/QuizContext.tsx:15 | swapping two cells keeps every element, each as often as before |
| `QuizContext.ShuffleFrom` | app/context/QuizContext.tsx:13-16 | every remaining step of the pass keeps the length |
| `QuizContext.ShuffleFromPermutes` | app/context/QuizContext.tsx:13-16 | every remaining step of the pass keeps the multiset of elements, so the shuffle is a permutation |
| `QuizContext.Shuffled` | app/context/QuizContext.tsx:11-18 | the whole pass from the last index down to 1; no contract of its own, `Shuffle` is proved equal to it and `ShuffleFromPermutes` makes it a permutation |
| `QuizContext.ToQuestion` | app/context/QuizContext.tsx:126-129 | a fetched question keeps its text and answers and has one choice per answer |
| `QuizContext.ToQuestionChoices` | app/context/QuizContext.tsx:126-129 | the choices are a permutation of the correct answer followed by the incorrect ones, and a text is a choice exactly when it is one of those answers |
| `QuizContext.ToQuestions` | app/context/QuizContext.tsx:126 | one question per fetched result, in order |
| `QuizContext.BuildQuestion` | app/context/QuizContext.tsx:126-129 | one step of the `map`: the shuffled question is exactly `ToQuestion` of the fetched one |
| `QuizContext.BuildQuestions` | app/context/QuizContext.tsx:126-129 | the loop builds exactly `ToQuestions` of the results |
| `QuizContext.AddOnce` | app/context/QuizContext.tsx:154 | appending an index only when absent adds it, keeps all others, and keeps the list duplicate-free |
| `QuizContext.Without` | app/context/QuizContext.tsx:166 | filtering an index out removes it, keeps all others, and keeps the list duplicate-free |
| `QuizContext.ToggleTwice` | app/context/QuizContext.tsx:165-167 | toggling an index twice restores every membership, and restores the list itself when the index was absent |
| `QuizContext.ToggleOne` | app/context/QuizContext.tsx:165-167 | one toggle flips the index's membership, leaves every other index alone and keeps the list duplicate-free |
| `QuizContext.WithoutAppended` | app/context/QuizContext.tsx:166 | removing an index that was just appended to a list without it gives back the list |
| `QuizContext.Toggle` | app/context/QuizContext.tsx:165-167 | `includes ? filter : append` on the marked list; no contract of its own, `ToggleOne` and `ToggleTwice` state its properties |
| `QuizContext.Answered` | app/context/QuizContext.tsx:151-155 | the `setAnswer` step, a no-op once time is up; no contract of its own, `AnsweredSpec`, `AnsweredKeepsInv`, `ExpiredFreezes` and `SubmittedDoesNotFreeze` state its properties |
| `QuizContext.Moved` | app/context/QuizContext.tsx:157-161 | the `goTo` step, a no-op once time is up; no contract of its own, `MovedSpec` and `MovedKeepsInv` state its properties |
| `QuizContext.Toggled` | app/context/QuizContext.tsx:163-168 | the `toggleMarkForReview` step, a no-op once time is up; no contract of its own, `ToggledTwice` and `ToggledKeepsInv` state its properties |
| `QuizContext.Submitted` | app/context/QuizContext.tsx:174-175 | the `submit` step on the session: `submitted` becomes true; no contract of its own, `SubmitIdempotent` states its properties |
| `QuizContext.Resumed` | app/context/QuizContext.tsx:94-103 | the resume branch on the session; no contract of its own, `ResumeSpec` states it field by field |
| `QuizContext.Fresh` | app/context/QuizContext.tsx:136-143 | the fresh branch on the session; no contract of its own, `FreshStartSpec` states it field by field |
| `QuizContext.CanResume` | app/context/QuizContext.tsx:88-93 | resuming is asked for and the stored snapshot belongs to the email; a predicate with no contract of its own |
| `QuizContext.Start` | app/context/QuizContext.tsx:83-149 | the whole `startQuiz` step on session and storage; no contract of its own, `FreshStartSpec`, `FailedStartSpec`, `ResumeSpec`, `StaleResumeFallsThrough`, `StartKeepsInv` and `SaveThenResume` state its properties |
| `QuizContext.ShouldSave` | app/context/QuizContext.tsx:35 | the save effect's guard: questions loaded, an email, not submitted; a predicate with no contract of its own |
| `QuizContext.Snapshot` | app/context/QuizContext.tsx:36-47 | the object the save effect writes, with the deadline read back from the timer key; no contract of its own, `SaveThenResume` states that it restores the session |
| `QuizContext.Saved` | app/context/QuizContext.tsx:34-53 | the save effect on storage; no contract of its own, `SavedKeepsStorageInv`, `SubmitIdempotent` and `SaveThenResume` state its properties |
| `QuizContext.AnsweredSpec` | app/context/QuizContext.tsx:151-155 | `setAnswer(i, a)` records `a` under `i`, leaves every other key and value alone, lists `i` as attempted, keeps `attempted` duplicate-free and changes no other field |
| `QuizContext.AnsweredKeepsInv` | app/context/QuizContext.tsx:151-155 | `setAnswer` keeps the session invariant: the attempted indices are exactly the answered ones, with no duplicate |
| `QuizContext.MovedSpec` | app/context/QuizContext.tsx:157-161 | `goTo(i)`, with no bounds check, makes `i` current and visited once, and changes no other field |
| `QuizContext.MovedKeepsInv` | app/context/QuizContext.tsx:157-161 | `goTo` keeps the session invariant, including that the current index is visited |
| `QuizContext.ToggledTwice` | app/context/QuizContext.tsx:163-168 | toggling the mark twice restores every membership; other indices and other fields are never touched |
| `QuizContext.ToggledKeepsInv` | app/context/QuizContext.tsx:163-168 | toggling keeps the session invariant |
| `QuizContext.ExpiredFreezes` | app/context/QuizContext.tsx:151-164 | while `hasTimerExpired` holds, answering, moving and marking change nothing |
| `QuizContext.SubmittedDoesNotFreeze` | app/context/QuizContext.tsx:151-161 | the guards ignore `submitted`: a submitted session still records answers and moves |
| `QuizContext.ExpiryNeverRaised` | app/context/QuizContext.tsx:143 | no operation sets `hasTimerExpired` to true |
| `QuizContext.SubmitIdempotent` | app/context/QuizContext.tsx:174-183 | submitting twice gives the same state as submitting once, and after a submit the save effect writes nothing |
| `QuizContext.FreshStartSpec` | app/context/QuizContext.tsx:126-146 | a fresh start records the email, loads one question per result with permuted choices, sets index 0, no answers, only 0 visited, nothing attempted or marked, clears `submitted` and expiry, leaves the snapshot key alone and sets the deadline to `now + 1800000` |
| `QuizContext.FailedStartSpec` | app/context/QuizContext.tsx:113-134 | a failed or empty fetch records the email and changes nothing else, storage included |
| `QuizContext.ResumeSpec` | app/context/QuizContext.tsx:88-111 | resuming under the saved email restores every saved list, clears `submitted`, copies a non-zero saved deadline into the timer key and otherwise leaves it, and a valid snapshot gives a valid session |
| `QuizContext.StartKeepsInv` | app/context/QuizContext.tsx:83-149 | `startQuiz` keeps the session invariant, never writes the progress key, and never leaves a snapshot beside a submitted session |
| `QuizContext.StaleResumeFallsThrough` | app/context/QuizContext.tsx:88-111 | with no snapshot, or one saved under another email, asking to resume is the same as starting fresh |
| `QuizContext.SavedKeepsStorageInv` | app/context/QuizContext.tsx:34-53 | the save effect never touches the timer key, writes only valid snapshots, and writes nothing once submitted |
| `QuizContext.SaveThenResume` | app/context/QuizContext.tsx:34-111 | a snapshot written by the save effect, resumed under the same email, gives back every session field and the same deadline |
| `QuizContext.QuizProvider.constructor` | app/context/QuizContext.tsx:23-31 | over any storage holding at most a valid snapshot (a reload mid-quiz included), the provider starts with no email, no questions, index 0, empty lists and both flags false |
| `QuizContext.QuizProvider.StartQuiz` | app/context/QuizContext.tsx:83-149 | the method takes exactly the `Start` step on the session and the storage, and keeps the provider invariant |
| `QuizContext.QuizProvider.Restore` | app/context/QuizContext.tsx:94-103 | the resume branch copies every saved list into the session, clears `submitted`, and writes the timer key only for a non-zero saved deadline |
| `QuizContext.QuizProvider.BeginFresh` | app/context/QuizContext.tsx:136-146 | the fresh branch loads the questions, sets index 0, no answers, only 0 visited, nothing attempted or marked, both flags false, and writes `now + 1800000` to the timer key |
| `QuizContext.QuizProvider.SaveProgress` | app/context/QuizContext.tsx:34-53 | the effect changes storage exactly as `Saved` says: a snapshot with the current deadline when the guard holds and the write succeeds |
| `QuizContext.QuizProvider.SetAnswer` | app/context/QuizContext.tsx:151-155 | the method takes exactly the `Answered` step and keeps the invariant |
| `QuizContext.QuizProvider.GoTo` | app/context/QuizContext.tsx:157-161 | the method takes exactly the `Moved` step and keeps the invariant |
| `QuizContext.QuizProvider.ToggleMarkForReview` | app/context/QuizContext.tsx:163-168 | the method takes exactly the `Toggled` step and keeps the invariant |
| `QuizContext.QuizProvider.IsMarked` | app/context/QuizContext.tsx:170-172 | in every state, expired included, `isMarked` is `includes(index)`: the opposite of what `Toggle` of that index would leave; while time remains the `toggleMarkForReview` step does exactly that toggle |
| `QuizContext.QuizProvider.Submit` | app/context/QuizContext.tsx:174-183 | `submit` sets `submitted` and removes both storage keys |
| `QuizContext.QuizProvider.ClearSavedQuiz` | app/context/QuizContext.tsx:185-192 | both storage keys are removed and the session is untouched |
| `QuizContext.QuizProvider.GetSavedQuiz` | app/context/QuizContext.tsx:194-202 | the stored snapshot is a valid one, and there is none after a submit |
| `Storage.EndTimeOf` | app/context/QuizContext.tsx:46 | a missing timer key reads as 0, and the text of a deadline reads back as that deadline |
| `Storage.LocalStorage.constructor` | app/context/QuizContext.tsx:8-9 | storage starts with both keys empty |
| `JsString.TrimStart` | app/page.tsx:61 | leading whitespace is removed and what remains does not start with whitespace |
| `JsString.TrimStartIsSuffix` | app/page.tsx:61 | what is left after the leading whitespace is removed is a suffix of the input |
| `JsString.TrimEnd` | app/page.tsx:61 | trailing whitespace is removed and what remains does not end with whitespace |
| `JsString.Trim` | app/page.tsx:61 | the trimmed text starts and ends with no whitespace, and is empty exactly when the text was all whitespace |
| `JsString.TrimIdempotent` | app/page.tsx:62 | trimming twice is trimming once |
| `JsString.TrimPadded` | app/page.tsx:62 | whitespace around a text that neither starts nor ends with whitespace is exactly what `trim` removes |
| `JsString.DigitPrefixLength` | app/components/Timer.tsx:14 | `parseInt` reads the longest run of digits |
| `JsString.NatToString` | app/components/Timer.tsx:44-45 | the decimal text of a number is all digits with no leading zero except for 0 itself, one digit below 10 and two from 10 to 99 |
| `JsString.PadStart2` | app/components/Timer.tsx:44-45 | padding to width 2 puts zeros in front of the text |
| `JsString.ParseInt` | app/components/Timer.tsx:14 | `parseInt(text, 10)`; no contract of its own, `ParseIntOfIntToString` and `ParseIntOfPadded` state what it reads back |
| `JsString.IntToString` | app/context/QuizContext.tsx:101 | the decimal text of an integer is never empty, starts with `-` exactly for a negative number, and is otherwise all digits |
| `JsString.ParseIntOfIntToString` | app/context/QuizContext.tsx:101 | the `toString` of any integer parses back with `parseInt` to that integer |
| `JsString.ParseIntOfPadded` | app/components/Timer.tsx:44-45 | a zero-padded two-digit field parses back to its number |
| `TimerComponent.Remaining` | app/components/Timer.tsx:32 | the seconds left are never negative, are 0 exactly when less than a second remains, and otherwise are the whole seconds to the deadline |
| `TimerComponent.RemainingNonIncreasing` | app/components/Timer.tsx:32 | with the deadline fixed the seconds left never increase over time, and stay 0 once 0 |
| `TimerComponent.ClockFace` | app/components/Timer.tsx:44-45 | minutes times 60 plus seconds is the seconds left, and the seconds are below 60 |
| `TimerComponent.Minutes` | app/components/Timer.tsx:44 | the whole minutes of the seconds left; `ClockFace` states its relation to the seconds |
| `TimerComponent.Seconds` | app/components/Timer.tsx:45 | the seconds past the whole minutes; `ClockFace` states that they are below 60 |
| `TimerComponent.IsLow` | app/components/Timer.tsx:47 | a minute or less is left; `BadgeStates` states that an expired timer is low |
| `TimerComponent.IsExpired` | app/components/Timer.tsx:48 | no second is left; `BadgeStates` ties it to the badge text |
| `TimerComponent.Display` | app/components/Timer.tsx:44-65 | the badge text; no contract of its own, `BadgeStates` and `DisplayReadsBack` state what it shows |
| `TimerComponent.BadgeStates` | app/components/Timer.tsx:47-65 | the badge reads "Time's up!" exactly when expired, and expired is also low |
| `TimerComponent.DisplayReadsBack` | app/components/Timer.tsx:44-65 | below 100 minutes the two mm and ss fields in the badge parse back to the minutes and seconds, which make up the seconds left |
| `TimerComponent.InitialDeadline` | app/components/Timer.tsx:14-21 | the deadline chosen at mount is the stored one exactly when that is non-zero and after now, else thirty minutes from now; either way it lies ahead of now |
| `TimerComponent.Timer.constructor` | app/components/Timer.tsx:9-10 | the timer starts with deadline 0, 1800 seconds shown and nothing scheduled |
| `TimerComponent.Timer.Init` | app/components/Timer.tsx:12-26 | the mount effect reuses a stored deadline only when it is non-zero and after now, else sets and stores `now + 1800000`; on a storage error it sets the new deadline without storing it |
| `TimerComponent.Timer.Arm` | app/components/Timer.tsx:28-31 | an interval is scheduled exactly when the deadline is non-zero |
| `TimerComponent.Timer.Tick` | app/components/Timer.tsx:31-39 | a firing stores the seconds left; when they reach 0 it stops the interval and submits; nothing happens when no interval is scheduled |
| `TimerComponent.Timer.RunTicks` | app/components/Timer.tsx:28-42 | over any run of firings the interval calls `submit` at most once, and exactly once when some firing finds no second left |
| `QuizPage.AnsweredCount` | app/quiz/page.tsx:63 | the number of non-empty answers, at most the number of keys |
| `QuizPage.VisitedButNotAnswered` | app/quiz/page.tsx:64 | the number of visited entries without a non-empty answer, at most the number visited |
| `QuizPage.HasAnswer` | app/quiz/page.tsx:64 | the answer under an index is truthy, so present and non-empty; a predicate with no contract of its own |
| `QuizPage.UnvisitedCount` | app/quiz/page.tsx:65 | the number of questions minus the number visited; `ProgressPartition` states that it is between 0 and the number of questions |
| `QuizPage.ProgressPartition` | app/quiz/page.tsx:63-65 | with distinct visited indices in range and every answered question visited, answered plus visited-unanswered plus unvisited is the number of questions, and the unvisited count is between 0 and that number |
| `QuizPage.KeyIntentOf` | app/quiz/page.tsx:40-53 | keys do nothing once time is up; the arrows, and only they, navigate, staying in range; Enter opens the dialog exactly when it is closed |
| `QuizPage.ArrowTargets` | app/quiz/page.tsx:43-48 | Left goes one back and Right one forward, each staying put at its end |
| `QuizPage.Page.constructor` | app/quiz/page.tsx:36-37 | the dialog is closed and nothing is being submitted |
| `QuizPage.Page.HandleKeyDown` | app/quiz/page.tsx:40-53 | the handler does what `KeyIntentOf` says: nothing, a `goTo`, or opening the dialog |
| `QuizPage.Page.HandleSubmitClick` | app/quiz/page.tsx:71-74 | the Submit button opens the dialog unless a submit is under way or time is up |
| `QuizPage.Page.HandleConfirmSubmit` | app/quiz/page.tsx:76-81 | the first confirm closes the dialog and submits, and every later one does nothing, so this path submits at most once |
| `QuizPage.Page.CloseModal` | app/quiz/page.tsx:139 | closing the dialog leaves the submitting flag alone |
| `QuestionCard.DigitChoice` | app/components/QuestionCard.tsx:29-30 | a key names choice `k - 1` exactly when it parses to a `k` from 1 to 4 within the choices; a key that does not parse names none |
| `QuestionCard.OnKey` | app/components/QuestionCard.tsx:26-35 | the key handler changes nothing once time is up or when the key names no choice |
| `QuestionCard.DigitKeySelects` | app/components/QuestionCard.tsx:29-34 | pressing a digit from 1 to 4 within the choices records that choice, which is then highlighted |
| `QuestionCard.LetterKeyIgnored` | app/components/QuestionCard.tsx:29-30 | a key whose name starts with a letter changes nothing |
| `QuestionCard.Selected` | app/components/QuestionCard.tsx:76 | a choice is highlighted when it is the answer recorded for the card's index; `ChosenIsOnlyHighlight` states that only the recorded one is |
| `QuestionCard.ChosenIsOnlyHighlight` | app/components/QuestionCard.tsx:76 | once a choice is recorded, a choice is highlighted exactly when it equals it |
| `QuestionCard.OnChoiceClick` | app/components/QuestionCard.tsx:83 | a click records and highlights the choice, and does nothing once time is up |
| `QuestionCard.OnMarkClick` | app/components/QuestionCard.tsx:59 | the star button flips the question's mark, and does nothing once time is up |
| `QuestionCard.IsFirst` | app/components/QuestionCard.tsx:22 | the index is 0; `PrevTarget` uses it |
| `QuestionCard.IsLast` | app/components/QuestionCard.tsx:23 | the index is the last one; `NextTarget` uses it |
| `QuestionCard.PrevTarget` | app/components/QuestionCard.tsx:111-112 | Previous goes nowhere exactly on the first question or once time is up |
| `QuestionCard.NextTarget` | app/components/QuestionCard.tsx:122-123 | Next goes nowhere exactly on the last question or once time is up |
| `QuestionCard.PrevNextSteps` | app/components/QuestionCard.tsx:22-123 | inside the range Previous goes one back and Next one forward, both stay in range, and each undoes the other |
| `QuestionCard.ChoiceLabel` | app/components/QuestionCard.tsx:94 | a label is one character followed by a dot |
| `QuestionCard.LabelIsDigitKey` | app/components/QuestionCard.tsx:94 | the first nine labels are the digits 1 to 9, and for the first four the label's digit is the key that picks that choice |
| `OverviewPanel.Status` | app/components/OverviewPanel.tsx:33-41 | a tile's colour is the highest-ranking of current, marked, attempted, visited, not visited that applies |
| `OverviewPanel.StatusCases` | app/components/OverviewPanel.tsx:33-41 | current exactly for the current index; marked beats attempted and visited; attempted beats visited; not visited exactly when in no list |
| `OverviewPanel.ShowStar` | app/components/OverviewPanel.tsx:46 | a star shows on a marked tile that is not the current one; `TilesSpec` states that it shows exactly when the tile is coloured as marked |
| `OverviewPanel.Tiles` | app/components/OverviewPanel.tsx:21 | one tile per question |
| `OverviewPanel.TilesSpec` | app/components/OverviewPanel.tsx:21-55 | tile `i` is labelled `i + 1`, clicks through to `i`, has the status of `i`, and shows a star exactly when coloured as marked |
| `OverviewPanel.TileClickMoves` | app/components/OverviewPanel.tsx:30 | clicking a tile, while time remains, makes its question current and visited |
| `ReportPage.IsCorrect` | app/report/page.tsx:19 | the recorded answer is the correct one; `ScoreCountsCorrect` and `ScoreMatchesRows` count it |
| `ReportPage.ScoreOf` | app/report/page.tsx:18-21 | the running total after `n` questions is at most `n` |
| `ReportPage.Score` | app/report/page.tsx:18-21 | the score is at most the number of questions |
| `ReportPage.ScoreCountsCorrect` | app/report/page.tsx:18-21 | the score is the number of questions whose recorded answer is the correct one |
| `ReportPage.FullScore` | app/report/page.tsx:18-21 | full marks exactly when every question is answered correctly |
| `ReportPage.Percent` | app/report/page.tsx:23 | the percentage is within one half of 100 times score over total, halves rounded up |
| `ReportPage.PercentBounds` | app/report/page.tsx:23 | the percentage lies between 0 and 100 |
| `ReportPage.PercentFull` | app/report/page.tsx:23 | below 200 questions the percentage is 100 exactly at full marks |
| `ReportPage.PercentFullAt200` | app/report/page.tsx:23 | with 200 questions, 199 correct already show 100 |
| `ReportPage.Rows` | app/report/page.tsx:110-124 | one row per question |
| `ReportPage.ScoreMatchesRows` | app/report/page.tsx:110-124 | the score equals the number of rows marked correct, and a question with no answer is marked wrong and shown as not answered |
| `ReportPage.ReportOf` | app/report/page.tsx:14-23 | no results exactly when there are no questions; otherwise a score out of the question count, a percentage in range that is 100 exactly at full marks below 200 questions, and one row per question |
| `HomePage.FormDialog` | app/page.tsx:59-68 | a blank email opens nothing; the Continue dialog opens exactly when the trimmed email is the saved quiz's; otherwise the instructions open; never both |
| `HomePage.PaddedEmailContinues` | app/page.tsx:61-63 | the saved email typed with surrounding whitespace still opens the Continue dialog |
| `HomePage.Home.constructor` | app/page.tsx:12-15 | empty email, no saved quiz, no dialog |
| `HomePage.Home.Mount` | app/page.tsx:17-23 | a saved snapshot is remembered and its email fills the field |
| `HomePage.Home.SetEmail` | app/page.tsx:76 | typing replaces the email and nothing else |
| `HomePage.Home.SubmitForm` | app/page.tsx:59-68 | the form opens the dialog `FormDialog` names and no other |
| `HomePage.Home.CloseInstructions` | app/page.tsx:94 | the instructions close |
| `HomePage.Home.Begin` | app/page.tsx:95 | Begin starts the quiz for the trimmed email without resuming |
| `HomePage.Home.CloseContinue` | app/page.tsx:100 | the Continue dialog closes |
| `HomePage.Home.StartFresh` | app/page.tsx:102-106 | Start Fresh closes the Continue dialog, clears both storage keys and opens the instructions |
| `HomePage.Home.Continue` | app/page.tsx:107-110 | Continue closes the dialog and starts the quiz for the trimmed email with resume on |
| `Utils.Clamp` | app/lib/utils.ts:8-10 | with min at most max the result is within range; a value in range is returned; below gives min, above gives max; with min above max the result is min |
| `Utils.ClampIdempotent` | app/lib/utils.ts:9 | clamping twice is clamping once |

## Left out

- The question request (`fetch` with its 5-second abort, `res.json`, the `alert` calls): a `FetchResult` parameter stands for its outcome.
- `Math.random` in the shuffle: each draw is a parameter.
- HomePage.Home.SubmitForm and HomePage.FormDialog: the browser's own validation of the `type="email"`, `required` input (app/page.tsx:74,77) is not modelled, so the handler runs on any text, including an empty or malformed address that the browser would refuse to submit; the browser's stripping of surrounding whitespace from an email input's value is not modelled either, which `Trim` in the handler then covers.
- `Date.now()`: a `now` parameter. The timer's mount effect reads the clock twice; the model reads it once.
- Page navigation (`router.push`), the leave-page guard, and the online/offline listeners with `isOffline`: browser routing and events, not session logic.
- JSON encoding and the workings of `localStorage`: storage is two optional slots. A snapshot that does not parse reads as no snapshot. Snapshots are assumed to have been written by the save effect, never edited by hand.
- Storage that throws: modelled in the timer's mount effect and the save effect. Removing keys, reading the snapshot and the two timer-key writes in `startQuiz` are modelled as always succeeding. In the source, a failing write in the resume branch (app/context/QuizContext.tsx:101) sits inside the `try`, so the resume is abandoned after the lists were set and a fresh fetch follows. A failing write in the fresh branch (app/context/QuizContext.tsx:146) has no `try`, so the call rejects after the fresh state is set. `QuizContext.Start`, `QuizContext.QuizProvider.Restore` and `QuizContext.QuizProvider.BeginFresh` always write.
- `Storage.EndTimeOf`: deadline text that is not a number (`NaN`) reads as 0. Every reader only tests it for truthiness, and `NaN` and 0 are both falsy.
- `decodeHtml`: it depends on the DOM, so question and answer texts are shown as stored.
- Animations, confetti, the report's count-up `displayPercent`, and the percentage bar widths: cosmetic, and floating point.
- The three dialog components: they only render. Their one rule, the warning when fewer answers than questions, is a comparison of counts that are modelled.
- React's scheduling and batching of state updates: each handler is one atomic step. The timer's interval effect is re-created whenever `submit` changes identity, so "at most one submit" is proved for one scheduled interval.
- `ReportPage.Percent`: exact rational arithmetic. The floating-point rounding of `score / length * 100` next to a half is not modelled.
- `ReportPage.PercentFull`: 100 exactly at full marks is proved only below 200 questions, because with 200 or more a single wrong answer still rounds to 100 (`ReportPage.PercentFullAt200`). The quiz requests 15 questions.
- `QuestionCard.ChoiceLabel`: requires `49 + i` below the surrogate range, because Dafny characters are Unicode scalar values. Questions have at most four choices.
- `QuestionCard.DigitChoice`: `parseInt` is modelled in base 10. Without a radix it would read a `0x` prefix as hexadecimal, but no key name begins that way.
- `QuestionCard.OnKey`: requires the card's index to be a question, as the card reads `questions[index]` when it is rendered.
- `QuizPage.ProgressPartition`: requires that every answered question was visited. Answers come only from the card of the current question, which is always visited, but the context itself does not enforce this.
- `Utils.Clamp`: on integers only; `NaN` and infinities are not modelled.
