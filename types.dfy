/**
 * The records of the quiz: a question as the trivia service sends it, the same
 * question with its answer choices fixed, the snapshot kept in the browser's
 * storage, and the session state the quiz context shares with its views.
 */
module Types {
  import opened Wrappers

  /** Thirty minutes, the length of a quiz, in milliseconds (`1800 * 1000`). */
  const QuizDurationMs: int := 1800 * 1000

  /** A question as the trivia service returns it. */
  datatype RawQuestion = RawQuestion(question: string, correctAnswer: string, incorrectAnswers: seq<string>)

  /** A question together with the order in which its choices are shown. */
  datatype Question = Question(
    question: string,
    correctAnswer: string,
    incorrectAnswers: seq<string>,
    choices: seq<string>)

  /** The progress snapshot kept under the `quiz_progress` key. */
  datatype SavedQuizState = SavedQuizState(
    email: string,
    questions: seq<Question>,
    currentIndex: int,
    answers: map<int, string>,
    visited: seq<int>,
    attempted: seq<int>,
    markedForReview: seq<int>,
    timestamp: int,
    endTime: int)

  /** The data the quiz context shares with its views (its operations are the class QuizContext.QuizProvider). */
  datatype QuizState = QuizState(
    email: Option<string>,
    questions: seq<Question>,
    currentIndex: int,
    answers: map<int, string>,
    visited: seq<int>,
    attempted: seq<int>,
    markedForReview: seq<int>,
    submitted: bool,
    hasTimerExpired: bool)

  /** The state before any quiz has started. */
  const InitialState: QuizState :=
    QuizState(None, [], 0, map[], [], [], [], false, false)

  predicate NoDup(s: seq<int>) {
    forall i, j :: 0 <= i < j < |s| ==> s[i] != s[j]
  }

  /**
   * What the session operations keep true of the index lists: no list repeats an
   * index, exactly the answered indices are attempted, and once questions are
   * loaded the current index has been visited.
   */
  predicate TrackingInv(
    questions: seq<Question>, currentIndex: int, answers: map<int, string>,
    visited: seq<int>, attempted: seq<int>, markedForReview: seq<int>)
  {
    && NoDup(visited) && NoDup(attempted) && NoDup(markedForReview)
    && answers.Keys == (set i | i in attempted)
    && (|questions| > 0 ==> currentIndex in visited)
  }

  predicate SessionInv(s: QuizState) {
    TrackingInv(s.questions, s.currentIndex, s.answers, s.visited, s.attempted, s.markedForReview)
  }

  /** A snapshot as the save effect writes it: an email, questions, and consistent lists. */
  predicate SnapshotInv(v: SavedQuizState) {
    && v.email != ""
    && |v.questions| > 0
    && TrackingInv(v.questions, v.currentIndex, v.answers, v.visited, v.attempted, v.markedForReview)
  }
}
