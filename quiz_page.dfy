/**
 * The quiz screen: a progress line counting answered, visited-but-unanswered and
 * unvisited questions, arrow keys to move, Enter to open the submit dialog, and
 * a submit path that calls `submit` at most once.
 */
module QuizPage {
  import opened Types
  import opened QuizContext
  import opened Storage
  import opened Utils

  // ---------------------------------------------------------------- progress counts

  /** `answers[i]` is truthy: present and not the empty string. */
  predicate HasAnswer(answers: map<int, string>, i: int) {
    i in answers && answers[i] != ""
  }

  /** The keys whose answer is truthy. */
  function AnswerKeys(answers: map<int, string>): set<int> {
    set k | k in answers && answers[k] != ""
  }

  /** `Object.values(answers).filter(Boolean).length`. */
  function AnsweredCount(answers: map<int, string>): (n: nat)
    ensures n <= |answers|
  {
    SubsetSize(AnswerKeys(answers), answers.Keys);
    |AnswerKeys(answers)|
  }

  /** `visited.filter((i) => !answers[i]).length`. */
  function VisitedButNotAnswered(visited: seq<int>, answers: map<int, string>): (n: nat)
    ensures n <= |visited|
  {
    if visited == [] then 0
    else (if HasAnswer(answers, visited[0]) then 0 else 1) + VisitedButNotAnswered(visited[1..], answers)
  }

  /** `questions.length - visited.length`. */
  function UnvisitedCount(len: nat, visited: seq<int>): int {
    len - |visited|
  }

  /** The visited entries that have an answer. */
  function AnsweredVisited(visited: seq<int>, answers: map<int, string>): set<int> {
    set x | x in visited && HasAnswer(answers, x)
  }

  lemma {:induction false} VisitedSplit(visited: seq<int>, answers: map<int, string>)
    requires NoDup(visited)
    ensures VisitedButNotAnswered(visited, answers) + |AnsweredVisited(visited, answers)| == |visited|
  {
    if visited != [] {
      var rest := visited[1..];
      assert NoDup(rest);
      VisitedSplit(rest, answers);
      assert visited[0] !in rest;
      if HasAnswer(answers, visited[0]) {
        assert AnsweredVisited(visited, answers) == AnsweredVisited(rest, answers) + {visited[0]};
      } else {
        assert AnsweredVisited(visited, answers) == AnsweredVisited(rest, answers);
      }
    }
  }

  /** The indices `0 .. len - 1`. */
  function Range(len: nat): (r: set<int>)
    ensures forall i :: i in r <==> 0 <= i < len
    ensures |r| == len
  {
    if len == 0 then {} else Range(len - 1) + {len - 1}
  }

  lemma {:induction false} DistinctSize(s: seq<int>)
    requires NoDup(s)
    ensures |set x | x in s| == |s|
  {
    if s != [] {
      var rest := s[1..];
      assert NoDup(rest);
      DistinctSize(rest);
      assert (set x | x in s) == (set x | x in rest) + {s[0]};
    }
  }

  /**
   * With distinct visited indices inside the question range, and every answered
   * question visited, the three counts split the questions exactly and none is
   * negative.
   */
  lemma ProgressPartition(len: nat, visited: seq<int>, answers: map<int, string>)
    requires NoDup(visited)
    requires forall v :: v in visited ==> 0 <= v < len
    requires forall k :: k in answers && answers[k] != "" ==> k in visited
    ensures 0 <= UnvisitedCount(len, visited) <= len
    ensures AnsweredCount(answers) + VisitedButNotAnswered(visited, answers) + UnvisitedCount(len, visited) == len
  {
    VisitedSplit(visited, answers);
    forall x
      ensures x in AnsweredVisited(visited, answers) <==> x in AnswerKeys(answers)
    {
      if x in AnswerKeys(answers) {
        assert x in answers && answers[x] != "";
      }
    }
    assert AnsweredVisited(visited, answers) == AnswerKeys(answers);
    DistinctSize(visited);
    SubsetSize((set x | x in visited), Range(len));
  }

  // ---------------------------------------------------------------- keys

  /** What a key press asks for. */
  datatype KeyIntent = NoIntent | Navigate(target: int) | OpenSubmit

  /** The page's key handler: arrows move by one within the questions, Enter opens the dialog once. */
  function KeyIntentOf(key: string, currentIndex: int, len: int, expired: bool, modalOpen: bool): (a: KeyIntent)
    ensures expired ==> a == NoIntent
    ensures a.Navigate? <==> !expired && (key == "ArrowLeft" || key == "ArrowRight")
    ensures a.OpenSubmit? <==> !expired && key == "Enter" && !modalOpen
    ensures a.Navigate? && 0 <= currentIndex < len ==> 0 <= a.target < len
  {
    if expired then NoIntent
    else if key == "ArrowLeft" then Navigate(Max(0, currentIndex - 1))
    else if key == "ArrowRight" then Navigate(Min(len - 1, currentIndex + 1))
    else if key == "Enter" && !modalOpen then OpenSubmit
    else NoIntent
  }

  /** Left goes one back and Right one forward, each staying put at its end of the range. */
  lemma ArrowTargets(currentIndex: int, len: int, modalOpen: bool)
    requires 0 <= currentIndex < len
    ensures KeyIntentOf("ArrowLeft", currentIndex, len, false, modalOpen)
      == Navigate(if currentIndex == 0 then 0 else currentIndex - 1)
    ensures KeyIntentOf("ArrowRight", currentIndex, len, false, modalOpen)
      == Navigate(if currentIndex == len - 1 then currentIndex else currentIndex + 1)
  {
    assert "ArrowRight" != "ArrowLeft" by { assert "ArrowRight"[5] != "ArrowLeft"[5]; }
  }

  // ---------------------------------------------------------------- the page

  class Page {
    const quiz: QuizProvider
    var showSubmitModal: bool
    var isSubmitting: bool

    constructor (quiz: QuizProvider)
      ensures this.quiz == quiz && !showSubmitModal && !isSubmitting
    {
      this.quiz := quiz;
      showSubmitModal, isSubmitting := false, false;
    }

    method HandleKeyDown(key: string)
      requires quiz.Valid()
      modifies this, quiz
      ensures quiz.Valid()
      ensures isSubmitting == old(isSubmitting)
      ensures match KeyIntentOf(key, old(quiz.currentIndex), |old(quiz.questions)|,
                                old(quiz.hasTimerExpired), old(showSubmitModal))
        case NoIntent => showSubmitModal == old(showSubmitModal) && quiz.State() == old(quiz.State())
        case Navigate(t) => showSubmitModal == old(showSubmitModal) && quiz.State() == Moved(old(quiz.State()), t)
        case OpenSubmit => showSubmitModal && quiz.State() == old(quiz.State())
    {
      var intent := KeyIntentOf(key, quiz.currentIndex, |quiz.questions|, quiz.hasTimerExpired, showSubmitModal);
      match intent
      case NoIntent =>
      case Navigate(t) => quiz.GoTo(t);
      case OpenSubmit => showSubmitModal := true;
    }

    /** The Submit button: disabled while submitting or once time is up; otherwise it opens the dialog. */
    method HandleSubmitClick()
      modifies this
      ensures isSubmitting == old(isSubmitting)
      ensures showSubmitModal == (old(showSubmitModal) || (!isSubmitting && !quiz.hasTimerExpired))
    {
      if isSubmitting || quiz.hasTimerExpired {
        return;
      }
      showSubmitModal := true;
    }

    /** The dialog's confirm: the first one closes it and submits; any later one does nothing. */
    method HandleConfirmSubmit() returns (calledSubmit: bool)
      requires quiz.Valid()
      modifies this, quiz, quiz.store
      ensures quiz.Valid()
      ensures isSubmitting
      ensures calledSubmit == !old(isSubmitting)
      ensures calledSubmit ==>
        !showSubmitModal && quiz.State() == Submitted(old(quiz.State())) && quiz.store.Contents() == Cleared
      ensures !calledSubmit ==>
        showSubmitModal == old(showSubmitModal) && quiz.State() == old(quiz.State())
        && quiz.store.Contents() == old(quiz.store.Contents())
    {
      calledSubmit := false;
      if isSubmitting {
        return;
      }
      isSubmitting := true;
      showSubmitModal := false;
      quiz.Submit();
      calledSubmit := true;
    }

    method CloseModal()
      modifies this
      ensures !showSubmitModal && isSubmitting == old(isSubmitting)
    {
      showSubmitModal := false;
    }
  }
}
