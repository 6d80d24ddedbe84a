/**
 * The entry page: an email form that either offers to continue the quiz kept in
 * storage for that email or shows the instructions, whose Begin starts a new quiz.
 */
module HomePage {
  import opened Wrappers
  import opened Types
  import opened Storage
  import opened QuizContext
  import opened JsString

  /** Which dialog the form opens. */
  datatype Dialog = NoDialog | ContinueDialog | InstructionsDialog

  /**
   * The form's submit rule: nothing for a blank email; the Continue dialog when
   * the trimmed email is the one the saved quiz belongs to; else the instructions.
   */
  function FormDialog(email: string, savedQuiz: Option<SavedQuizState>): (d: Dialog)
    ensures d == NoDialog <==> AllWhitespace(email)
    ensures d == ContinueDialog <==>
      !AllWhitespace(email) && savedQuiz.Some? && savedQuiz.value.email == Trim(email)
    ensures d == InstructionsDialog <==>
      !AllWhitespace(email) && !(savedQuiz.Some? && savedQuiz.value.email == Trim(email))
  {
    if Trim(email) == "" then NoDialog
    else if savedQuiz.Some? && savedQuiz.value.email == Trim(email) then ContinueDialog
    else InstructionsDialog
  }

  /** Surrounding whitespace typed around the saved email still leads to the Continue dialog. */
  lemma PaddedEmailContinues(pre: string, saved: SavedQuizState, post: string)
    requires AllWhitespace(pre) && AllWhitespace(post)
    requires saved.email != [] && !IsWhitespace(saved.email[0]) && !IsWhitespace(saved.email[|saved.email| - 1])
    ensures FormDialog(pre + saved.email + post, Some(saved)) == ContinueDialog
  {
    TrimPadded(pre, saved.email, post);
  }

  class Home {
    const quiz: QuizProvider
    var email: string
    var showConfirm: bool
    var savedQuiz: Option<SavedQuizState>
    var showContinueModal: bool

    constructor (quiz: QuizProvider)
      ensures this.quiz == quiz
      ensures email == "" && !showConfirm && savedQuiz == None && !showContinueModal
    {
      this.quiz := quiz;
      email, showConfirm, savedQuiz, showContinueModal := "", false, None, false;
    }

    /** The mount effect: a saved quiz is remembered and its email fills the field. */
    method Mount()
      requires quiz.Valid()
      modifies this
      ensures showConfirm == old(showConfirm) && showContinueModal == old(showContinueModal)
      ensures match quiz.GetSavedQuiz()
        case Some(saved) => savedQuiz == Some(saved) && email == saved.email
        case None => savedQuiz == old(savedQuiz) && email == old(email)
    {
      var saved := quiz.GetSavedQuiz();
      if saved.Some? {
        savedQuiz := saved;
        email := saved.value.email;
      }
    }

    method SetEmail(text: string)
      modifies this
      ensures email == text
      ensures showConfirm == old(showConfirm) && savedQuiz == old(savedQuiz)
      ensures showContinueModal == old(showContinueModal)
    {
      email := text;
    }

    /** The form's submit: opens at most one dialog, as `FormDialog` decides. */
    method SubmitForm()
      modifies this
      ensures email == old(email) && savedQuiz == old(savedQuiz)
      ensures match FormDialog(email, savedQuiz)
        case NoDialog => showConfirm == old(showConfirm) && showContinueModal == old(showContinueModal)
        case ContinueDialog => showContinueModal && showConfirm == old(showConfirm)
        case InstructionsDialog => showConfirm && showContinueModal == old(showContinueModal)
    {
      var trimmed := Trim(email);
      if trimmed != "" {
        if savedQuiz.Some? && savedQuiz.value.email == trimmed {
          showContinueModal := true;
        } else {
          showConfirm := true;
        }
      }
    }

    method CloseInstructions()
      modifies this
      ensures !showConfirm && showContinueModal == old(showContinueModal)
      ensures email == old(email) && savedQuiz == old(savedQuiz)
    {
      showConfirm := false;
    }

    /** Begin in the instructions dialog: a new quiz for the trimmed email, resume off. */
    method Begin(fetch: FetchResult, picks: seq<seq<nat>>, now: int)
      requires quiz.Valid() && FetchFits(fetch, picks)
      modifies quiz, quiz.store
      ensures quiz.Valid()
      ensures (quiz.State(), quiz.store.Contents())
        == Start(old(quiz.State()), old(quiz.store.Contents()), Trim(email), false, fetch, picks, now)
    {
      var trimmed := Trim(email);
      quiz.StartQuiz(trimmed, false, fetch, picks, now);
    }

    method CloseContinue()
      modifies this
      ensures !showContinueModal && showConfirm == old(showConfirm)
      ensures email == old(email) && savedQuiz == old(savedQuiz)
    {
      showContinueModal := false;
    }

    /**
     * Start Fresh in the Continue dialog: close it, clear both storage keys and
     * show the instructions. The remembered `savedQuiz` is kept as it was.
     */
    method StartFresh()
      requires quiz.Valid()
      modifies this, quiz.store
      ensures quiz.Valid()
      ensures !showContinueModal && showConfirm
      ensures quiz.store.Contents() == Cleared
      ensures email == old(email) && savedQuiz == old(savedQuiz)
    {
      showContinueModal := false;
      quiz.ClearSavedQuiz();
      showConfirm := true;
    }

    /** Continue in the Continue dialog: close it and start the quiz for the trimmed email with resume on. */
    method Continue(fetch: FetchResult, picks: seq<seq<nat>>, now: int)
      requires quiz.Valid() && FetchFits(fetch, picks)
      modifies this, quiz, quiz.store
      ensures quiz.Valid()
      ensures !showContinueModal && showConfirm == old(showConfirm)
      ensures email == old(email) && savedQuiz == old(savedQuiz)
      ensures (quiz.State(), quiz.store.Contents())
        == Start(old(quiz.State()), old(quiz.store.Contents()), Trim(email), true, fetch, picks, now)
    {
      var trimmed := Trim(email);
      showContinueModal := false;
      quiz.StartQuiz(trimmed, true, fetch, picks, now);
    }
  }
}
