/**
 * The quiz session: the state the quiz context holds, the steps that change it,
 * the choice shuffle done when questions arrive, and the snapshot written to
 * storage. Each step is a function on `Types.QuizState`; the class QuizProvider
 * holds the same fields and its methods are proved to take exactly those steps.
 */
module QuizContext {
  import opened Wrappers
  import opened Types
  import opened Storage
  import JsString

  // ---------------------------------------------------------------- shuffle

  /**
   * The random draws of one Fisher-Yates pass over `n` cells: the draw for index
   * `i` is the `j` that `Math.floor(Math.random() * (i + 1))` produced, so `j <= i`.
   */
  predicate ValidPicks(picks: seq<nat>, n: nat) {
    |picks| == n && forall i :: 0 < i < n ==> picks[i] <= i
  }

  function Swap<T>(s: seq<T>, i: nat, j: nat): (r: seq<T>)
    requires i < |s| && j < |s|
    ensures |r| == |s|
  {
    s[i := s[j]][j := s[i]]
  }

  /** Swapping two cells keeps every element, each as often as before. */
  lemma SwapPermutes<T>(s: seq<T>, i: nat, j: nat)
    requires i < |s| && j < |s|
    ensures multiset(Swap(s, i, j)) == multiset(s)
  {
  }

  /** What is left of the pass when the loop variable is `i`: swap cell `i` with its draw, then go on with `i - 1`. */
  function ShuffleFrom<T>(s: seq<T>, picks: seq<nat>, i: int): (r: seq<T>)
    requires ValidPicks(picks, |s|) && i < |s|
    ensures |r| == |s|
    decreases i
  {
    if i <= 0 then s else ShuffleFrom(Swap(s, i, picks[i]), picks, i - 1)
  }

  /** The rest of the pass is a permutation of the cells it starts from. */
  lemma {:induction false} ShuffleFromPermutes<T>(s: seq<T>, picks: seq<nat>, i: int)
    requires ValidPicks(picks, |s|) && i < |s|
    ensures multiset(ShuffleFrom(s, picks, i)) == multiset(s)
    decreases i
  {
    if i > 0 {
      SwapPermutes(s, i, picks[i]);
      ShuffleFromPermutes(Swap(s, i, picks[i]), picks, i - 1);
    }
  }

  /** The whole pass, from the last index down to 1. */
  function Shuffled<T>(s: seq<T>, picks: seq<nat>): seq<T>
    requires ValidPicks(picks, |s|)
  {
    ShuffleFrom(s, picks, |s| - 1)
  }

  /**
   * `shuffle(arr)`: copies the input into a fresh array and shuffles the copy in
   * place, so the input is untouched; the result is a permutation of the input.
   */
  method Shuffle<T>(arr: seq<T>, picks: seq<nat>) returns (r: seq<T>)
    requires ValidPicks(picks, |arr|)
    ensures r == Shuffled(arr, picks)
    ensures |r| == |arr| && multiset(r) == multiset(arr)
  {
    var a := new T[|arr|](k requires 0 <= k < |arr| => arr[k]);
    assert a[..] == arr;
    var i := a.Length - 1;
    while i > 0
      invariant -1 <= i < a.Length
      invariant ShuffleFrom(a[..], picks, i) == Shuffled(arr, picks)
    {
      var j := picks[i];
      assert ShuffleFrom(a[..], picks, i) == ShuffleFrom(Swap(a[..], i, j), picks, i - 1);
      SwapCells(a, i, j);
      i := i - 1;
    }
    r := a[..];
    ShuffleFromPermutes(arr, picks, |arr| - 1);
  }

  /** `[a[i], a[j]] = [a[j], a[i]]`. */
  method SwapCells<T>(a: array<T>, i: nat, j: nat)
    requires i < a.Length && j < a.Length
    modifies a
    ensures a[..] == Swap(old(a[..]), i, j)
  {
    a[i], a[j] := a[j], a[i];
  }

  // ---------------------------------------------------------------- questions

  /** Draws for every fetched question, each fitting its `1 + |incorrect|` choices. */
  predicate PicksFit(raws: seq<RawQuestion>, picks: seq<seq<nat>>) {
    && |picks| == |raws|
    && forall k :: 0 <= k < |raws| ==> ValidPicks(picks[k], 1 + |raws[k].incorrectAnswers|)
  }

  /** One fetched question with `choices = shuffle([correct, ...incorrect])`. */
  function ToQuestion(raw: RawQuestion, picks: seq<nat>): (q: Question)
    requires ValidPicks(picks, 1 + |raw.incorrectAnswers|)
    ensures q.question == raw.question && q.correctAnswer == raw.correctAnswer
    ensures q.incorrectAnswers == raw.incorrectAnswers
    ensures |q.choices| == 1 + |raw.incorrectAnswers|
  {
    Question(raw.question, raw.correctAnswer, raw.incorrectAnswers,
      Shuffled([raw.correctAnswer] + raw.incorrectAnswers, picks))
  }

  /** The choices are the correct answer and the incorrect ones, each as often as given, in some order. */
  lemma ToQuestionChoices(raw: RawQuestion, picks: seq<nat>)
    requires ValidPicks(picks, 1 + |raw.incorrectAnswers|)
    ensures multiset(ToQuestion(raw, picks).choices) == multiset([raw.correctAnswer] + raw.incorrectAnswers)
    ensures forall c :: c in ToQuestion(raw, picks).choices <==> c == raw.correctAnswer || c in raw.incorrectAnswers
  {
    var all := [raw.correctAnswer] + raw.incorrectAnswers;
    ShuffleFromPermutes(all, picks, |all| - 1);
    assert forall c :: c in ToQuestion(raw, picks).choices <==> c in multiset(all);
  }

  function ToQuestions(raws: seq<RawQuestion>, picks: seq<seq<nat>>): (qs: seq<Question>)
    requires PicksFit(raws, picks)
    ensures |qs| == |raws|
    ensures forall k :: 0 <= k < |raws| ==> qs[k] == ToQuestion(raws[k], picks[k])
  {
    seq(|raws|, k requires 0 <= k < |raws| => ToQuestion(raws[k], picks[k]))
  }

  /** One step of the `map`: the question with its choices shuffled by `shuffle`. */
  method BuildQuestion(raw: RawQuestion, picks: seq<nat>) returns (q: Question)
    requires ValidPicks(picks, 1 + |raw.incorrectAnswers|)
    ensures q == ToQuestion(raw, picks)
  {
    var choices := Shuffle([raw.correctAnswer] + raw.incorrectAnswers, picks);
    q := Question(raw.question, raw.correctAnswer, raw.incorrectAnswers, choices);
  }

  /** The `map` over the fetched results, shuffling each question's choices. */
  method BuildQuestions(raws: seq<RawQuestion>, picks: seq<seq<nat>>) returns (qs: seq<Question>)
    requires PicksFit(raws, picks)
    ensures qs == ToQuestions(raws, picks)
  {
    qs := [];
    for k := 0 to |raws|
      invariant |qs| == k
      invariant forall m :: 0 <= m < k ==> qs[m] == ToQuestion(raws[m], picks[m])
    {
      var q := BuildQuestion(raws[k], picks[k]);
      qs := qs + [q];
    }
  }

  // ---------------------------------------------------------------- index lists

  /** `a.includes(x) ? a : [...a, x]`. */
  function AddOnce(s: seq<int>, x: int): (r: seq<int>)
    ensures forall y :: y in r <==> y in s || y == x
    ensures NoDup(s) ==> NoDup(r)
    ensures x in s ==> r == s
    ensures x !in s ==> |r| == |s| + 1 && r[|s|] == x && r[..|s|] == s
  {
    if x in s then s else s + [x]
  }

  /** `m.filter((i) => i !== x)`: keeps the other entries in order. */
  function Without(s: seq<int>, x: int): (r: seq<int>)
    ensures forall y :: y in r <==> y in s && y != x
    ensures NoDup(s) ==> NoDup(r)
    ensures x !in s ==> r == s
  {
    if s == [] then []
    else
      var rest := Without(s[1..], x);
      assert NoDup(s) ==> NoDup(s[1..]) && s[0] !in s[1..];
      if s[0] == x then rest else [s[0]] + rest
  }

  /** Flips the membership of `x`: removed when present, appended when absent. */
  function Toggle(s: seq<int>, x: int): seq<int> {
    if x in s then Without(s, x) else s + [x]
  }

  lemma {:induction false} WithoutAppended(s: seq<int>, x: int)
    requires x !in s
    ensures Without(s + [x], x) == s
  {
    if s == [] {
      assert [x][1..] == [];
    } else {
      assert (s + [x])[1..] == s[1..] + [x];
      WithoutAppended(s[1..], x);
    }
  }

  /**
   * Toggling an index twice gives every index back its membership; when the index
   * was not marked, the list itself comes back unchanged.
   */
  lemma ToggleTwice(s: seq<int>, x: int)
    ensures forall y :: y in Toggle(Toggle(s, x), x) <==> y in s
    ensures x !in s ==> Toggle(Toggle(s, x), x) == s
  {
    if x !in s {
      WithoutAppended(s, x);
    }
  }

  /** Toggling one index leaves every other index's membership alone, and keeps the list duplicate-free. */
  lemma ToggleOne(s: seq<int>, x: int)
    ensures x in Toggle(s, x) <==> x !in s
    ensures forall y :: y != x ==> (y in Toggle(s, x) <==> y in s)
    ensures NoDup(s) ==> NoDup(Toggle(s, x))
  {
  }

  // ---------------------------------------------------------------- session steps

  /** `setAnswer(i, a)`: guarded by the expiry flag only. */
  function Answered(s: QuizState, i: int, a: string): QuizState {
    if s.hasTimerExpired then s
    else s.(answers := s.answers[i := a], attempted := AddOnce(s.attempted, i))
  }

  /** `goTo(i)`: no bounds check, guarded by the expiry flag only. */
  function Moved(s: QuizState, i: int): QuizState {
    if s.hasTimerExpired then s
    else s.(currentIndex := i, visited := AddOnce(s.visited, i))
  }

  /** `toggleMarkForReview(i)`: guarded by the expiry flag only. */
  function Toggled(s: QuizState, i: int): QuizState {
    if s.hasTimerExpired then s
    else s.(markedForReview := Toggle(s.markedForReview, i))
  }

  /** `submit()` on the session fields; both storage keys are removed as well. */
  function Submitted(s: QuizState): QuizState {
    s.(submitted := true)
  }

  /** The resume branch of `startQuiz`: the snapshot's lists come back, `submitted` is reset. */
  function Resumed(s: QuizState, saved: SavedQuizState): QuizState {
    s.(questions := saved.questions, currentIndex := saved.currentIndex, answers := saved.answers,
       visited := saved.visited, attempted := saved.attempted,
       markedForReview := saved.markedForReview, submitted := false)
  }

  /** The fresh branch of `startQuiz` once questions arrived. */
  function Fresh(s: QuizState, qs: seq<Question>): QuizState {
    s.(questions := qs, currentIndex := 0, answers := map[], visited := [0], attempted := [],
       markedForReview := [], submitted := false, hasTimerExpired := false)
  }

  /** What the question request gave back: a network or parse failure, or the list under `results` (empty when absent). */
  datatype FetchResult = FetchFailed | Fetched(results: seq<RawQuestion>)

  predicate FetchFits(fetch: FetchResult, picks: seq<seq<nat>>) {
    fetch.Fetched? ==> PicksFit(fetch.results, picks)
  }

  /** Resuming applies: asked for, a snapshot readable, and saved under the same email. */
  predicate CanResume(st: StoreContents, userEmail: string, useExisting: bool) {
    useExisting && st.progress.Some? && st.progress.value.email == userEmail
  }

  /**
   * `startQuiz(userEmail, useExisting)` as one step on the session and the storage:
   * record the email; resume when possible (copying a non-zero saved deadline into
   * the timer key); otherwise stop on a failed or empty fetch; otherwise start fresh
   * with a deadline thirty minutes after `now`.
   */
  function Start(
    s: QuizState, st: StoreContents, userEmail: string, useExisting: bool,
    fetch: FetchResult, picks: seq<seq<nat>>, now: int): (QuizState, StoreContents)
    requires FetchFits(fetch, picks)
  {
    var s1 := s.(email := Some(userEmail));
    if CanResume(st, userEmail, useExisting) then
      var saved := st.progress.value;
      (Resumed(s1, saved),
       if saved.endTime != 0 then st.(timer := Some(JsString.IntToString(saved.endTime))) else st)
    else if fetch.FetchFailed? || |fetch.results| == 0 then
      (s1, st)
    else
      (Fresh(s1, ToQuestions(fetch.results, picks)),
       st.(timer := Some(JsString.IntToString(now + QuizDurationMs))))
  }

  /** The save effect's guard: questions loaded, a non-empty email, not submitted. */
  predicate ShouldSave(s: QuizState) {
    |s.questions| > 0 && s.email.Some? && s.email.value != "" && !s.submitted
  }

  function Snapshot(s: QuizState, timer: Option<string>, now: int): SavedQuizState
    requires s.email.Some?
  {
    SavedQuizState(s.email.value, s.questions, s.currentIndex, s.answers, s.visited,
                   s.attempted, s.markedForReview, now, EndTimeOf(timer))
  }

  /** The storage after the save effect; `writeOk` is false when `setItem` throws. */
  function Saved(s: QuizState, st: StoreContents, now: int, writeOk: bool): StoreContents {
    if ShouldSave(s) && writeOk then st.(progress := Some(Snapshot(s, st.timer, now))) else st
  }

  // ---------------------------------------------------------------- properties of the steps

  /**
   * `setAnswer` records the answer, leaves every other key alone and lists the
   * index as attempted exactly once; the session invariant is kept.
   */
  lemma AnsweredSpec(s: QuizState, i: int, a: string)
    requires !s.hasTimerExpired
    ensures var r := Answered(s, i, a);
      && i in r.answers && r.answers[i] == a
      && (forall k :: k != i ==> (k in r.answers <==> k in s.answers))
      && (forall k :: k != i && k in s.answers ==> r.answers[k] == s.answers[k])
      && i in r.attempted
      && (NoDup(s.attempted) ==> NoDup(r.attempted))
      && r.(answers := s.answers, attempted := s.attempted) == s
  {
  }

  lemma AnsweredKeepsInv(s: QuizState, i: int, a: string)
    requires SessionInv(s)
    ensures SessionInv(Answered(s, i, a))
  {
    var r := Answered(s, i, a);
    if !s.hasTimerExpired {
      assert r.answers.Keys == s.answers.Keys + {i};
      assert (set k | k in r.attempted) == (set k | k in s.attempted) + {i};
    }
  }

  /** `goTo` moves to the index, marks it visited once, and changes nothing else. */
  lemma MovedSpec(s: QuizState, i: int)
    requires !s.hasTimerExpired
    ensures var r := Moved(s, i);
      && r.currentIndex == i && i in r.visited
      && (forall k :: k in r.visited <==> k in s.visited || k == i)
      && (NoDup(s.visited) ==> NoDup(r.visited))
      && r.(currentIndex := s.currentIndex, visited := s.visited) == s
  {
  }

  lemma MovedKeepsInv(s: QuizState, i: int)
    requires SessionInv(s)
    ensures SessionInv(Moved(s, i))
  {
  }

  /** Toggling twice restores the marks' membership; other indices are never touched. */
  lemma ToggledTwice(s: QuizState, i: int)
    ensures forall k :: k in Toggled(Toggled(s, i), i).markedForReview <==> k in s.markedForReview
    ensures forall k :: k != i ==> (k in Toggled(s, i).markedForReview <==> k in s.markedForReview)
    ensures !s.hasTimerExpired ==> (i in Toggled(s, i).markedForReview <==> i !in s.markedForReview)
    ensures Toggled(s, i).(markedForReview := s.markedForReview) == s
  {
    ToggleTwice(s.markedForReview, i);
    ToggleOne(s.markedForReview, i);
  }

  lemma ToggledKeepsInv(s: QuizState, i: int)
    requires SessionInv(s)
    ensures SessionInv(Toggled(s, i))
  {
    ToggleOne(s.markedForReview, i);
  }

  /** While the expiry flag is set, answering, moving and marking change nothing. */
  lemma ExpiredFreezes(s: QuizState, i: int, a: string)
    requires s.hasTimerExpired
    ensures Answered(s, i, a) == s && Moved(s, i) == s && Toggled(s, i) == s
  {
  }

  /** The guards do not look at `submitted`: a submitted session still takes answers. */
  lemma SubmittedDoesNotFreeze(s: QuizState, i: int, a: string)
    requires !s.hasTimerExpired
    ensures Answered(Submitted(s), i, a).answers[i] == a
    ensures Moved(Submitted(s), i).currentIndex == i
  {
  }

  /** No step ever raises the expiry flag: it is only ever assigned false. */
  lemma ExpiryNeverRaised(
    s: QuizState, st: StoreContents, i: int, a: string, userEmail: string, useExisting: bool,
    fetch: FetchResult, picks: seq<seq<nat>>, now: int)
    requires !s.hasTimerExpired && FetchFits(fetch, picks)
    ensures !Answered(s, i, a).hasTimerExpired && !Moved(s, i).hasTimerExpired
    ensures !Toggled(s, i).hasTimerExpired && !Submitted(s).hasTimerExpired
    ensures !Start(s, st, userEmail, useExisting, fetch, picks, now).0.hasTimerExpired
  {
  }

  /** Submitting twice is submitting once, and after it the save effect writes nothing. */
  lemma SubmitIdempotent(s: QuizState, now: int, writeOk: bool)
    ensures Submitted(Submitted(s)) == Submitted(s)
    ensures Saved(Submitted(s), Cleared, now, writeOk) == Cleared
  {
  }

  /** A fresh start: index 0, no answers, only 0 visited, nothing marked, a deadline thirty minutes on. */
  lemma FreshStartSpec(
    s: QuizState, st: StoreContents, userEmail: string, useExisting: bool,
    raws: seq<RawQuestion>, picks: seq<seq<nat>>, now: int)
    requires !CanResume(st, userEmail, useExisting) && |raws| > 0 && PicksFit(raws, picks)
    ensures var (r, st') := Start(s, st, userEmail, useExisting, Fetched(raws), picks, now);
      && r.email == Some(userEmail)
      && |r.questions| == |raws|
      && (forall k :: 0 <= k < |raws| ==>
            multiset(r.questions[k].choices)
              == multiset([raws[k].correctAnswer] + raws[k].incorrectAnswers))
      && r.currentIndex == 0 && r.answers == map[] && r.visited == [0]
      && r.attempted == [] && r.markedForReview == []
      && !r.submitted && !r.hasTimerExpired
      && st'.progress == st.progress
      && EndTimeOf(st'.timer) == now + QuizDurationMs
      && SessionInv(r)
  {
    forall k | 0 <= k < |raws| {
      ToQuestionChoices(raws[k], picks[k]);
    }
  }

  /** A failed or empty fetch records the email and nothing else. */
  lemma FailedStartSpec(
    s: QuizState, st: StoreContents, userEmail: string, useExisting: bool,
    fetch: FetchResult, picks: seq<seq<nat>>, now: int)
    requires FetchFits(fetch, picks)
    requires !CanResume(st, userEmail, useExisting)
    requires fetch.FetchFailed? || fetch.results == []
    ensures Start(s, st, userEmail, useExisting, fetch, picks, now) == (s.(email := Some(userEmail)), st)
  {
  }

  /**
   * Resuming restores the saved lists and clears `submitted`; a non-zero saved
   * deadline becomes the timer key's value, a zero one leaves the key alone.
   */
  lemma ResumeSpec(
    s: QuizState, st: StoreContents, userEmail: string,
    fetch: FetchResult, picks: seq<seq<nat>>, now: int)
    requires FetchFits(fetch, picks)
    requires st.progress.Some? && st.progress.value.email == userEmail
    ensures var saved := st.progress.value;
      var (r, st') := Start(s, st, userEmail, true, fetch, picks, now);
      && r.email == Some(userEmail) && r.questions == saved.questions
      && r.currentIndex == saved.currentIndex && r.answers == saved.answers
      && r.visited == saved.visited && r.attempted == saved.attempted
      && r.markedForReview == saved.markedForReview
      && !r.submitted && r.hasTimerExpired == s.hasTimerExpired
      && st'.progress == st.progress
      && EndTimeOf(st'.timer) == (if saved.endTime != 0 then saved.endTime else EndTimeOf(st.timer))
      && (SnapshotInv(saved) ==> SessionInv(r))
  {
  }

  /** No snapshot, or one saved under another email: resuming falls through to a fresh fetch. */
  lemma StaleResumeFallsThrough(
    s: QuizState, st: StoreContents, userEmail: string,
    fetch: FetchResult, picks: seq<seq<nat>>, now: int)
    requires FetchFits(fetch, picks)
    requires st.progress == None || st.progress.value.email != userEmail
    ensures Start(s, st, userEmail, true, fetch, picks, now) == Start(s, st, userEmail, false, fetch, picks, now)
  {
  }

  /**
   * `startQuiz` keeps the session invariant, never touches the progress key, and
   * never leaves a snapshot beside a submitted session.
   */
  lemma StartKeepsInv(
    s: QuizState, st: StoreContents, userEmail: string, useExisting: bool,
    fetch: FetchResult, picks: seq<seq<nat>>, now: int)
    requires FetchFits(fetch, picks) && SessionInv(s)
    requires (st.progress.Some? ==> SnapshotInv(st.progress.value)) && (s.submitted ==> st.progress == None)
    ensures var (r, st') := Start(s, st, userEmail, useExisting, fetch, picks, now);
      && SessionInv(r) && st'.progress == st.progress
      && (r.submitted ==> st'.progress == None)
  {
  }

  /** A snapshot the save effect writes satisfies the snapshot invariant. */
  lemma SavedKeepsStorageInv(s: QuizState, st: StoreContents, now: int, writeOk: bool)
    requires SessionInv(s)
    requires st.progress.Some? ==> SnapshotInv(st.progress.value)
    ensures var st' := Saved(s, st, now, writeOk);
      && st'.timer == st.timer
      && (st'.progress.Some? ==> SnapshotInv(st'.progress.value))
      && (s.submitted ==> st'.progress == st.progress)
  {
  }

  /**
   * Save, then resume with the same email: every field of the session comes back
   * (the expiry flag is the resuming session's own), and so does the deadline.
   */
  lemma SaveThenResume(
    s: QuizState, st: StoreContents, now: int, t: QuizState,
    fetch: FetchResult, picks: seq<seq<nat>>, later: int)
    requires ShouldSave(s) && FetchFits(fetch, picks)
    ensures var saved := Saved(s, st, now, true);
      var (r, st') := Start(t, saved, s.email.value, true, fetch, picks, later);
      && r == s.(hasTimerExpired := t.hasTimerExpired)
      && EndTimeOf(st'.timer) == EndTimeOf(st.timer)
  {
    var e := EndTimeOf(st.timer);
    if e != 0 {
      JsString.ParseIntOfIntToString(e);
    }
  }

  // ---------------------------------------------------------------- the provider

  /** The quiz context provider: the session fields and the storage they are saved to. */
  class QuizProvider {
    const store: LocalStorage
    var email: Option<string>
    var questions: seq<Question>
    var currentIndex: int
    var answers: map<int, string>
    var visited: seq<int>
    var attempted: seq<int>
    var markedForReview: seq<int>
    var submitted: bool
    var hasTimerExpired: bool

    function State(): QuizState
      reads this
    {
      QuizState(email, questions, currentIndex, answers, visited, attempted,
                markedForReview, submitted, hasTimerExpired)
    }

    /** The lists are consistent, storage holds only saved snapshots, and none survives a submit. */
    ghost predicate Valid()
      reads this, store
    {
      SessionInv(State()) && store.Valid() && (submitted ==> store.progress == None)
    }

    constructor (store: LocalStorage)
      requires store.Valid()
      ensures Valid() && this.store == store && State() == InitialState
    {
      this.store := store;
      email, questions, currentIndex, answers := None, [], 0, map[];
      visited, attempted, markedForReview := [], [], [];
      submitted, hasTimerExpired := false, false;
    }

    /**
     * `startQuiz(userEmail, useExisting)`, with the fetch and the shuffle's random
     * draws given as `fetch` and `picks` and `Date.now()` as `now`.
     */
    method StartQuiz(
      userEmail: string, useExisting: bool, fetch: FetchResult, picks: seq<seq<nat>>, now: int)
      requires Valid() && FetchFits(fetch, picks)
      modifies this, store
      ensures Valid()
      ensures (State(), store.Contents())
        == Start(old(State()), old(store.Contents()), userEmail, useExisting, fetch, picks, now)
    {
      StartKeepsInv(State(), store.Contents(), userEmail, useExisting, fetch, picks, now);
      email := Some(userEmail);
      if useExisting {
        match store.progress
        case Some(saved) =>
          if saved.email == userEmail {
            Restore(saved);
            return;
          }
        case None =>
      }
      if fetch.FetchFailed? {
        return;
      }
      var qs := BuildQuestions(fetch.results, picks);
      if |qs| == 0 {
        return;
      }
      BeginFresh(qs, now);
    }

    /** The resume branch: the saved lists come back, `submitted` is cleared and a non-zero saved deadline is restored. */
    method Restore(saved: SavedQuizState)
      modifies this, store
      ensures State() == Resumed(old(State()), saved)
      ensures store.Contents()
        == if saved.endTime != 0 then old(store.Contents()).(timer := Some(JsString.IntToString(saved.endTime)))
           else old(store.Contents())
    {
      questions, currentIndex, answers := saved.questions, saved.currentIndex, saved.answers;
      visited, attempted, markedForReview := saved.visited, saved.attempted, saved.markedForReview;
      if saved.endTime != 0 {
        store.timer := Some(JsString.IntToString(saved.endTime));
      }
      submitted := false;
    }

    /** The fresh branch: the fetched questions, index 0, only 0 visited, and a deadline thirty minutes after `now`. */
    method BeginFresh(qs: seq<Question>, now: int)
      modifies this, store
      ensures State() == Fresh(old(State()), qs)
      ensures store.Contents() == old(store.Contents()).(timer := Some(JsString.IntToString(now + QuizDurationMs)))
    {
      questions, currentIndex, answers := qs, 0, map[];
      visited, attempted, markedForReview := [0], [], [];
      submitted, hasTimerExpired := false, false;
      store.timer := Some(JsString.IntToString(now + QuizDurationMs));
    }

    /** The save effect, run after each change of the session; `writeOk` is false when storage throws. */
    method SaveProgress(now: int, writeOk: bool)
      requires Valid()
      modifies store
      ensures Valid()
      ensures store.Contents() == Saved(State(), old(store.Contents()), now, writeOk)
    {
      if |questions| > 0 && email.Some? && email.value != "" && !submitted && writeOk {
        store.progress := Some(Snapshot(State(), store.timer, now));
      }
    }

    method SetAnswer(index: int, answer: string)
      requires Valid()
      modifies this
      ensures Valid()
      ensures State() == Answered(old(State()), index, answer)
    {
      AnsweredKeepsInv(State(), index, answer);
      if hasTimerExpired {
        return;
      }
      answers := answers[index := answer];
      attempted := AddOnce(attempted, index);
    }

    method GoTo(index: int)
      requires Valid()
      modifies this
      ensures Valid()
      ensures State() == Moved(old(State()), index)
    {
      MovedKeepsInv(State(), index);
      if hasTimerExpired {
        return;
      }
      currentIndex := index;
      visited := AddOnce(visited, index);
    }

    method ToggleMarkForReview(index: int)
      requires Valid()
      modifies this
      ensures Valid()
      ensures State() == Toggled(old(State()), index)
    {
      ToggledKeepsInv(State(), index);
      if hasTimerExpired {
        return;
      }
      markedForReview := if index in markedForReview then Without(markedForReview, index)
                         else markedForReview + [index];
    }

    /**
     * `isMarked(index)`: what the star shows, in every state; it is the opposite of what
     * toggling the index would leave, and while time remains a toggle does exactly that.
     */
    function IsMarked(index: int): (b: bool)
      reads this
      ensures b <==> index !in Toggle(markedForReview, index)
      ensures !hasTimerExpired ==> (b <==> index !in Toggled(State(), index).markedForReview)
    {
      ToggleOne(markedForReview, index);
      index in markedForReview
    }

    /** `submit()`: sets `submitted` and removes both keys; the route change is not modelled. */
    method Submit()
      requires Valid()
      modifies this, store
      ensures Valid()
      ensures State() == Submitted(old(State())) && store.Contents() == Cleared
    {
      submitted := true;
      store.progress, store.timer := None, None;
    }

    /** `clearSavedQuiz()`: removes both keys and leaves the session alone. */
    method ClearSavedQuiz()
      requires Valid()
      modifies store
      ensures Valid()
      ensures store.Contents() == Cleared
    {
      store.progress, store.timer := None, None;
    }

    /** `getSavedQuiz()`: the stored snapshot, None when missing or unreadable. */
    function GetSavedQuiz(): (saved: Option<SavedQuizState>)
      reads this, store
      requires Valid()
      ensures saved.Some? ==> SnapshotInv(saved.value)
      ensures submitted ==> saved == None
    {
      store.progress
    }
  }
}
