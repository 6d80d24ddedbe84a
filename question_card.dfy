/**
 * The card showing the current question: number keys and clicks pick a choice,
 * the star button toggles the review mark, and Previous / Next move one step.
 * Each rule is a function from the session state to the state the context is
 * asked to take.
 */
module QuestionCard {
  import opened Wrappers
  import opened Types
  import opened QuizContext
  import opened Utils
  import opened JsString

  /**
   * The position of the choice a key press names: `parseInt(key)` must be a number
   * from 1 to 4 that is also at most the number of choices.
   */
  function DigitChoice(key: string, choices: seq<string>): (r: Option<int>)
    ensures ParseInt(key) == None ==> r == None
    ensures forall k :: ParseInt(key) == Some(k) ==>
      (r == Some(k - 1) <==> 1 <= k <= 4 && k <= |choices|) && (r == None <==> !(1 <= k <= 4 && k <= |choices|))
    ensures r.Some? ==> 0 <= r.value < |choices| && r.value < 4
  {
    match ParseInt(key)
    case None => None
    case Some(k) => if 1 <= k <= 4 && k <= |choices| then Some(k - 1) else None
  }

  /** The key handler of the card showing question `index`. */
  function OnKey(s: QuizState, index: int, key: string): (r: QuizState)
    requires 0 <= index < |s.questions|
    ensures s.hasTimerExpired ==> r == s
    ensures DigitChoice(key, s.questions[index].choices) == None ==> r == s
  {
    if s.hasTimerExpired then s
    else match DigitChoice(key, s.questions[index].choices)
      case None => s
      case Some(c) => Answered(s, index, s.questions[index].choices[c])
  }

  /** Pressing the digit `d` answers with choice `d`, counted from 1, when there is one among the first four. */
  lemma DigitKeySelects(s: QuizState, index: int, d: nat)
    requires 0 <= index < |s.questions| && !s.hasTimerExpired
    requires 1 <= d <= 4 && d <= |s.questions[index].choices|
    ensures OnKey(s, index, [DigitChar(d)]) == Answered(s, index, s.questions[index].choices[d - 1])
    ensures Selected(OnKey(s, index, [DigitChar(d)]), index, s.questions[index].choices[d - 1])
  {
    ParseIntOfDigits([DigitChar(d)]);
    assert [DigitChar(d)][..0] == [];
  }

  /** A key whose name starts with a letter ("ArrowLeft", "Enter", "a") is not a number and changes nothing. */
  lemma LetterKeyIgnored(s: QuizState, index: int, key: string)
    requires 0 <= index < |s.questions|
    requires key != [] && ('A' <= key[0] <= 'Z' || 'a' <= key[0] <= 'z')
    ensures OnKey(s, index, key) == s
  {
    assert !IsWhitespace(key[0]);
    assert TrimStart(key) == key;
    assert DigitPrefixLength(key) == 0;
  }

  /** `answers[index] === c`: a missing answer highlights nothing. */
  predicate Selected(s: QuizState, index: int, c: string) {
    index in s.answers && s.answers[index] == c
  }

  /** Once a choice is recorded, it is the one highlighted: with distinct choices no other is. */
  lemma ChosenIsOnlyHighlight(s: QuizState, index: int, c: string, choices: seq<string>)
    requires !s.hasTimerExpired
    ensures forall j :: 0 <= j < |choices| ==> (Selected(Answered(s, index, c), index, choices[j]) <==> choices[j] == c)
  {
  }

  /** A click on a choice; the buttons are disabled once time is up. */
  function OnChoiceClick(s: QuizState, index: int, c: string): (r: QuizState)
    ensures s.hasTimerExpired ==> r == s
    ensures !s.hasTimerExpired ==> Selected(r, index, c)
  {
    if s.hasTimerExpired then s else Answered(s, index, c)
  }

  /** The star button toggles the mark on this card's question; disabled once time is up. */
  function OnMarkClick(s: QuizState, index: int): (r: QuizState)
    ensures s.hasTimerExpired ==> r == s
    ensures !s.hasTimerExpired ==> (index in r.markedForReview <==> index !in s.markedForReview)
  {
    if s.hasTimerExpired then s else Toggled(s, index)
  }

  predicate IsFirst(index: int) {
    index == 0
  }

  predicate IsLast(index: int, len: int) {
    index == len - 1
  }

  /** Where Previous goes: nowhere on the first question or once time is up, else `max(0, index - 1)`. */
  function PrevTarget(index: int, expired: bool): (t: Option<int>)
    ensures t == None <==> IsFirst(index) || expired
  {
    if IsFirst(index) || expired then None else Some(Max(0, index - 1))
  }

  /** Where Next goes: nowhere on the last question or once time is up, else `min(len - 1, index + 1)`. */
  function NextTarget(index: int, len: int, expired: bool): (t: Option<int>)
    ensures t == None <==> IsLast(index, len) || expired
  {
    if IsLast(index, len) || expired then None else Some(Min(len - 1, index + 1))
  }

  /**
   * Inside the question range Previous goes one back and Next one forward, both
   * stay in range, and each undoes the other.
   */
  lemma PrevNextSteps(index: int, len: int)
    requires 0 <= index < len
    ensures PrevTarget(index, false).Some? ==>
      var p := PrevTarget(index, false).value;
      p == index - 1 && 0 <= p < len && NextTarget(p, len, false) == Some(index)
    ensures NextTarget(index, len, false).Some? ==>
      var n := NextTarget(index, len, false).value;
      n == index + 1 && 0 <= n < len && PrevTarget(n, false) == Some(index)
  {
  }

  /**
   * `String.fromCharCode(49 + i)` followed by a dot. The character code is kept
   * below the surrogate range, where it names a Unicode scalar value.
   */
  function ChoiceLabel(i: nat): (text: string)
    requires 49 + i < 0xD800
    ensures |text| == 2 && text[1] == '.'
  {
    [(49 + i) as char] + "."
  }

  /** The first nine labels are the digits 1 to 9, and for the first four the digit is the key that picks that choice. */
  lemma LabelIsDigitKey(i: nat, choices: seq<string>)
    requires i < 9
    ensures ChoiceLabel(i)[0] == DigitChar(i + 1)
    ensures i < 4 && i < |choices| ==> DigitChoice(ChoiceLabel(i)[..1], choices) == Some(i)
  {
    assert ChoiceLabel(i)[..1] == [DigitChar(i + 1)];
    ParseIntOfDigits([DigitChar(i + 1)]);
    assert [DigitChar(i + 1)][..0] == [];
  }
}
