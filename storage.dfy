/**
 * The browser's durable key-value storage, reduced to the two keys the quiz uses:
 * `quiz_progress` (a snapshot, or None when it is missing or does not parse) and
 * `quiz_timer` (the text of the deadline in milliseconds, or None when missing).
 */
module Storage {
  import opened Wrappers
  import opened Types
  import JsString

  datatype StoreContents = StoreContents(progress: Option<SavedQuizState>, timer: Option<string>)

  /** Both keys removed. */
  const Cleared: StoreContents := StoreContents(None, None)

  /**
   * `parseInt(localStorage.getItem("quiz_timer") || "0", 10)`. A missing key reads
   * as 0; text that does not parse (NaN) also reads as 0, since every reader only
   * tests the value for truthiness and NaN and 0 are both falsy.
   */
  function EndTimeOf(timer: Option<string>): (t: int)
    ensures timer == None ==> t == 0
    ensures forall n :: timer == Some(JsString.IntToString(n)) ==> t == n
  {
    forall n | timer == Some(JsString.IntToString(n)) ensures JsString.ParseInt(timer.value) == Some(n) {
      JsString.ParseIntOfIntToString(n);
    }
    match timer
    case None => 0
    case Some(text) => JsString.ParseInt(text).GetOr(0)
  }

  class LocalStorage {
    var progress: Option<SavedQuizState>
    var timer: Option<string>

    /** Every snapshot in storage was written by the save effect. */
    ghost predicate Valid()
      reads this
    {
      progress.Some? ==> SnapshotInv(progress.value)
    }

    function Contents(): StoreContents
      reads this
    {
      StoreContents(progress, timer)
    }

    constructor ()
      ensures Valid() && Contents() == Cleared
    {
      progress := None;
      timer := None;
    }
  }
}
