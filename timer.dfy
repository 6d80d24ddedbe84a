/**
 * The countdown shown during the quiz. It keeps an absolute deadline in
 * milliseconds, recomputes the whole seconds left on every tick of a one-second
 * interval, and on the tick that reaches zero stops the interval and submits.
 */
module TimerComponent {
  import opened Wrappers
  import opened Types
  import opened Storage
  import opened QuizContext
  import opened Utils
  import JsString

  /**
   * `Math.max(0, Math.floor((endTime - now) / 1000))`. Dafny's `/` by a positive
   * divisor rounds toward negative infinity, as `Math.floor` of the quotient does.
   */
  function Remaining(endTime: int, now: int): (r: nat)
    ensures r == 0 <==> endTime - now < 1000
    ensures r > 0 ==> r * 1000 <= endTime - now < (r + 1) * 1000
  {
    Max(0, (endTime - now) / 1000)
  }

  /** With the deadline fixed, the seconds left never go up as time passes, and stay 0 once 0. */
  lemma RemainingNonIncreasing(endTime: int, now1: int, now2: int)
    requires now1 <= now2
    ensures Remaining(endTime, now2) <= Remaining(endTime, now1)
    ensures Remaining(endTime, now1) == 0 ==> Remaining(endTime, now2) == 0
  {
  }

  function Minutes(remaining: nat): nat {
    remaining / 60
  }

  function Seconds(remaining: nat): nat {
    remaining % 60
  }

  /** The minutes and seconds shown make up the seconds left. */
  lemma ClockFace(remaining: nat)
    ensures Minutes(remaining) * 60 + Seconds(remaining) == remaining
    ensures Seconds(remaining) < 60
  {
  }

  predicate IsLow(remaining: nat) {
    remaining <= 60
  }

  predicate IsExpired(remaining: nat) {
    remaining == 0
  }

  /** The badge says "Time's up!" exactly at zero, and zero counts as low. */
  lemma BadgeStates(remaining: nat)
    ensures Display(remaining) == "Time's up!" <==> IsExpired(remaining)
    ensures IsExpired(remaining) ==> IsLow(remaining)
  {
    if !IsExpired(remaining) {
      assert Display(remaining)[4] == ' ' != "Time's up!"[4];
    }
  }

  /** The text of the badge: "Time's up!" at zero, else `Time Left - mm:ss` with two-digit fields. */
  function Display(remaining: nat): string {
    if IsExpired(remaining) then "Time's up!"
    else "Time Left - " + JsString.PadStart2(JsString.NatToString(Minutes(remaining))) + ":"
         + JsString.PadStart2(JsString.NatToString(Seconds(remaining)))
  }

  /**
   * Below 100 minutes the badge reads back: the two digits after "Time Left - "
   * parse as the minutes, the two after the colon as the seconds, and together
   * they give the seconds left.
   */
  lemma DisplayReadsBack(remaining: nat)
    requires 0 < remaining < 6000
    ensures var d := Display(remaining);
      && |d| == 17 && d[14] == ':'
      && JsString.ParseInt(d[12..14]) == Some(Minutes(remaining))
      && JsString.ParseInt(d[15..17]) == Some(Seconds(remaining))
      && Minutes(remaining) * 60 + Seconds(remaining) == remaining
  {
    var m, c := Minutes(remaining), Seconds(remaining);
    var mm := JsString.PadStart2(JsString.NatToString(m));
    var ss := JsString.PadStart2(JsString.NatToString(c));
    JsString.ParseIntOfPadded(m);
    JsString.ParseIntOfPadded(c);
    FieldsAt("Time Left - ", mm, ss);
  }

  /** Where the two fields sit in `prefix + mm + ":" + ss`. */
  lemma FieldsAt(prefix: string, mm: string, ss: string)
    requires |prefix| == 12 && |mm| == 2 && |ss| == 2
    ensures var d := prefix + mm + ":" + ss;
      |d| == 17 && d[14] == ':' && d[12..14] == mm && d[15..17] == ss
  {
  }

  /**
   * The deadline the mount effect settles on when storage works: the stored one
   * when it is set and still ahead of `now`, else thirty minutes from `now`. Either
   * way it lies ahead of `now`.
   */
  function InitialDeadline(saved: int, now: int): (d: int)
    ensures d > now
    ensures saved != 0 && saved > now ==> d == saved
    ensures saved == 0 || saved <= now ==> d == now + QuizDurationMs
  {
    if saved != 0 && saved > now then saved else now + QuizDurationMs
  }

  class Timer {
    const quiz: QuizProvider
    var endTime: int
    var remaining: int
    /** An interval is scheduled. */
    var ticking: bool

    ghost predicate Valid()
      reads this
    {
      remaining >= 0 && (ticking ==> endTime != 0)
    }

    constructor (quiz: QuizProvider)
      ensures Valid() && this.quiz == quiz
      ensures endTime == 0 && remaining == 1800 && !ticking
    {
      this.quiz := quiz;
      endTime, remaining, ticking := 0, 1800, false;
    }

    /**
     * The mount effect. `storageOk` is false when storage throws: then the new
     * deadline is used but not written.
     */
    method Init(now: int, storageOk: bool)
      requires Valid() && quiz.Valid() && !ticking
      modifies this, quiz.store
      ensures Valid() && quiz.Valid()
      ensures remaining == old(remaining) && !ticking
      ensures quiz.store.progress == old(quiz.store.progress)
      ensures var saved := EndTimeOf(old(quiz.store.timer));
        if !storageOk then
          endTime == now + QuizDurationMs && quiz.store.timer == old(quiz.store.timer)
        else
          && endTime == InitialDeadline(saved, now)
          && quiz.store.timer == (if saved != 0 && saved > now then old(quiz.store.timer)
                                  else Some(JsString.IntToString(endTime)))
    {
      if !storageOk {
        endTime := now + QuizDurationMs;
        return;
      }
      var saved := EndTimeOf(quiz.store.timer);
      if saved != 0 && saved > now {
        endTime := saved;
      } else {
        endTime := now + QuizDurationMs;
        quiz.store.timer := Some(JsString.IntToString(endTime));
      }
    }

    /** The interval effect: nothing is scheduled while the deadline is 0. */
    method Arm()
      requires Valid()
      modifies this
      ensures Valid()
      ensures ticking == (endTime != 0)
      ensures endTime == old(endTime) && remaining == old(remaining)
    {
      ticking := endTime != 0;
    }

    /**
     * One firing of the interval at time `now`: store the seconds left; at zero,
     * clear the interval and submit.
     */
    method Tick(now: int) returns (calledSubmit: bool)
      requires Valid() && quiz.Valid()
      modifies this, quiz, quiz.store
      ensures Valid() && quiz.Valid()
      ensures endTime == old(endTime)
      ensures !old(ticking) ==> !calledSubmit && remaining == old(remaining) && !ticking
      ensures old(ticking) ==>
        && remaining == Remaining(endTime, now)
        && calledSubmit == (remaining == 0)
        && ticking == !calledSubmit
      ensures calledSubmit ==>
        quiz.State() == Submitted(old(quiz.State())) && quiz.store.Contents() == Cleared
      ensures !calledSubmit ==>
        quiz.State() == old(quiz.State()) && quiz.store.Contents() == old(quiz.store.Contents())
    {
      calledSubmit := false;
      if !ticking {
        return;
      }
      var sec := Remaining(endTime, now);
      remaining := sec;
      if sec == 0 {
        ticking := false;
        quiz.Submit();
        calledSubmit := true;
      }
    }

    /**
     * The interval firing at the times `nows`, one after another: `submit` is called
     * at most once, and exactly once when some firing finds no second left.
     */
    method RunTicks(nows: seq<int>) returns (submits: nat)
      requires Valid() && quiz.Valid()
      modifies this, quiz, quiz.store
      ensures Valid() && quiz.Valid()
      ensures submits <= 1
      ensures !old(ticking) ==> submits == 0
      ensures (old(ticking) && exists k :: 0 <= k < |nows| && Remaining(old(endTime), nows[k]) == 0)
        ==> submits == 1
    {
      submits := 0;
      for n := 0 to |nows|
        invariant Valid() && quiz.Valid()
        invariant endTime == old(endTime)
        invariant ticking ==> old(ticking)
        invariant submits == if old(ticking) && !ticking then 1 else 0
        invariant (old(ticking) && exists k :: 0 <= k < n && Remaining(endTime, nows[k]) == 0) ==> !ticking
      {
        var called := Tick(nows[n]);
        if called {
          submits := submits + 1;
        }
      }
    }
  }
}
