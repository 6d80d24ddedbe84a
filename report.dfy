/**
 * The results page: the score is the number of questions whose recorded answer
 * is the correct one, the percentage is that share rounded to a whole number,
 * and every question gets a row saying whether it was answered correctly.
 */
module ReportPage {
  import opened Wrappers
  import opened Types

  /** `answers[i] === q.correct_answer`: an index with no answer is never correct. */
  predicate IsCorrect(answers: map<int, string>, i: int, q: Question) {
    i in answers && answers[i] == q.correctAnswer
  }

  /** The indices below `n` whose answer is correct. */
  function CorrectBelow(questions: seq<Question>, answers: map<int, string>, n: nat): set<int>
    requires n <= |questions|
  {
    set i | 0 <= i < n && IsCorrect(answers, i, questions[i])
  }

  /** The `reduce` over the first `n` questions, adding one per correct answer. */
  function ScoreOf(questions: seq<Question>, answers: map<int, string>, n: nat): (r: nat)
    requires n <= |questions|
    ensures r <= n
  {
    if n == 0 then 0
    else ScoreOf(questions, answers, n - 1) + (if IsCorrect(answers, n - 1, questions[n - 1]) then 1 else 0)
  }

  function Score(questions: seq<Question>, answers: map<int, string>): (r: nat)
    ensures r <= |questions|
  {
    ScoreOf(questions, answers, |questions|)
  }

  lemma {:induction false} ScoreOfCounts(questions: seq<Question>, answers: map<int, string>, n: nat)
    requires n <= |questions|
    ensures ScoreOf(questions, answers, n) == |CorrectBelow(questions, answers, n)|
  {
    if n == 0 {
      assert CorrectBelow(questions, answers, 0) == {};
    } else {
      ScoreOfCounts(questions, answers, n - 1);
      if IsCorrect(answers, n - 1, questions[n - 1]) {
        assert CorrectBelow(questions, answers, n) == CorrectBelow(questions, answers, n - 1) + {n - 1};
      } else {
        assert CorrectBelow(questions, answers, n) == CorrectBelow(questions, answers, n - 1);
      }
    }
  }

  /** The score is the number of correctly answered questions. */
  lemma ScoreCountsCorrect(questions: seq<Question>, answers: map<int, string>)
    ensures Score(questions, answers) == |set i | 0 <= i < |questions| && IsCorrect(answers, i, questions[i])|
  {
    ScoreOfCounts(questions, answers, |questions|);
  }

  lemma {:induction false} FullScoreOf(questions: seq<Question>, answers: map<int, string>, n: nat)
    requires n <= |questions|
    ensures ScoreOf(questions, answers, n) == n <==> forall i :: 0 <= i < n ==> IsCorrect(answers, i, questions[i])
  {
    if n > 0 {
      FullScoreOf(questions, answers, n - 1);
    }
  }

  /** Full marks exactly when every question is answered correctly. */
  lemma FullScore(questions: seq<Question>, answers: map<int, string>)
    ensures Score(questions, answers) == |questions| <==>
      forall i :: 0 <= i < |questions| ==> IsCorrect(answers, i, questions[i])
  {
    FullScoreOf(questions, answers, |questions|);
  }

  /**
   * `Math.round(score / len * 100)` in exact arithmetic: the whole number nearest
   * to 100 * score / len, halves rounded up.
   */
  function Percent(score: nat, len: nat): (p: int)
    requires len > 0
    ensures 2 * len * p - len <= 200 * score < 2 * len * p + len
  {
    DivBounds(200 * score + len, 2 * len);
    (200 * score + len) / (2 * len)
  }

  lemma DivBounds(x: int, d: int)
    requires d > 0
    ensures d * (x / d) <= x < d * (x / d) + d
  {
  }

  lemma MulCancel(c: int, a: int, b: int)
    requires c > 0 && c * a < c * b
    ensures a < b
  {
  }

  lemma QuotientBelow(x: int, d: int, q: int)
    requires d > 0 && x < d * q
    ensures x / d < q
  {
    DivBounds(x, d);
    MulCancel(d, x / d, q);
  }

  lemma QuotientAtLeast(x: int, d: int, q: int)
    requires d > 0 && d * q <= x
    ensures q <= x / d
  {
    DivBounds(x, d);
    assert d * (x / d) + d == d * (x / d + 1);
    MulCancel(d, q, x / d + 1);
  }

  /** For a score out of `len`, the percentage lies between 0 and 100. */
  lemma PercentBounds(score: nat, len: nat)
    requires 0 < len && score <= len
    ensures 0 <= Percent(score, len) <= 100
  {
    QuotientAtLeast(200 * score + len, 2 * len, 0);
    QuotientBelow(200 * score + len, 2 * len, 101);
  }

  /** Below 200 questions the percentage is 100 exactly at full marks. */
  lemma PercentFull(score: nat, len: nat)
    requires 0 < len && score <= len
    ensures len < 200 ==> (Percent(score, len) == 100 <==> score == len)
  {
    if score == len {
      QuotientAtLeast(200 * score + len, 2 * len, 100);
      QuotientBelow(200 * score + len, 2 * len, 101);
    } else if len < 200 {
      QuotientBelow(200 * score + len, 2 * len, 100);
    }
  }

  /** At 200 questions, 199 correct answers already round up to 100. */
  lemma PercentFullAt200()
    ensures Percent(199, 200) == 100
  {
  }

  /** One line of the results table: the answer shown is None ("Not answered") when missing or empty. */
  datatype Row = Row(number: int, question: string, yourAnswer: Option<string>, correctAnswer: string, isCorrect: bool)

  function Rows(questions: seq<Question>, answers: map<int, string>): (rows: seq<Row>)
    ensures |rows| == |questions|
  {
    seq(|questions|, i requires 0 <= i < |questions| =>
      Row(i + 1, questions[i].question,
          if i in answers && answers[i] != "" then Some(answers[i]) else None,
          questions[i].correctAnswer, IsCorrect(answers, i, questions[i])))
  }

  /** The score equals the number of rows marked correct, and an unanswered row is never one of them. */
  lemma ScoreMatchesRows(questions: seq<Question>, answers: map<int, string>)
    ensures var rows := Rows(questions, answers);
      Score(questions, answers) == |set i | 0 <= i < |rows| && rows[i].isCorrect|
    ensures forall i :: 0 <= i < |questions| && i !in answers ==>
      !Rows(questions, answers)[i].isCorrect && Rows(questions, answers)[i].yourAnswer == None
  {
    ScoreCountsCorrect(questions, answers);
    var rows := Rows(questions, answers);
    assert (set i | 0 <= i < |rows| && rows[i].isCorrect)
        == (set i | 0 <= i < |questions| && IsCorrect(answers, i, questions[i]));
  }

  /** What the page shows: a notice when there are no questions, else the score, percentage and table. */
  datatype Report = NoResults | Results(score: nat, total: nat, percent: int, rows: seq<Row>)

  function ReportOf(questions: seq<Question>, answers: map<int, string>): (r: Report)
    ensures r == NoResults <==> questions == []
    ensures r.Results? ==>
      && r.total == |questions| && r.score <= r.total && 0 <= r.percent <= 100 && |r.rows| == |questions|
      && (|questions| < 200 ==> (r.percent == 100 <==> forall i :: 0 <= i < |questions| ==> IsCorrect(answers, i, questions[i])))
  {
    if questions == [] then NoResults
    else
      var score := Score(questions, answers);
      PercentBounds(score, |questions|);
      FullScore(questions, answers);
      PercentFull(score, |questions|);
      Results(score, |questions|, Percent(score, |questions|), Rows(questions, answers))
  }
}
