/**
 * Session metrics derived from a history: accuracy, fast-answer rate,
 * average time, per-level accuracy, the trailing streak, a speed score, a
 * grade and a first-half versus second-half improvement flag.
 *
 * Every quantity is a ratio of integer counts or of a sum of integer times,
 * so it is computed exactly: `Math.round(p / q)` is `RoundDiv(p, q)`, and a
 * comparison of a percentage with a threshold is cross-multiplied
 * (`100 * correct / n >= 90` is `100 * correct >= 90 * n`). `Percent` gives
 * the unrounded percentage as a real, and the lemmas relate the two readings.
 */
module Metrics {
  import opened Types
  import opened Numeric

  datatype Grade = Excellent | Good | Ok | Poor

  datatype PerLevel = PerLevel(easy: int, medium: int, hard: int)

  datatype Metrics = Metrics(
    accuracy: int,
    fastRate: int,
    avgTimeMs: int,
    perLevel: PerLevel,
    streak: nat,
    speedScore: int,
    overallGrade: Grade,
    improved: Option<bool>)

  /** An answer within 30 seconds counts as fast (the bound is inclusive). */
  const FastThresholdMs: int := 30000

  /** The unrounded percentage `(k / n) * 100`. */
  function Percent(k: int, n: nat): real
    requires n > 0
  {
    (k as real) / (n as real) * 100.0
  }

  /** A percentage reaches a threshold exactly when the cross-multiplied counts do. */
  lemma PercentAtLeast(k: int, n: nat, t: int)
    requires n > 0
    ensures Percent(k, n) >= t as real <==> 100 * k >= t * n
  {
    var q := (k as real) / (n as real);
    assert q * (n as real) == k as real;
    assert (100 * k) as real == 100.0 * q * (n as real);
    assert (t * n) as real == (t as real) * (n as real);
  }

  /** A percentage exceeds a threshold exactly when the cross-multiplied counts do. */
  lemma PercentAbove(k: int, n: nat, t: int)
    requires n > 0
    ensures Percent(k, n) > t as real <==> 100 * k > t * n
  {
    var q := (k as real) / (n as real);
    assert q * (n as real) == k as real;
    assert (100 * k) as real == 100.0 * q * (n as real);
    assert (t * n) as real == (t as real) * (n as real);
  }

  /** One percentage exceeds another exactly when the cross-multiplied counts do. */
  lemma PercentGreater(a: int, n: nat, b: int, m: nat)
    requires n > 0 && m > 0
    ensures Percent(a, n) > Percent(b, m) <==> a * m > b * n
  {
    var x := (a as real) / (n as real);
    var y := (b as real) / (m as real);
    assert x * (n as real) == a as real;
    assert y * (m as real) == b as real;
    assert (a * m) as real == x * (n as real) * (m as real);
    assert (b * n) as real == y * (m as real) * (n as real);
    assert x > y <==> x * ((n as real) * (m as real)) > y * ((n as real) * (m as real));
  }

  /** `history.filter(h => h.timeMs <= fastThreshold).length`. */
  function CountFast(h: seq<HistoryItem>): (n: nat)
    ensures n <= |h|
  {
    if h == [] then 0 else (if h[0].timeMs <= FastThresholdMs then 1 else 0) + CountFast(h[1..])
  }

  /** `history.reduce((sum, h) => sum + h.timeMs, 0)`. */
  function TotalTime(h: seq<HistoryItem>): int {
    if h == [] then 0 else h[0].timeMs + TotalTime(h[1..])
  }

  /** The number of correct answers at the end of the history, counted backwards to the first wrong one. */
  function TrailingCorrect(h: seq<HistoryItem>): nat {
    if h == [] || !h[|h| - 1].correct then 0 else 1 + TrailingCorrect(h[..|h| - 1])
  }

  /** The accuracy over the items recorded at `level`, rounded; 0 when there are none. */
  function LevelAccuracy(h: seq<HistoryItem>, level: Level): int {
    var s := AtLevel(h, level);
    if |s| > 0 then RoundDiv(100 * CountCorrect(s), |s|) else 0
  }

  /**
   * `Math.round(avg > 0 ? Math.max(0, 100 - avg / 1000) : 0)` for the
   * average `total / n` milliseconds, where `100 - total / (1000 n)` is
   * the ratio `(100000 n - total) / (1000 n)`.
   */
  function SpeedScore(total: int, n: nat): int
    requires n > 0
  {
    if total <= 0 then 0
    else if 100000 * n - total <= 0 then 0
    else RoundDiv(100000 * n - total, 1000 * n)
  }

  /** The grade on the unrounded accuracy `correct / n * 100`: 90, 75 and 60 are the cut-offs. */
  function GradeOf(correct: nat, n: nat): Grade
    requires n > 0
  {
    if 100 * correct >= 90 * n then Grade.Excellent
    else if 100 * correct >= 75 * n then Grade.Good
    else if 100 * correct >= 60 * n then Ok
    else Poor
  }

  /**
   * Null below four items; otherwise whether the accuracy of the second half
   * `h[n/2..]` is strictly above that of the first half `h[..n/2]`.
   */
  function Improved(h: seq<HistoryItem>): Option<bool> {
    if |h| < 4 then None
    else
      var firstHalf := h[..|h| / 2];
      var secondHalf := h[|h| / 2..];
      Some(CountCorrect(secondHalf) * |firstHalf| > CountCorrect(firstHalf) * |secondHalf|)
  }

  /** The metrics `deriveMetrics(history)` returns. */
  function MetricsOf(h: seq<HistoryItem>): Metrics {
    if |h| == 0 then
      Metrics(0, 0, 0, PerLevel(0, 0, 0), 0, 0, Poor, None)
    else
      Metrics(
        RoundDiv(100 * CountCorrect(h), |h|),
        RoundDiv(100 * CountFast(h), |h|),
        RoundDiv(TotalTime(h), |h|),
        PerLevel(LevelAccuracy(h, Easy), LevelAccuracy(h, Medium), LevelAccuracy(h, Hard)),
        TrailingCorrect(h),
        SpeedScore(TotalTime(h), |h|),
        GradeOf(CountCorrect(h), |h|),
        Improved(h))
  }

  /**
   * The streak loop of `deriveMetrics`: walk back from the last item and
   * stop at the first wrong answer.
   */
  method CurrentStreak(history: seq<HistoryItem>) returns (streak: nat)
    ensures streak == TrailingCorrect(history)
  {
    streak := 0;
    var i := |history| - 1;
    assert history[..i + 1] == history;
    while i >= 0
      invariant -1 <= i < |history|
      invariant streak + TrailingCorrect(history[..i + 1]) == TrailingCorrect(history)
      decreases i
    {
      if history[i].correct {
        assert history[..i + 1][..i] == history[..i];
        streak := streak + 1;
      } else {
        break;
      }
      i := i - 1;
    }
  }

  /** `deriveMetrics(history)`: the streak by its loop, everything else as ratios of counts. */
  method DeriveMetrics(history: seq<HistoryItem>) returns (m: Metrics)
    ensures m == MetricsOf(history)
  {
    if |history| == 0 {
      return Metrics(0, 0, 0, PerLevel(0, 0, 0), 0, 0, Poor, None);
    }
    var n := |history|;
    var correctAnswers := CountCorrect(history);
    var totalTime := TotalTime(history);
    var streak := CurrentStreak(history);
    m := Metrics(
      RoundDiv(100 * correctAnswers, n),
      RoundDiv(100 * CountFast(history), n),
      RoundDiv(totalTime, n),
      PerLevel(LevelAccuracy(history, Easy), LevelAccuracy(history, Medium), LevelAccuracy(history, Hard)),
      streak,
      SpeedScore(totalTime, n),
      GradeOf(correctAnswers, n),
      Improved(history));
  }

  // ---- properties of the metrics ----

  /** The streak is the length of the trailing run of correct answers. */
  lemma {:induction false} StreakIsTrailingRun(h: seq<HistoryItem>)
    ensures TrailingCorrect(h) <= |h|
    ensures forall j :: |h| - TrailingCorrect(h) <= j < |h| ==> h[j].correct
    ensures TrailingCorrect(h) < |h| ==> !h[|h| - 1 - TrailingCorrect(h)].correct
  {
    if h != [] && h[|h| - 1].correct {
      var init := h[..|h| - 1];
      StreakIsTrailingRun(init);
      forall j | |h| - TrailingCorrect(h) <= j < |h| - 1 ensures h[j].correct {
        assert h[j] == init[j];
      }
      if TrailingCorrect(h) < |h| {
        assert h[|h| - 1 - TrailingCorrect(h)] == init[|init| - 1 - TrailingCorrect(init)];
      }
    }
  }

  /** An empty history gives all-zero numbers, the lowest grade and no improvement verdict. */
  lemma EmptyHistoryMetrics()
    ensures MetricsOf([]) == Metrics(0, 0, 0, PerLevel(0, 0, 0), 0, 0, Poor, None)
  {
  }

  lemma LevelAccuracyInRange(h: seq<HistoryItem>, level: Level)
    ensures 0 <= LevelAccuracy(h, level) <= 100
  {
    var s := AtLevel(h, level);
    if |s| > 0 {
      PercentInRange(CountCorrect(s), |s|);
    }
  }

  /** The speed score lies in [0, 100]. */
  lemma SpeedScoreInRange(total: int, n: nat)
    requires n > 0
    ensures 0 <= SpeedScore(total, n) <= 100
  {
    if total > 0 && 100000 * n - total > 0 {
      RoundDivBetween(100000 * n - total, 1000 * n, 0, 100);
    }
  }

  /** Accuracy, fast rate, every per-level value and the speed score lie in [0, 100]; the streak is at most the length. */
  lemma MetricsInRange(h: seq<HistoryItem>)
    ensures var m := MetricsOf(h);
            && 0 <= m.accuracy <= 100 && 0 <= m.fastRate <= 100
            && 0 <= m.perLevel.easy <= 100 && 0 <= m.perLevel.medium <= 100 && 0 <= m.perLevel.hard <= 100
            && 0 <= m.speedScore <= 100
            && m.streak <= |h|
  {
    if |h| > 0 {
      PercentInRange(CountCorrect(h), |h|);
      PercentInRange(CountFast(h), |h|);
      LevelAccuracyInRange(h, Easy);
      LevelAccuracyInRange(h, Medium);
      LevelAccuracyInRange(h, Hard);
      SpeedScoreInRange(TotalTime(h), |h|);
      StreakIsTrailingRun(h);
    }
  }

  /** The speed score is 0 whenever the average time is not positive, in particular when it is 0. */
  lemma NoTimeNoSpeedScore(h: seq<HistoryItem>)
    requires TotalTime(h) <= 0
    ensures MetricsOf(h).speedScore == 0
  {
  }

  /** The grade follows the unrounded accuracy: at least 90, 75 and 60 for the three upper grades. */
  lemma GradeThresholds(h: seq<HistoryItem>)
    requires |h| > 0
    ensures var a := Percent(CountCorrect(h), |h|);
            var g := MetricsOf(h).overallGrade;
            && (g == Grade.Excellent <==> a >= 90.0)
            && (g == Grade.Good <==> 75.0 <= a < 90.0)
            && (g == Ok <==> 60.0 <= a < 75.0)
            && (g == Poor <==> a < 60.0)
  {
    PercentAtLeast(CountCorrect(h), |h|, 90);
    PercentAtLeast(CountCorrect(h), |h|, 75);
    PercentAtLeast(CountCorrect(h), |h|, 60);
  }

  /** 179 correct out of 200 shows as an accuracy of 90 (89.5 rounded) but grades only good. */
  lemma GradeUsesUnroundedAccuracy()
    ensures RoundDiv(100 * 179, 200) == 90
    ensures GradeOf(179, 200) == Grade.Good
  {
  }

  /**
   * The improvement flag is null below four items; otherwise it is true
   * exactly when the second half's accuracy is strictly above the first's,
   * so equal halves give false.
   */
  lemma ImprovedComparesHalves(h: seq<HistoryItem>)
    ensures MetricsOf(h).improved.None? <==> |h| < 4
    ensures |h| >= 4 ==>
      var firstHalf := h[..|h| / 2];
      var secondHalf := h[|h| / 2..];
      MetricsOf(h).improved == Some(Percent(CountCorrect(secondHalf), |secondHalf|)
                                    > Percent(CountCorrect(firstHalf), |firstHalf|))
  {
    if |h| >= 4 {
      var firstHalf := h[..|h| / 2];
      var secondHalf := h[|h| / 2..];
      PercentGreater(CountCorrect(secondHalf), |secondHalf|, CountCorrect(firstHalf), |firstHalf|);
    }
  }

  /** Two wrong then two correct answers is an improvement. */
  lemma ImprovementExample(r: HistoryItem, w: HistoryItem)
    requires r.correct && !w.correct
    ensures MetricsOf([w, w, r, r]).improved == Some(true)
  {
    var h := [w, w, r, r];
    assert Improved(h) == Some(true) by {
      assert h[..2] == [w, w] && h[2..] == [r, r];
      assert CountCorrect([w, w]) == 0 && CountCorrect([r, r]) == 2;
    }
  }

  /** Halves with the same accuracy are not an improvement. */
  lemma NoImprovementExample(r: HistoryItem, w: HistoryItem)
    requires r.correct && !w.correct
    ensures MetricsOf([r, w, r, w]).improved == Some(false)
  {
    var h := [r, w, r, w];
    assert Improved(h) == Some(false) by {
      assert h[..2] == [r, w] && h[2..] == [r, w];
    }
  }

  /** The streak of [right, right, wrong, right] is 1. */
  lemma StreakExample(r: HistoryItem, w: HistoryItem)
    requires r.correct && !w.correct
    ensures MetricsOf([r, r, w, r]).streak == 1
  {
    var h := [r, r, w, r];
    assert TrailingCorrect(h) == 1 by {
      assert h[..3] == [r, r, w];
      assert TrailingCorrect([r, r, w]) == 0;
    }
  }

  /** `MetricsCalculator`: the legacy threshold helpers. */
  class MetricsCalculator {

    /** `getPerformanceLevel(accuracy)`: 90 and 75 are the cut-offs. */
    static function PerformanceLevel(accuracy: real): (r: Performance)
      ensures r == Performance.Excellent <==> accuracy >= 90.0
      ensures r == Performance.Good <==> 75.0 <= accuracy < 90.0
      ensures r == NeedsWork <==> accuracy < 75.0
    {
      if accuracy >= 90.0 then Performance.Excellent
      else if accuracy >= 75.0 then Performance.Good
      else NeedsWork
    }

    /** `getSpeedLevel(speedScore)`: 70 and 40 are the cut-offs. */
    static function SpeedLevel(speedScore: real): (r: Speed)
      ensures r == Fast <==> speedScore >= 70.0
      ensures r == Moderate <==> 40.0 <= speedScore < 70.0
      ensures r == Slow <==> speedScore < 40.0
    {
      if speedScore >= 70.0 then Fast
      else if speedScore >= 40.0 then Moderate
      else Slow
    }
  }

  datatype Performance = Excellent | Good | NeedsWork

  datatype Speed = Fast | Moderate | Slow

  function PerformanceRank(p: Performance): nat {
    match p
    case NeedsWork => 0
    case Good => 1
    case Excellent => 2
  }

  function SpeedRank(s: Speed): nat {
    match s
    case Slow => 0
    case Moderate => 1
    case Fast => 2
  }

  /** A higher accuracy never gets a lower performance level, nor a higher score a slower speed level. */
  lemma CalculatorMonotone(a: real, b: real)
    requires a <= b
    ensures PerformanceRank(MetricsCalculator.PerformanceLevel(a)) <= PerformanceRank(MetricsCalculator.PerformanceLevel(b))
    ensures SpeedRank(MetricsCalculator.SpeedLevel(a)) <= SpeedRank(MetricsCalculator.SpeedLevel(b))
  {
  }
}
