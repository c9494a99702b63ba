/**
 * The difficulty adapter: a three-state transition function that looks only
 * at the history recorded at the current level (its last two entries and its
 * total number of wrong answers).
 */
module Adapt {
  import opened Types

  /** `recentHistory.slice(-2)`: the last two entries, or all of them when fewer. */
  function LastTwo(s: seq<HistoryItem>): (r: seq<HistoryItem>)
    ensures |r| == if |s| < 2 then |s| else 2
    ensures r == s[|s| - |r|..]
  {
    if |s| <= 2 then s else s[|s| - 2..]
  }

  /** `items.every(item => item.correct)`. */
  predicate EveryCorrect(items: seq<HistoryItem>) {
    forall i :: 0 <= i < |items| ==> items[i].correct
  }

  /** `items.every(item => !item.correct)`. */
  predicate EveryWrong(items: seq<HistoryItem>) {
    forall i :: 0 <= i < |items| ==> !items[i].correct
  }

  /**
   * `getNextLevel(current, history)`. Medium goes to hard on two consecutive
   * correct answers, else to easy on two consecutive wrong ones or three wrong
   * in all; hard goes to medium on two consecutive wrong or three wrong in all;
   * easy goes to medium on two consecutive correct; otherwise the level stays.
   * The result never moves more than one level.
   */
  function GetNextLevel(current: Level, history: seq<HistoryItem>): (next: Level)
    ensures AtLevel(history, current) == [] ==> next == current
    ensures -1 <= Rank(next) - Rank(current) <= 1
  {
    var recentHistory := AtLevel(history, current);
    if |recentHistory| == 0 then
      current
    else
      var lastTwo := LastTwo(recentHistory);
      var twoConsecutiveCorrect := |lastTwo| == 2 && EveryCorrect(lastTwo);
      var twoConsecutiveWrong := |lastTwo| == 2 && EveryWrong(lastTwo);
      var totalWrong := |Wrong(recentHistory)|;
      match current
      case Medium =>
        if twoConsecutiveCorrect then Hard
        else if twoConsecutiveWrong || totalWrong >= 3 then Easy
        else Medium
      case Hard =>
        if twoConsecutiveWrong || totalWrong >= 3 then Medium else Hard
      case Easy =>
        if twoConsecutiveCorrect then Medium else Easy
  }

  // ---- an index-based reading of the rules, independent of slice and every ----

  /** The last two entries of `s` exist and are both correct. */
  predicate EndsWithTwoCorrect(s: seq<HistoryItem>) {
    |s| >= 2 && s[|s| - 1].correct && s[|s| - 2].correct
  }

  /** The last two entries of `s` exist and are both wrong. */
  predicate EndsWithTwoWrong(s: seq<HistoryItem>) {
    |s| >= 2 && !s[|s| - 1].correct && !s[|s| - 2].correct
  }

  lemma LastTwoReadsEnd(s: seq<HistoryItem>)
    ensures (|LastTwo(s)| == 2 && EveryCorrect(LastTwo(s))) <==> EndsWithTwoCorrect(s)
    ensures (|LastTwo(s)| == 2 && EveryWrong(LastTwo(s))) <==> EndsWithTwoWrong(s)
  {
    if |s| >= 2 {
      var t := LastTwo(s);
      assert t[0] == s[|s| - 2] && t[1] == s[|s| - 1];
    }
  }

  /** At medium: promotion exactly on two consecutive correct; demotion exactly when not promoted and two consecutive or three in all are wrong. */
  lemma MediumRule(history: seq<HistoryItem>)
    ensures var s := AtLevel(history, Medium);
            && (GetNextLevel(Medium, history) == Hard <==> EndsWithTwoCorrect(s))
            && (GetNextLevel(Medium, history) == Easy
                <==> !EndsWithTwoCorrect(s) && (EndsWithTwoWrong(s) || |Wrong(s)| >= 3))
  {
    LastTwoReadsEnd(AtLevel(history, Medium));
  }

  /** At hard: never promoted; demoted to medium exactly on two consecutive or three in all wrong. */
  lemma HardRule(history: seq<HistoryItem>)
    ensures var s := AtLevel(history, Hard);
            && GetNextLevel(Hard, history) != Easy
            && (GetNextLevel(Hard, history) == Medium <==> EndsWithTwoWrong(s) || |Wrong(s)| >= 3)
  {
    LastTwoReadsEnd(AtLevel(history, Hard));
  }

  /** At easy: never demoted; promoted to medium exactly on two consecutive correct. */
  lemma EasyRule(history: seq<HistoryItem>)
    ensures var s := AtLevel(history, Easy);
            && GetNextLevel(Easy, history) != Hard
            && (GetNextLevel(Easy, history) == Medium <==> EndsWithTwoCorrect(s))
  {
    LastTwoReadsEnd(AtLevel(history, Easy));
  }

  /** With no entry recorded at the current level the level stays, whatever else the history holds. */
  lemma NoScopedHistoryStays(current: Level, history: seq<HistoryItem>)
    requires forall x :: x in history ==> x.levelAtTime != current
    ensures GetNextLevel(current, history) == current
  {
  }

  /** With fewer than two entries at the current level the level stays. */
  lemma FewerThanTwoStays(current: Level, history: seq<HistoryItem>)
    requires |AtLevel(history, current)| < 2
    ensures GetNextLevel(current, history) == current
  {
  }

  /** The decision is a function of the entries recorded at the current level alone. */
  lemma OnlyScopedHistoryMatters(current: Level, history: seq<HistoryItem>)
    ensures GetNextLevel(current, history) == GetNextLevel(current, AtLevel(history, current))
  {
    AtLevelIdempotent(history, current);
  }

  /** An entry recorded at another level, inserted anywhere, never changes the decision. */
  lemma OtherLevelEntryIgnored(current: Level, before: seq<HistoryItem>, x: HistoryItem, after: seq<HistoryItem>)
    requires x.levelAtTime != current
    ensures GetNextLevel(current, before + [x] + after) == GetNextLevel(current, before + after)
  {
    ScopeSkipsOtherEntry(current, before, x, after);
    SameScopeSameDecision(current, before + [x] + after, before + after);
  }

  lemma ScopeSkipsOtherEntry(current: Level, before: seq<HistoryItem>, x: HistoryItem, after: seq<HistoryItem>)
    requires x.levelAtTime != current
    ensures AtLevel(before + [x] + after, current) == AtLevel(before + after, current)
  {
    var none := AtLevel([x], current);
    assert none == [] by {
      assert [x][1..] == [];
    }
    calc {
      AtLevel(before + [x] + after, current);
      { AtLevelAppend(before + [x], after, current); }
      AtLevel(before + [x], current) + AtLevel(after, current);
      { AtLevelAppend(before, [x], current); }
      AtLevel(before, current) + none + AtLevel(after, current);
      { assert AtLevel(before, current) + none == AtLevel(before, current); }
      AtLevel(before, current) + AtLevel(after, current);
      { AtLevelAppend(before, after, current); }
      AtLevel(before + after, current);
    }
  }

  lemma SameScopeSameDecision(current: Level, h1: seq<HistoryItem>, h2: seq<HistoryItem>)
    requires AtLevel(h1, current) == AtLevel(h2, current)
    ensures GetNextLevel(current, h1) == GetNextLevel(current, h2)
  {
  }

  lemma {:induction false} AllAtLevel(h: seq<HistoryItem>, level: Level)
    requires forall i :: 0 <= i < |h| ==> h[i].levelAtTime == level
    ensures AtLevel(h, level) == h
  {
    if h != [] {
      AllAtLevel(h[1..], level);
    }
  }

  /** Promotion takes precedence over the three-wrong demotion at medium. */
  lemma PromotionBeatsDemotion(w: HistoryItem, r: HistoryItem)
    requires w.levelAtTime == Medium && !w.correct
    requires r.levelAtTime == Medium && r.correct
    ensures GetNextLevel(Medium, [w, w, w, r, r]) == Hard
  {
    var h := [w, w, w, r, r];
    AllAtLevel(h, Medium);
    LastTwoReadsEnd(h);
    assert EndsWithTwoCorrect(h);
  }

  /** Three wrong answers in all demote from hard although the last two are not both wrong. */
  lemma ThreeWrongDemoteFromHard(w: HistoryItem, r: HistoryItem)
    requires w.levelAtTime == Hard && !w.correct
    requires r.levelAtTime == Hard && r.correct
    ensures GetNextLevel(Hard, [w, r, w, r, w]) == Medium
  {
    var h := [w, r, w, r, w];
    assert |Wrong(h)| == 3 by {
      assert h == [w, r] + ([w, r] + [w]);
      WrongAppend([w, r], [w, r] + [w]);
      WrongAppend([w, r], [w]);
    }
    assert AtLevel(h, Hard) == h by {
      AllAtLevel(h, Hard);
    }
    HardRule(h);
  }

  /** Two wrong answers that are not consecutive leave hard unchanged. */
  lemma TwoScatteredWrongKeepHard(w: HistoryItem, r: HistoryItem)
    requires w.levelAtTime == Hard && !w.correct
    requires r.levelAtTime == Hard && r.correct
    ensures GetNextLevel(Hard, [r, w, r, w, r]) == Hard
  {
    var h := [r, w, r, w, r];
    assert |Wrong(h)| == 2 by {
      assert h == [r, w] + ([r, w] + [r]);
      WrongAppend([r, w], [r, w] + [r]);
      WrongAppend([r, w], [r]);
    }
    assert AtLevel(h, Hard) == h by {
      AllAtLevel(h, Hard);
    }
    LastTwoReadsEnd(h);
    assert !EndsWithTwoWrong(h);
  }
}
