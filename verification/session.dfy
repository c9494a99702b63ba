/**
 * The session store: one object holding the learner's level, history,
 * current problem, hint stage and completion flag, updated in place by its
 * actions. The clock (`Date.now()`), `Math.random()`, the new session id and
 * the outcome of the hint request are parameters of the actions that read
 * them.
 */
module Session {
  import opened Types
  import Check
  import Items
  import Adapt
  import Metrics

  /** A session ends once this many answers are recorded. */
  const SessionLength: nat := 10

  /** The recency list keeps this many problem ids. */
  const RecentWindow: nat := 5

  const CorrectExplanation := "Great job! You solved this problem correctly."
  const WrongExplanation := "Not quite right. Let's review the steps for this type of problem."

  datatype Feedback = Feedback(correct: bool, explanation: string)

  /** Every field of the store at one moment. */
  datatype SessionState = SessionState(
    currentLevel: Level,
    history: seq<HistoryItem>,
    problemStartAt: Option<int>,
    recentProblemIds: seq<string>,
    judgeMode: bool,
    problems: seq<Problem>,
    currentProblem: Option<Problem>,
    isSubmitting: bool,
    feedback: Option<Feedback>,
    hints: seq<string>,
    dynamicHints: seq<string>,
    currentHintIndex: nat,
    isLoadingHint: bool,
    sessionComplete: bool,
    sessionId: string)

  // ---- the recency list ----

  /** `s.slice(-5)`: the last five elements, or all of them when fewer. */
  function LastFive<T>(s: seq<T>): seq<T> {
    if |s| <= RecentWindow then s else s[|s| - RecentWindow..]
  }

  /** The problem ids of a history, in order. */
  function Ids(h: seq<HistoryItem>): seq<string> {
    if h == [] then [] else Ids(h[..|h| - 1]) + [h[|h| - 1].problemId]
  }

  lemma {:induction false} IdsAt(h: seq<HistoryItem>)
    ensures |Ids(h)| == |h|
    ensures forall i :: 0 <= i < |h| ==> Ids(h)[i] == h[i].problemId
  {
    if h != [] {
      IdsAt(h[..|h| - 1]);
    }
  }

  /** Keeping the last five after each append is keeping the last five of everything appended. */
  lemma LastFiveAbsorbs<T>(s: seq<T>, x: T)
    ensures LastFive(LastFive(s) + [x]) == LastFive(s + [x])
  {
    var t := LastFive(s);
    assert t + [x] == (s + [x])[|s| - |t|..];
  }

  /** The recency list of a history: the ids of its last five items. */
  function RecentIds(h: seq<HistoryItem>): seq<string> {
    LastFive(Ids(h))
  }

  /** The recency list holds at most five ids: those of the last five items, in order. */
  lemma RecentIdsAreLastIds(h: seq<HistoryItem>)
    ensures var r := RecentIds(h);
            && |r| == (if |h| < RecentWindow then |h| else RecentWindow)
            && forall k :: 0 <= k < |r| ==> r[k] == h[|h| - |r| + k].problemId
  {
    IdsAt(h);
    var ids := Ids(h);
    var d := if |ids| <= RecentWindow then 0 else |ids| - RecentWindow;
    assert RecentIds(h) == ids[d..];
    forall k | 0 <= k < |ids| - d
      ensures ids[d..][k] == h[d + k].problemId
    {
      assert ids[d..][k] == ids[d + k];
    }
  }

  /** Recording an item moves the recency list exactly as `record` does. */
  lemma {:induction false} RecentIdsAppend(h: seq<HistoryItem>, item: HistoryItem)
    ensures RecentIds(h + [item]) == LastFive(RecentIds(h) + [item.problemId])
    ensures |RecentIds(h + [item])| > 0 && RecentIds(h + [item])[|RecentIds(h + [item])| - 1] == item.problemId
  {
    assert (h + [item])[..|h|] == h;
    LastFiveAbsorbs(Ids(h), item.problemId);
  }

  /**
   * What every reachable state satisfies: the recency list is the ids of the
   * last five answers, the hint stage is at most 2 and is non-zero only with
   * a problem on screen, one generated hint is held exactly at stage 2, and
   * a complete session holds at least ten answers.
   */
  predicate Consistent(s: SessionState) {
    && s.recentProblemIds == RecentIds(s.history)
    && s.currentHintIndex <= 2
    && (s.currentHintIndex > 0 ==> s.currentProblem.Some?)
    && |s.dynamicHints| == (if s.currentHintIndex == 2 then 1 else 0)
    && (s.sessionComplete ==> |s.history| >= SessionLength)
  }

  /** The state `clearSession` installs: a fresh session that keeps only the problem list. */
  function Cleared(problems: seq<Problem>, sessionId: string): (s: SessionState)
    ensures Consistent(s)
    ensures s.history == [] && s.currentLevel == Medium && !s.sessionComplete
  {
    SessionState(Medium, [], None, [], false, problems, None, false, None, [], [], 0, false, false, sessionId)
  }

  /** The state after `record(item)`: the item appended, the recency list moved, timing stopped. */
  function Recorded(s: SessionState, item: HistoryItem): SessionState {
    s.(history := s.history + [item],
       recentProblemIds := LastFive(s.recentProblemIds + [item.problemId]),
       problemStartAt := None)
  }

  /** Recording an item keeps a state consistent and leaves the new item's id last in the recency list. */
  lemma RecordKeepsConsistent(s: SessionState, item: HistoryItem)
    requires Consistent(s)
    ensures Consistent(Recorded(s, item))
    ensures var r := Recorded(s, item).recentProblemIds; |r| > 0 && r[|r| - 1] == item.problemId
  {
    RecentIdsAppend(s.history, item);
  }

  // ---- the effect of the actions that branch, on the state as a value ----

  /** The history item a submission judged `correct` records in state `s`. */
  function SubmittedItem(s: SessionState, correct: bool, now: int, submittedAt: int): HistoryItem
    requires s.currentProblem.Some? && s.problemStartAt.Some?
  {
    HistoryItem(s.currentProblem.value.id, s.currentLevel, correct, now - s.problemStartAt.value,
                s.currentHintIndex > 0, submittedAt)
  }

  /** The feedback shown for a verdict. */
  function FeedbackFor(correct: bool): Feedback {
    Feedback(correct, if correct then CorrectExplanation else WrongExplanation)
  }

  /** The guard of `submitAnswer`: a problem is shown, no submission is running and timing has started. */
  predicate CanSubmit(s: SessionState) {
    s.currentProblem.Some? && !s.isSubmitting && s.problemStartAt.Some?
  }

  /**
   * The state after `submitAnswer(answer)`: unchanged when refused;
   * otherwise the item is recorded with its feedback, and either the session
   * completes at ten answers, or the level becomes `getNextLevel` of the old
   * level over the new history.
   */
  function Submitted(s: SessionState, answer: string, now: int, submittedAt: int): SessionState {
    if !CanSubmit(s) then s
    else Judged(s, Check.IsCorrect(s.currentProblem.value, answer), now, submittedAt)
  }

  /** An accepted submission, once the verdict `correct` is known. */
  function Judged(s: SessionState, correct: bool, now: int, submittedAt: int): SessionState
    requires CanSubmit(s)
  {
    var item := SubmittedItem(s, correct, now, submittedAt);
    var recorded := Recorded(s.(feedback := Some(FeedbackFor(correct))), item);
    if |recorded.history| >= SessionLength then recorded.(sessionComplete := true)
    else recorded.(currentLevel := Adapt.GetNextLevel(s.currentLevel, recorded.history))
  }

  /**
   * What a submission does: refused, nothing changes; accepted, exactly one
   * item is appended that records the problem, the level before adaptation,
   * the verdict of `isCorrect`, the elapsed time and whether a hint was used;
   * the feedback carries the same verdict; timing stops; the session
   * completes at ten answers with the level kept, and otherwise the level is
   * the adapter's decision over the new history; the recency list moves as
   * `record` moves it; no other field changes.
   */
  lemma SubmitRecords(s: SessionState, answer: string, now: int, submittedAt: int)
    ensures !CanSubmit(s) ==> Submitted(s, answer, now, submittedAt) == s
    ensures CanSubmit(s) ==>
      var t := Submitted(s, answer, now, submittedAt);
      && |t.history| == |s.history| + 1
      && t.history[..|s.history|] == s.history
      && var item := t.history[|s.history|];
      && item.problemId == s.currentProblem.value.id
      && item.levelAtTime == s.currentLevel
      && (item.correct <==> Check.IsCorrect(s.currentProblem.value, answer))
      && item.timeMs == now - s.problemStartAt.value
      && (item.usedHint <==> s.currentHintIndex > 0)
      && item.submittedAt == submittedAt
      && t.feedback == Some(FeedbackFor(item.correct))
      && t.problemStartAt.None? && !t.isSubmitting
      && (|t.history| >= SessionLength ==> t.sessionComplete && t.currentLevel == s.currentLevel)
      && (|t.history| < SessionLength ==> t.currentLevel == Adapt.GetNextLevel(s.currentLevel, t.history)
                                          && t.sessionComplete == s.sessionComplete)
      && t.recentProblemIds == LastFive(s.recentProblemIds + [item.problemId])
      && t.(history := s.history, recentProblemIds := s.recentProblemIds, feedback := s.feedback,
            problemStartAt := s.problemStartAt, currentLevel := s.currentLevel,
            sessionComplete := s.sessionComplete) == s
  {
    if CanSubmit(s) {
      var t := Submitted(s, answer, now, submittedAt);
      assert t.history[..|s.history|] == s.history;
    }
  }

  /** A submission keeps the state consistent. */
  lemma SubmitKeepsConsistent(s: SessionState, answer: string, now: int, submittedAt: int)
    requires Consistent(s)
    ensures Consistent(Submitted(s, answer, now, submittedAt))
  {
    if CanSubmit(s) {
      var correct := Check.IsCorrect(s.currentProblem.value, answer);
      RecordKeepsConsistent(s.(feedback := Some(FeedbackFor(correct))), SubmittedItem(s, correct, now, submittedAt));
    }
  }

  /** A second submission on the same problem is refused: the first one stopped the timer. */
  lemma SecondSubmitRefused(s: SessionState, a1: string, n1: int, t1: int, a2: string, n2: int, t2: int)
    requires CanSubmit(s)
    ensures !CanSubmit(Submitted(s, a1, n1, t1))
    ensures Submitted(Submitted(s, a1, n1, t1), a2, n2, t2) == Submitted(s, a1, n1, t1)
  {
  }

  /** A submission moves the level by at most one step, and only when the session goes on. */
  lemma SubmitMovesLevelAtMostOneStep(s: SessionState, answer: string, now: int, submittedAt: int)
    ensures var t := Submitted(s, answer, now, submittedAt);
            -1 <= Rank(t.currentLevel) - Rank(s.currentLevel) <= 1
  {
  }

  /**
   * The state after `requestHint()` given the outcome of the hint service:
   * unchanged when refused (no problem, or a hint loading); stage 0 goes to
   * 1; stage 1 goes to 2 with the arrived hint appended, or stays at 1 on
   * failure; at stage 2 or beyond only the loading flag is raised, and
   * nothing lowers it again.
   */
  function HintRequested(s: SessionState, outcome: Option<string>): SessionState {
    if s.currentProblem.None? || s.isLoadingHint then s
    else if s.currentHintIndex == 0 then s.(currentHintIndex := 1)
    else if s.currentHintIndex == 1 then
      (if outcome.Some? then s.(currentHintIndex := 2, dynamicHints := s.dynamicHints + [outcome.value]) else s)
    else s.(isLoadingHint := true)
  }

  /**
   * What a hint request does: refused, nothing changes; accepted, the stage
   * advances by one from 0 without calling the service and from 1 only when
   * a hint arrives, which is then the one hint appended; a failure at stage 1
   * changes nothing; the loading flag stays raised exactly when the stage was
   * 2 or more; no other field changes.
   */
  lemma HintRequestEffect(s: SessionState, outcome: Option<string>)
    ensures s.currentProblem.None? || s.isLoadingHint ==> HintRequested(s, outcome) == s
    ensures s.currentProblem.Some? && !s.isLoadingHint ==>
      var t := HintRequested(s, outcome);
      var advances := s.currentHintIndex == 0 || (s.currentHintIndex == 1 && outcome.Some?);
      && t.currentHintIndex == (if advances then s.currentHintIndex + 1 else s.currentHintIndex)
      && t.dynamicHints == (if s.currentHintIndex == 1 && outcome.Some? then s.dynamicHints + [outcome.value] else s.dynamicHints)
      && (t.isLoadingHint <==> s.currentHintIndex >= 2)
      && t.(currentHintIndex := s.currentHintIndex, dynamicHints := s.dynamicHints, isLoadingHint := false)
         == s.(isLoadingHint := false)
  {
  }

  /**
   * A request at stage 2 leaves the loading flag raised for good: loading
   * the next problem does not lower it, so every later request is refused.
   */
  lemma HintLockPersists(s: SessionState, outcome: Option<string>, random: real, now: int, later: Option<string>)
    requires s.currentProblem.Some? && !s.isLoadingHint && s.currentHintIndex >= 2
    requires 0.0 <= random < 1.0
    ensures var t := HintRequested(s, outcome);
            var u := NextLoaded(t, random, now);
            && t.isLoadingHint && u.isLoadingHint
            && HintRequested(u, later) == u
  {
  }

  /** A hint request keeps the state consistent: the stage never passes 2 and at most one generated hint is held. */
  lemma HintKeepsConsistent(s: SessionState, outcome: Option<string>)
    requires Consistent(s)
    ensures Consistent(HintRequested(s, outcome))
    ensures s.currentHintIndex <= HintRequested(s, outcome).currentHintIndex <= s.currentHintIndex + 1
  {
  }

  /** Hint requests in a row, whatever their outcomes, never take the stage past 2. */
  function HintsRequested(s: SessionState, outcomes: seq<Option<string>>): SessionState
    decreases |outcomes|
  {
    if outcomes == [] then s else HintsRequested(HintRequested(s, outcomes[0]), outcomes[1..])
  }

  lemma {:induction false} HintStageBounded(s: SessionState, outcomes: seq<Option<string>>)
    decreases |outcomes|
    requires Consistent(s)
    ensures Consistent(HintsRequested(s, outcomes))
    ensures HintsRequested(s, outcomes).currentHintIndex <= 2
    ensures |HintsRequested(s, outcomes).dynamicHints| <= 1
  {
    if outcomes != [] {
      HintKeepsConsistent(s, outcomes[0]);
      HintStageBounded(HintRequested(s, outcomes[0]), outcomes[1..]);
    }
  }

  /**
   * The state after `loadNextProblem()`: at ten answers the session is
   * marked complete and nothing is picked; when `pickNext` finds nothing the
   * state is unchanged; otherwise the picked problem is shown from a clean
   * hint and feedback slate, timing starts, and the level stays.
   */
  function NextLoaded(s: SessionState, random: real, now: int): (t: SessionState)
    requires 0.0 <= random < 1.0
    ensures |s.history| >= SessionLength ==> t == s.(sessionComplete := true)
    ensures |s.history| < SessionLength ==>
      var next := Items.PickNext(s.currentLevel, s.recentProblemIds, s.problems, random);
      && (next.None? ==> t == s)
      && (next.Some? ==>
            && t == s.(currentProblem := next, hints := next.value.hints, dynamicHints := [],
                       currentHintIndex := 0, feedback := None, isSubmitting := false,
                       problemStartAt := Some(now))
            && next.value.level == s.currentLevel
            && next.value.id !in s.recentProblemIds
            && next.value in s.problems)
  {
    if |s.history| >= SessionLength then s.(sessionComplete := true)
    else
      var next := Items.PickNext(s.currentLevel, s.recentProblemIds, s.problems, random);
      if next.None? then s
      else s.(currentProblem := next, hints := next.value.hints, dynamicHints := [],
              currentHintIndex := 0, feedback := None, isSubmitting := false,
              problemStartAt := Some(now))
  }

  /** Loading keeps the state consistent. */
  lemma LoadKeepsConsistent(s: SessionState, random: real, now: int)
    requires Consistent(s) && 0.0 <= random < 1.0
    ensures Consistent(NextLoaded(s, random, now))
  {
  }

  /** A problem that was served recently is not served again while it is among the last five answered. */
  lemma LoadedProblemNotRecent(s: SessionState, random: real, now: int)
    requires Consistent(s) && 0.0 <= random < 1.0
    requires Items.PickNext(s.currentLevel, s.recentProblemIds, s.problems, random).Some? && |s.history| < SessionLength
    ensures forall k :: |s.history| - RecentWindow <= k < |s.history| && 0 <= k ==>
              NextLoaded(s, random, now).currentProblem.value.id != s.history[k].problemId
  {
    forall k | |s.history| - RecentWindow <= k < |s.history| && 0 <= k
      ensures s.history[k].problemId in s.recentProblemIds
    {
      var r := RecentIds(s.history);
      RecentIdsAreLastIds(s.history);
      assert r[k - (|s.history| - |r|)] == s.history[k].problemId;
    }
  }

  /**
   * Loading does not wait for the shown problem to be answered: whatever is
   * on screen, a pick replaces it, restarts the timer and records nothing.
   */
  lemma LoadReplacesActiveProblem(s: SessionState, random: real, now: int)
    requires 0.0 <= random < 1.0 && |s.history| < SessionLength
    requires Items.PickNext(s.currentLevel, s.recentProblemIds, s.problems, random).Some?
    ensures var t := NextLoaded(s, random, now);
            && t.currentProblem == Items.PickNext(s.currentLevel, s.recentProblemIds, s.problems, random)
            && t.problemStartAt == Some(now)
            && t.history == s.history
  {
  }

  /**
   * The `useSessionStore` store. Its state is one record value, as in
   * zustand: `get()` reads it and `set(partial)` replaces it with a copy in
   * which the listed fields take their new values.
   */
  class SessionStore {
    var state: SessionState

    predicate Valid()
      reads this
    {
      Consistent(state)
    }

    /** The initial state: medium level, nothing recorded, no problems loaded. */
    constructor(sessionId: string)
      ensures state == Cleared([], sessionId)
      ensures Valid()
    {
      state := Cleared([], sessionId);
    }

    /** `setProblems(problems)`. */
    method SetProblems(problems: seq<Problem>)
      requires Valid()
      modifies this
      ensures Valid()
      ensures state == old(state).(problems := problems)
    {
      state := state.(problems := problems);
    }

    /** `startNewProblem(level?)` at clock reading `now`: start timing, at the given level or the current one. */
    method StartNewProblem(level: Option<Level>, now: int)
      requires Valid()
      modifies this
      ensures Valid()
      ensures state == old(state).(problemStartAt := Some(now),
                                   currentLevel := if level.Some? then level.value else old(state.currentLevel))
    {
      var newLevel := if level.Some? then level.value else state.currentLevel;
      state := state.(problemStartAt := Some(now), currentLevel := newLevel);
    }

    /** `record(historyItem)`: append the item, move the recency list, stop timing. */
    method Record(item: HistoryItem)
      requires Valid()
      modifies this
      ensures Valid()
      ensures state == Recorded(old(state), item)
    {
      RecordKeepsConsistent(state, item);
      state := state.(history := state.history + [item],
                      recentProblemIds := LastFive(state.recentProblemIds + [item.problemId]),
                      problemStartAt := None);
    }

    /** `setLevel(level)`. */
    method SetLevel(level: Level)
      requires Valid()
      modifies this
      ensures Valid()
      ensures state == old(state).(currentLevel := level)
    {
      state := state.(currentLevel := level);
    }

    /** `setJudgeMode(on)`. */
    method SetJudgeMode(on: bool)
      requires Valid()
      modifies this
      ensures Valid()
      ensures state == old(state).(judgeMode := on)
    {
      state := state.(judgeMode := on);
    }

    /** `hydrateFromStorage()`: nothing is persisted, so nothing changes. */
    method HydrateFromStorage()
      requires Valid()
      ensures Valid()
      ensures state == old(state)
    {
    }

    /** `clearSession()` with `newSessionId` the freshly generated id: a fresh session that keeps the problem list. */
    method ClearSession(newSessionId: string)
      requires Valid()
      modifies this
      ensures Valid()
      ensures state == Cleared(old(state.problems), newSessionId)
    {
      state := state.(
        currentLevel := Medium,
        history := [],
        problemStartAt := None,
        recentProblemIds := [],
        judgeMode := false,
        currentProblem := None,
        isSubmitting := false,
        feedback := None,
        hints := [],
        dynamicHints := [],
        currentHintIndex := 0,
        isLoadingHint := false,
        sessionComplete := false,
        sessionId := newSessionId);
    }

    /** `resetSession()`: the same as `clearSession()`. */
    method ResetSession(newSessionId: string)
      requires Valid()
      modifies this
      ensures Valid()
      ensures state == Cleared(old(state.problems), newSessionId)
    {
      ClearSession(newSessionId);
    }

    /**
     * `loadNextProblem()` with `random` the value `Math.random()` returned
     * inside `pickNext` and `now` the clock reading of `startNewProblem`.
     */
    method LoadNextProblem(random: real, now: int)
      requires Valid()
      requires 0.0 <= random < 1.0
      modifies this
      ensures Valid()
      ensures state == NextLoaded(old(state), random, now)
    {
      LoadKeepsConsistent(state, random, now);
      if |state.history| >= SessionLength {
        state := state.(sessionComplete := true);
        return;
      }
      var level := state.currentLevel;
      var nextProblem := Items.PickNext(level, state.recentProblemIds, state.problems, random);
      if nextProblem.None? {
        return;
      }
      state := state.(currentProblem := nextProblem, hints := nextProblem.value.hints, dynamicHints := [],
                      currentHintIndex := 0, feedback := None, isSubmitting := false);
      StartNewProblem(Some(level), now);
    }

    /**
     * `submitAnswer(answer)` with `now` and `submittedAt` the two clock
     * readings taken after the simulated delay.
     */
    method SubmitAnswer(answer: string, now: int, submittedAt: int)
      requires Valid()
      modifies this
      ensures Valid()
      ensures state == Submitted(old(state), answer, now, submittedAt)
    {
      if state.currentProblem.None? || state.isSubmitting || state.problemStartAt.None? {
        return;
      }
      var before := state;
      SubmitKeepsConsistent(before, answer, now, submittedAt);
      state := state.(isSubmitting := true);

      var correct := Check.IsCorrect(before.currentProblem.value, answer);
      state := state.(feedback := Some(FeedbackFor(correct)));

      var item := SubmittedItem(before, correct, now, submittedAt);
      assert Submitted(before, answer, now, submittedAt) == Judged(before, correct, now, submittedAt);
      // `get().record(item)`, whose effect is `Recorded`
      state := Recorded(state, item);

      var newHistoryLength := |before.history| + 1;
      if newHistoryLength >= SessionLength {
        state := state.(sessionComplete := true, isSubmitting := false);
        assert state == Judged(before, correct, now, submittedAt);
        return;
      }
      var newLevel := Adapt.GetNextLevel(before.currentLevel, before.history + [item]);
      if newLevel != before.currentLevel {
        state := state.(currentLevel := newLevel);
      }
      state := state.(isSubmitting := false);
      assert state == Judged(before, correct, now, submittedAt);
    }

    /**
     * `requestHint()` with `outcome` the generated hint when the hint
     * service answers, or nothing when it fails.
     */
    method RequestHint(outcome: Option<string>)
      requires Valid()
      modifies this
      ensures Valid()
      ensures state == HintRequested(old(state), outcome)
    {
      if state.currentProblem.None? || state.isLoadingHint {
        return;
      }
      HintKeepsConsistent(state, outcome);
      var before := state;
      state := state.(isLoadingHint := true);
      if before.currentHintIndex == 0 {
        state := state.(currentHintIndex := before.currentHintIndex + 1, isLoadingHint := false);
      } else if before.currentHintIndex == 1 {
        if outcome.Some? {
          state := state.(dynamicHints := before.dynamicHints + [outcome.value],
                          currentHintIndex := before.currentHintIndex + 1, isLoadingHint := false);
        } else {
          state := state.(isLoadingHint := false);
        }
      }
    }

    /** `getPerformanceMetrics()`: the metrics of the recorded history. */
    method GetPerformanceMetrics() returns (m: Metrics.Metrics)
      ensures m == Metrics.MetricsOf(state.history)
    {
      m := Metrics.DeriveMetrics(state.history);
    }
  }
}
