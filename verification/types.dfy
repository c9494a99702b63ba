/**
 * The tutor's records: difficulty levels, problems of the bank and the
 * history items a session appends, with the filters over a history that
 * the adapter, the metrics and the summary share.
 */
module Types {

  datatype Option<+T> = None | Some(value: T)

  /** The three difficulty levels, ordered easy < medium < hard. */
  datatype Level = Easy | Medium | Hard

  /** The position of a level in the order easy < medium < hard. */
  function Rank(l: Level): nat {
    match l
    case Easy => 0
    case Medium => 1
    case Hard => 2
  }

  /** Multiple choice (`'mcq'`) or free text (`'short'`). */
  datatype ProblemType = Mcq | Short

  datatype Problem = Problem(
    id: string,
    stem: string,
    kind: ProblemType,
    choices: Option<seq<string>>,
    answerKey: seq<string>,
    level: Level,
    topic: string,
    hints: seq<string>)

  /** One answered problem; `timeMs` and `submittedAt` are clock readings in milliseconds. */
  datatype HistoryItem = HistoryItem(
    problemId: string,
    levelAtTime: Level,
    correct: bool,
    timeMs: int,
    usedHint: bool,
    submittedAt: int)

  /** `history.filter(h => h.levelAtTime === level)`. */
  function AtLevel(h: seq<HistoryItem>, level: Level): (r: seq<HistoryItem>)
    ensures |r| <= |h|
    ensures forall x :: x in r <==> x in h && x.levelAtTime == level
    ensures forall i :: 0 <= i < |r| ==> r[i].levelAtTime == level
  {
    if h == [] then []
    else (if h[0].levelAtTime == level then [h[0]] else []) + AtLevel(h[1..], level)
  }

  /** `history.filter(h => !h.correct)`. */
  function Wrong(h: seq<HistoryItem>): (r: seq<HistoryItem>)
    ensures |r| <= |h|
    ensures forall x :: x in r <==> x in h && !x.correct
  {
    if h == [] then []
    else (if !h[0].correct then [h[0]] else []) + Wrong(h[1..])
  }

  /** `history.filter(h => h.correct).length`. */
  function CountCorrect(h: seq<HistoryItem>): (n: nat)
    ensures n <= |h|
    ensures n == |h| - |Wrong(h)|
  {
    if h == [] then 0 else (if h[0].correct then 1 else 0) + CountCorrect(h[1..])
  }

  /** Filtering distributes over concatenation. */
  lemma {:induction false} AtLevelAppend(a: seq<HistoryItem>, b: seq<HistoryItem>, level: Level)
    ensures AtLevel(a + b, level) == AtLevel(a, level) + AtLevel(b, level)
  {
    if a == [] {
      assert a + b == b;
    } else {
      assert (a + b)[1..] == a[1..] + b;
      AtLevelAppend(a[1..], b, level);
    }
  }

  /** Filtering twice by the same level is filtering once. */
  lemma {:induction false} AtLevelIdempotent(h: seq<HistoryItem>, level: Level)
    ensures AtLevel(AtLevel(h, level), level) == AtLevel(h, level)
  {
    if h != [] {
      var head := if h[0].levelAtTime == level then [h[0]] else [];
      AtLevelAppend(head, AtLevel(h[1..], level), level);
      AtLevelIdempotent(h[1..], level);
    }
  }

  lemma {:induction false} WrongAppend(a: seq<HistoryItem>, b: seq<HistoryItem>)
    ensures Wrong(a + b) == Wrong(a) + Wrong(b)
  {
    if a == [] {
      assert a + b == b;
    } else {
      assert (a + b)[1..] == a[1..] + b;
      WrongAppend(a[1..], b);
    }
  }

  lemma CountCorrectAppend(a: seq<HistoryItem>, b: seq<HistoryItem>)
    ensures CountCorrect(a + b) == CountCorrect(a) + CountCorrect(b)
  {
    WrongAppend(a, b);
  }
}
