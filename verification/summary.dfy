/**
 * The end-of-session summary: the weak areas (topics of the wrong answers,
 * most frequent first, at most three, padded with generic advice) and the
 * strengths and improvements drawn from accuracy, speed and hint use.
 */
module Summary {
  import opened Types
  import opened Text
  import opened Numeric
  import Metrics

  const NoDataMessage := "No data available for analysis"
  const NoWeakAreasMessage := "No major weak areas detected - great job!"
  const FocusOnAccuracy := "Focus on accuracy over speed"
  const ReviewBasics := "Review basic fraction concepts"

  /** The topics `extractTopicFromProblemId` can return. */
  const TopicNames: set<string> := {"Addition", "Subtraction", "Multiplication", "Division",
    "Simplification", "Comparison", "Conversion", "Word Problems", "General Fractions"}

  /** The two key words of each rule of `extractTopicFromProblemId`, in the order the rules are tried. */
  const Keywords: seq<(string, string)> := [("add", "plus"), ("sub", "minus"), ("mult", "times"), ("div", "divide"),
    ("simplify", "reduce"), ("compare", "greater"), ("convert", "mixed"), ("word", "problem")]

  /** The topic each rule names, in the same order. */
  const RuleTopics: seq<string> := ["Addition", "Subtraction", "Multiplication", "Division",
    "Simplification", "Comparison", "Conversion", "Word Problems"]

  /** Rule `j` fires on the lower-cased id when one of its two key words occurs in it. */
  predicate RuleFires(id: string, j: nat)
    requires j < |Keywords|
  {
    Contains(id, Keywords[j].0) || Contains(id, Keywords[j].1)
  }

  /**
   * `extractTopicFromProblemId(problemId)`: the lower-cased id is searched
   * for eight pairs of key words in a fixed order; the first pair found
   * names the topic, and "General Fractions" is the default.
   */
  function TopicOfId(problemId: string): (topic: string)
    ensures topic in TopicNames
  {
    var id := Lower(problemId);
    if RuleFires(id, 0) then "Addition"
    else if RuleFires(id, 1) then "Subtraction"
    else if RuleFires(id, 2) then "Multiplication"
    else if RuleFires(id, 3) then "Division"
    else if RuleFires(id, 4) then "Simplification"
    else if RuleFires(id, 5) then "Comparison"
    else if RuleFires(id, 6) then "Conversion"
    else if RuleFires(id, 7) then "Word Problems"
    else "General Fractions"
  }

  /**
   * The first rule that fires names the topic: a rule's topic is returned
   * only when that rule fires and no earlier one does.
   */
  lemma TopicOfIdFirstMatch(problemId: string)
    ensures forall j :: 0 <= j < |RuleTopics| && TopicOfId(problemId) == RuleTopics[j] ==>
              && RuleFires(Lower(problemId), j)
              && forall i :: 0 <= i < j ==> !RuleFires(Lower(problemId), i)
  {
    var id := Lower(problemId);
    var topic := TopicOfId(problemId);
    forall j | 0 <= j < |RuleTopics| && topic == RuleTopics[j]
      ensures RuleFires(id, j) && forall i :: 0 <= i < j ==> !RuleFires(id, i)
    {
      assert j == 0 || j == 1 || j == 2 || j == 3 || j == 4 || j == 5 || j == 6 || j == 7;
      assert RuleFires(id, j);
      forall i | 0 <= i < j ensures !RuleFires(id, i) {
        assert i == 0 || i == 1 || i == 2 || i == 3 || i == 4 || i == 5 || i == 6;
      }
    }
  }

  /** "General Fractions" is returned exactly when no rule fires. */
  lemma TopicOfIdDefault(problemId: string)
    ensures TopicOfId(problemId) == "General Fractions" <==>
              forall j :: 0 <= j < |Keywords| ==> !RuleFires(Lower(problemId), j)
  {
    var id := Lower(problemId);
    if TopicOfId(problemId) == "General Fractions" {
      forall j | 0 <= j < |Keywords| ensures !RuleFires(id, j) {
        assert j == 0 || j == 1 || j == 2 || j == 3 || j == 4 || j == 5 || j == 6 || j == 7;
      }
    } else {
      assert RuleFires(id, 0) || RuleFires(id, 1) || RuleFires(id, 2) || RuleFires(id, 3)
          || RuleFires(id, 4) || RuleFires(id, 5) || RuleFires(id, 6) || RuleFires(id, 7);
    }
  }

  /** The topic of an id does not depend on the case of its letters. */
  lemma TopicIgnoresCase(problemId: string)
    ensures TopicOfId(Lower(problemId)) == TopicOfId(problemId)
  {
    LowerIdempotent(problemId);
  }

  /** An id mentioning "add" or "plus" is an addition problem whatever else it mentions. */
  lemma AdditionTakesPrecedence(problemId: string)
    requires Contains(Lower(problemId), "add") || Contains(Lower(problemId), "plus")
    ensures TopicOfId(problemId) == "Addition"
  {
  }

  /** The second test of the division rule never decides: an id containing "divide" contains "div". */
  lemma DivideImpliesDiv(id: string)
    requires Contains(id, "divide")
    ensures Contains(id, "div")
  {
    var i :| OccursAt(id, "divide", i);
    assert id[i..i + 3] == id[i..i + 6][..3];
    assert OccursAt(id, "div", i);
  }

  // ---- tallying the wrong answers by topic ----

  /** The topic of every item, in order. */
  function TopicsOf(items: seq<HistoryItem>): (r: seq<string>)
    ensures |r| == |items|
    ensures forall i :: 0 <= i < |items| ==> r[i] == TopicOfId(items[i].problemId)
  {
    seq(|items|, i requires 0 <= i < |items| => TopicOfId(items[i].problemId))
  }

  /** The distinct elements of `s` in order of first occurrence: the key order of a JavaScript object filled from `s`. */
  function Distinct(s: seq<string>): (r: seq<string>)
    ensures forall x :: x in r <==> x in s
    ensures forall i, j :: 0 <= i < j < |r| ==> r[i] != r[j]
  {
    if s == [] then []
    else
      var init := s[..|s| - 1];
      assert s == init + [s[|s| - 1]];
      var d := Distinct(init);
      if s[|s| - 1] in d then d else d + [s[|s| - 1]]
  }

  /** The number of occurrences of `x` in `s`. */
  function Occurrences(s: seq<string>, x: string): (n: nat)
    ensures n <= |s|
    ensures n > 0 <==> x in s
  {
    if s == [] then 0
    else
      var init := s[..|s| - 1];
      assert s == init + [s[|s| - 1]];
      Occurrences(init, x) + (if s[|s| - 1] == x then 1 else 0)
  }

  /** One `[topic, count]` pair of `Object.entries(topicErrors)`. */
  datatype TopicCount = TopicCount(topic: string, count: nat)

  /** `Object.entries(topicErrors)` once every topic of `ts` is counted: one pair per distinct topic, in first-occurrence order. */
  function Tally(ts: seq<string>): seq<TopicCount> {
    var d := Distinct(ts);
    seq(|d|, j requires 0 <= j < |d| => TopicCount(d[j], Occurrences(ts, d[j])))
  }

  /** The tally holds one entry per distinct topic, in first-occurrence order, each with its number of occurrences. */
  lemma TallyCounts(ts: seq<string>)
    ensures var r := Tally(ts);
            && |r| == |Distinct(ts)|
            && (forall i :: 0 <= i < |r| ==> r[i].topic == Distinct(ts)[i])
            && (forall i :: 0 <= i < |r| ==> r[i].count == Occurrences(ts, r[i].topic) > 0)
            && (forall i, j :: 0 <= i < j < |r| ==> r[i] != r[j])
  {
  }

  /** `Object.entries` of a map whose keys, in insertion order, are `keys`. */
  function Entries(keys: seq<string>, topicErrors: map<string, nat>): seq<TopicCount>
    requires forall t :: t in keys ==> t in topicErrors
  {
    seq(|keys|, j requires 0 <= j < |keys| => TopicCount(keys[j], topicErrors[keys[j]]))
  }

  /**
   * The `forEach` that fills `topicErrors`: a map from topic to count,
   * whose keys keep their insertion order, read back as its entries.
   */
  method TallyTopics(incorrectAnswers: seq<HistoryItem>) returns (entries: seq<TopicCount>)
    ensures entries == Tally(TopicsOf(incorrectAnswers))
  {
    ghost var ts := TopicsOf(incorrectAnswers);
    var keys: seq<string> := [];
    var topicErrors: map<string, nat> := map[];
    var i := 0;
    while i < |incorrectAnswers|
      invariant 0 <= i <= |incorrectAnswers|
      invariant Counted(ts[..i], keys, topicErrors)
    {
      var topic := TopicOfId(incorrectAnswers[i].problemId);
      assert topic == ts[i];
      ghost var keys0, topicErrors0 := keys, topicErrors;
      var current := if topic in topicErrors then topicErrors[topic] else 0;
      if topic !in topicErrors {
        keys := keys + [topic];
      }
      topicErrors := topicErrors[topic := current + 1];
      CountNext(ts, i, keys0, topicErrors0, keys, topicErrors);
      i := i + 1;
    }
    assert ts[..i] == ts;
    CountedEntries(ts, keys, topicErrors);
    entries := Entries(keys, topicErrors);
  }

  /** The loop step of `TallyTopics`, on the `i`-th topic. */
  lemma CountNext(ts: seq<string>, i: nat, keys: seq<string>, topicErrors: map<string, nat>,
                  keys': seq<string>, topicErrors': map<string, nat>)
    requires i < |ts|
    requires Counted(ts[..i], keys, topicErrors)
    requires keys' == if ts[i] in topicErrors then keys else keys + [ts[i]]
    requires topicErrors' == topicErrors[ts[i] := if ts[i] in topicErrors then topicErrors[ts[i]] + 1 else 1]
    ensures Counted(ts[..i + 1], keys', topicErrors')
  {
    assert ts[..i + 1] == ts[..i] + [ts[i]];
    CountOne(ts[..i], ts[i], keys, topicErrors);
  }

  /** Once every topic is counted, the entries of the map are the tally. */
  lemma CountedEntries(ts: seq<string>, keys: seq<string>, topicErrors: map<string, nat>)
    requires Counted(ts, keys, topicErrors)
    ensures forall t :: t in keys ==> t in topicErrors
    ensures Entries(keys, topicErrors) == Tally(ts)
  {
  }

  /** `keys`, in insertion order, and `topicErrors` hold the distinct topics of `ts` and their counts. */
  ghost predicate Counted(ts: seq<string>, keys: seq<string>, topicErrors: map<string, nat>) {
    && keys == Distinct(ts)
    && (forall t :: t in topicErrors <==> t in keys)
    && (forall t :: t in topicErrors ==> topicErrors[t] == Occurrences(ts, t))
  }

  /** Counting one more topic keeps `keys` and `topicErrors` in step with the topics seen. */
  lemma CountOne(ts: seq<string>, topic: string, keys: seq<string>, topicErrors: map<string, nat>)
    requires Counted(ts, keys, topicErrors)
    ensures var current := if topic in topicErrors then topicErrors[topic] else 0;
            Counted(ts + [topic],
                    if topic in topicErrors then keys else keys + [topic],
                    topicErrors[topic := current + 1])
  {
    DistinctSnoc(ts, topic);
    OccurrencesSnoc(ts, topic);
  }

  lemma DistinctSnoc(s: seq<string>, x: string)
    ensures Distinct(s + [x]) == if x in Distinct(s) then Distinct(s) else Distinct(s) + [x]
  {
    assert (s + [x])[..|s|] == s;
  }

  lemma OccurrencesSnoc(s: seq<string>, x: string)
    ensures forall t :: Occurrences(s + [x], t) == Occurrences(s, t) + (if x == t then 1 else 0)
  {
    assert (s + [x])[..|s|] == s;
  }

  // ---- the stable sort by descending count ----

  /** Descending by count. */
  predicate Descending(s: seq<TopicCount>) {
    forall i, j :: 0 <= i < j < |s| ==> s[i].count >= s[j].count
  }

  /** The entries of `s` with count `c`, in order. */
  function WithCount(s: seq<TopicCount>, c: nat): seq<TopicCount> {
    if s == [] then []
    else (if s[0].count == c then [s[0]] else []) + WithCount(s[1..], c)
  }

  /** Inserts `e` before the first entry whose count is not above its own. */
  function InsertByCount(e: TopicCount, l: seq<TopicCount>): seq<TopicCount> {
    if l == [] || e.count >= l[0].count then [e] + l
    else [l[0]] + InsertByCount(e, l[1..])
  }

  /**
   * `.sort(([, a], [, b]) => b - a)`: a stable sort by descending count. The
   * result is descending, a permutation of the input, and entries of equal
   * count keep their relative order.
   */
  function SortByCount(s: seq<TopicCount>): seq<TopicCount> {
    if s == [] then [] else InsertByCount(s[0], SortByCount(s[1..]))
  }

  lemma {:induction false} SortByCountSorts(s: seq<TopicCount>)
    ensures var r := SortByCount(s);
            && |r| == |s|
            && Descending(r)
            && multiset(r) == multiset(s)
            && forall c :: WithCount(r, c) == WithCount(s, c)
  {
    if s != [] {
      SortByCountSorts(s[1..]);
      SortStep(s, SortByCount(s[1..]));
      InsertKeepsDescending(s[0], SortByCount(s[1..]));
    }
  }

  /** Inserting the head into the sorted tail sorts the whole list. */
  lemma SortStep(s: seq<TopicCount>, rest: seq<TopicCount>)
    requires s != []
    requires Descending(rest) && multiset(rest) == multiset(s[1..])
    requires forall c :: WithCount(rest, c) == WithCount(s[1..], c)
    ensures Descending(InsertByCount(s[0], rest))
    ensures multiset(InsertByCount(s[0], rest)) == multiset(s)
    ensures forall c :: WithCount(InsertByCount(s[0], rest), c) == WithCount(s, c)
  {
    assert s == [s[0]] + s[1..];
    InsertKeepsDescending(s[0], rest);
    InsertIsPermutation(s[0], rest);
    forall c ensures WithCount(InsertByCount(s[0], rest), c) == WithCount(s, c) {
      InsertIsStable(s[0], rest, c);
      WithCountAppend([s[0]], s[1..], c);
      WithCountAppend([s[0]], rest, c);
    }
  }

  lemma {:induction false} WithCountAppend(a: seq<TopicCount>, b: seq<TopicCount>, c: nat)
    ensures WithCount(a + b, c) == WithCount(a, c) + WithCount(b, c)
  {
    if a == [] {
      assert a + b == b;
    } else {
      assert (a + b)[1..] == a[1..] + b;
      WithCountAppend(a[1..], b, c);
    }
  }

  lemma {:induction false} InsertKeepsDescending(e: TopicCount, l: seq<TopicCount>)
    requires Descending(l)
    ensures Descending(InsertByCount(e, l))
    ensures |InsertByCount(e, l)| == |l| + 1
    ensures InsertByCount(e, l)[0] == e || InsertByCount(e, l)[0] == l[0]
  {
    if l != [] && e.count < l[0].count {
      InsertKeepsDescending(e, l[1..]);
      var tail := InsertByCount(e, l[1..]);
      assert forall k :: 0 <= k < |tail| ==> tail[k].count <= l[0].count by {
        forall k | 0 <= k < |tail| ensures tail[k].count <= l[0].count {
          InsertMembers(e, l[1..]);
          assert tail[k] in tail;
          if tail[k] != e {
            var m :| 0 <= m < |l[1..]| && l[1..][m] == tail[k];
            assert l[m + 1] == tail[k];
          }
        }
      }
    }
  }

  lemma {:induction false} InsertMembers(e: TopicCount, l: seq<TopicCount>)
    ensures forall x :: x in InsertByCount(e, l) <==> x == e || x in l
  {
    if l != [] && e.count < l[0].count {
      InsertMembers(e, l[1..]);
      assert l == [l[0]] + l[1..];
    }
  }

  lemma {:induction false} InsertIsPermutation(e: TopicCount, l: seq<TopicCount>)
    ensures multiset(InsertByCount(e, l)) == multiset([e] + l)
  {
    if l != [] && e.count < l[0].count {
      InsertIsPermutation(e, l[1..]);
      assert l == [l[0]] + l[1..];
    }
  }

  /** Inserting keeps the order of the entries of every count: `e` lands before the entries of its own count. */
  lemma {:induction false} InsertIsStable(e: TopicCount, l: seq<TopicCount>, c: nat)
    ensures WithCount(InsertByCount(e, l), c) == WithCount([e] + l, c)
  {
    if l != [] && e.count < l[0].count {
      var rest := InsertByCount(e, l[1..]);
      InsertIsStable(e, l[1..], c);
      assert ([l[0]] + rest)[1..] == rest;
      assert ([e] + l[1..])[1..] == l[1..];
      assert ([e] + l)[1..] == l;
    }
  }

  /** `.slice(0, 3)`. */
  function TopThree(s: seq<TopicCount>): (r: seq<TopicCount>)
    ensures |r| == if |s| < 3 then |s| else 3
    ensures r == s[..|r|]
  {
    if |s| <= 3 then s else s[..3]
  }

  // ---- the lines ----

  /** `Math.round((count / total) * 100)`, as a whole percentage. */
  function Percentage(count: nat, total: nat): (p: nat)
    requires total > 0
    ensures count <= total ==> p <= 100
  {
    var r := RoundDiv(100 * count, total);
    MulCancel(total, 0, 2 * r + 1);
    assert count <= total ==> r <= 100 by {
      if count <= total {
        PercentInRange(count, total);
      }
    }
    r
  }

  /** `${topic} problems (${percentage}% of errors)`. */
  function AreaLine(e: TopicCount, total: nat): string
    requires total > 0
  {
    e.topic + " problems (" + NatToString(Percentage(e.count, total)) + "% of errors)"
  }

  function AreaLines(entries: seq<TopicCount>, total: nat): (r: seq<string>)
    requires total > 0
    ensures |r| == |entries|
    ensures forall i :: 0 <= i < |entries| ==> r[i] == AreaLine(entries[i], total)
  {
    seq(|entries|, i requires 0 <= i < |entries| => AreaLine(entries[i], total))
  }

  lemma AreaLinesSnoc(entries: seq<TopicCount>, i: nat, total: nat)
    requires i < |entries| && total > 0
    ensures AreaLines(entries[..i + 1], total) == AreaLines(entries[..i], total) + [AreaLine(entries[i], total)]
  {
  }

  /** The topics shown for the topic list `ts`: the first three of its tally sorted by count. */
  function TopOf(ts: seq<string>): seq<TopicCount> {
    TopThree(SortByCount(Tally(ts)))
  }

  /** The topics shown for a list of wrong answers. */
  function TopTopics(incorrectAnswers: seq<HistoryItem>): seq<TopicCount> {
    TopOf(TopicsOf(incorrectAnswers))
  }

  /** The list `weakAreas` returns for a non-empty list of wrong answers. */
  function WeakAreaLines(incorrectAnswers: seq<HistoryItem>): seq<string>
    requires incorrectAnswers != []
  {
    var lines := AreaLines(TopTopics(incorrectAnswers), |incorrectAnswers|);
    if |lines| < 2 then lines + [FocusOnAccuracy, ReviewBasics] else lines
  }

  /**
   * `weakAreas(history)`: a fixed message for an empty history and for one
   * without wrong answers; otherwise one line per top topic, padded with
   * the two generic suggestions when there is a single topic.
   */
  method WeakAreas(history: seq<HistoryItem>) returns (areas: seq<string>)
    ensures history == [] ==> areas == [NoDataMessage]
    ensures history != [] && Wrong(history) == [] ==> areas == [NoWeakAreasMessage]
    ensures Wrong(history) != [] ==> areas == WeakAreaLines(Wrong(history))
  {
    if |history| == 0 {
      return [NoDataMessage];
    }
    var incorrectAnswers := Wrong(history);
    if |incorrectAnswers| == 0 {
      return [NoWeakAreasMessage];
    }
    var entries := TallyTopics(incorrectAnswers);
    var sortedTopics := TopThree(SortByCount(entries));
    areas := [];
    var i := 0;
    while i < |sortedTopics|
      invariant 0 <= i <= |sortedTopics|
      invariant areas == AreaLines(sortedTopics[..i], |incorrectAnswers|)
    {
      AreaLinesSnoc(sortedTopics, i, |incorrectAnswers|);
      areas := areas + [AreaLine(sortedTopics[i], |incorrectAnswers|)];
      i := i + 1;
    }
    assert sortedTopics[..i] == sortedTopics;
    if |areas| < 2 {
      areas := areas + [FocusOnAccuracy, ReviewBasics];
    }
  }

  // ---- what the weak-area lines say ----

  /**
   * With at least one wrong answer there are two or three lines; the first
   * ones name the top topics in order, and a single topic is followed by
   * the two generic suggestions.
   */
  lemma WeakAreaLinesShape(incorrectAnswers: seq<HistoryItem>)
    requires incorrectAnswers != []
    ensures var r := WeakAreaLines(incorrectAnswers);
            var top := TopTopics(incorrectAnswers);
            && 1 <= |top| <= 3
            && 2 <= |r| <= 3
            && (forall i :: 0 <= i < |top| ==> r[i] == AreaLine(top[i], |incorrectAnswers|))
            && (|top| == 1 ==> r[1..] == [FocusOnAccuracy, ReviewBasics])
  {
    var ts := TopicsOf(incorrectAnswers);
    assert ts[0] in ts;
    assert |Distinct(ts)| > 0;
    TallyCounts(ts);
    SortByCountSorts(Tally(ts));
  }

  /**
   * Each topic shown is a topic of a wrong answer and carries its true
   * number of wrong answers; the topics shown are distinct and most
   * frequent first.
   */
  lemma {:induction false} TopTopicsCounted(incorrectAnswers: seq<HistoryItem>)
    ensures var ts := TopicsOf(incorrectAnswers);
            var top := TopTopics(incorrectAnswers);
            && Descending(top)
            && (forall i :: 0 <= i < |top| ==> top[i].topic in ts && top[i].count == Occurrences(ts, top[i].topic))
            && (forall i, j :: 0 <= i < j < |top| ==> top[i].topic != top[j].topic)
  {
    var ts := TopicsOf(incorrectAnswers);
    assert TopTopics(incorrectAnswers) == TopOf(ts);
    TopEntriesCounted(ts);
  }

  lemma TopEntriesCounted(ts: seq<string>)
    ensures var top := TopOf(ts);
            && Descending(top)
            && (forall i :: 0 <= i < |top| ==> top[i].topic in ts && top[i].count == Occurrences(ts, top[i].topic))
            && (forall i, j :: 0 <= i < j < |top| ==> top[i].topic != top[j].topic)
  {
    var tally := Tally(ts);
    var sorted := SortByCount(tally);
    TallyCounts(ts);
    SortByCountSorts(tally);
    forall i | 0 <= i < |sorted| ensures sorted[i].topic in ts && sorted[i].count == Occurrences(ts, sorted[i].topic) {
      assert sorted[i] in multiset(tally);
    }
    forall i, j | 0 <= i < j < |TopOf(ts)| ensures TopOf(ts)[i].topic != TopOf(ts)[j].topic {
      SortedEntriesDistinct(ts, i, j);
    }
  }

  /** A topic of a wrong answer that is not shown has no more errors than any topic shown. */
  lemma {:induction false} TopTopicsAreMostFrequent(incorrectAnswers: seq<HistoryItem>, t: string)
    requires t in TopicsOf(incorrectAnswers)
    requires forall k :: 0 <= k < |TopTopics(incorrectAnswers)| ==> TopTopics(incorrectAnswers)[k].topic != t
    ensures forall i :: 0 <= i < |TopTopics(incorrectAnswers)| ==>
              Occurrences(TopicsOf(incorrectAnswers), t) <= TopTopics(incorrectAnswers)[i].count
  {
    var ts := TopicsOf(incorrectAnswers);
    assert TopTopics(incorrectAnswers) == TopOf(ts);
    OmittedTopicNotMoreFrequent(ts, t);
  }

  lemma OmittedTopicNotMoreFrequent(ts: seq<string>, t: string)
    requires t in ts
    requires forall k :: 0 <= k < |TopOf(ts)| ==> TopOf(ts)[k].topic != t
    ensures forall i :: 0 <= i < |TopOf(ts)| ==> Occurrences(ts, t) <= TopOf(ts)[i].count
  {
    var tally := Tally(ts);
    var sorted := SortByCount(tally);
    TallyCounts(ts);
    SortByCountSorts(tally);
    var top := TopOf(ts);
    var d := Distinct(ts);
    var m :| 0 <= m < |d| && d[m] == t;
    var e := tally[m];
    assert e in multiset(tally);
    assert e in multiset(sorted);
    var p :| 0 <= p < |sorted| && sorted[p] == e;
    assert forall k :: 0 <= k < |top| ==> top[k] == sorted[k];
    assert e.topic == t;
  }

  lemma SortedEntriesDistinct(ts: seq<string>, i: nat, j: nat)
    requires i < j < |SortByCount(Tally(ts))|
    ensures SortByCount(Tally(ts))[i].topic != SortByCount(Tally(ts))[j].topic
  {
    var tally := Tally(ts);
    var sorted := SortByCount(tally);
    TallyCounts(ts);
    SortByCountSorts(tally);
    assert sorted[i] in multiset(tally) && sorted[j] in multiset(tally);
    var a :| 0 <= a < |tally| && tally[a] == sorted[i];
    var b :| 0 <= b < |tally| && tally[b] == sorted[j];
    if sorted[i].topic == sorted[j].topic {
      assert a == b;
      assert sorted[i] == sorted[j];
      SameTopicOnce(sorted, tally, i, j);
    }
  }

  /** An entry of a permutation of a list without repeated entries occurs there once. */
  lemma SameTopicOnce(sorted: seq<TopicCount>, tally: seq<TopicCount>, i: nat, j: nat)
    requires multiset(sorted) == multiset(tally)
    requires forall a, b :: 0 <= a < b < |tally| ==> tally[a] != tally[b]
    requires i < j < |sorted|
    ensures sorted[i] != sorted[j]
  {
    if sorted[i] == sorted[j] {
      var x := sorted[i];
      var without := sorted[..i] + sorted[i + 1..];
      assert sorted == sorted[..i] + [x] + sorted[i + 1..];
      assert x in without by {
        assert without[j - 1] == x;
      }
      assert multiset(sorted)[x] >= 2 by {
        assert multiset(sorted) == multiset(without) + multiset{x};
      }
      CountOnce(tally, x);
    }
  }

  lemma {:induction false} CountOnce(s: seq<TopicCount>, x: TopicCount)
    requires forall a, b :: 0 <= a < b < |s| ==> s[a] != s[b]
    ensures multiset(s)[x] <= 1
  {
    if s != [] {
      assert s == [s[0]] + s[1..];
      CountOnce(s[1..], x);
      if s[0] == x {
        assert x !in s[1..] by {
          forall k | 0 <= k < |s[1..]| ensures s[1..][k] != x {
            assert s[1..][k] == s[k + 1];
          }
        }
      }
    }
  }

  // ---- insights ----

  /** The strength messages of `generateInsights`. */
  datatype Strength = HighAccuracy | GoodSpeed | IndependentSolving | ConsistentEffort

  /** The improvement messages of `generateInsights`. */
  datatype Improvement = StartPracticing | FocusAccuracy | WorkOnSpeed | FewerHints | KeepPracticing

  function StrengthText(m: Strength): string {
    match m
    case HighAccuracy => "High accuracy rate"
    case GoodSpeed => "Good problem-solving speed"
    case IndependentSolving => "Independent problem solving"
    case ConsistentEffort => "Consistent effort in practice"
  }

  function ImprovementText(m: Improvement): string {
    match m
    case StartPracticing => "Start practicing to see your strengths and areas for improvement"
    case FocusAccuracy => FocusOnAccuracy
    case WorkOnSpeed => "Work on problem-solving speed"
    case FewerHints => "Try solving more problems without hints"
    case KeepPracticing => "Keep practicing to maintain your skills"
  }

  /** No element occurs twice. */
  predicate NoRepeats<T(==)>(s: seq<T>) {
    forall i, j :: 0 <= i < j < |s| ==> s[i] != s[j]
  }

  lemma AppendFresh<T>(s: seq<T>, x: T)
    requires NoRepeats(s) && x !in s
    ensures NoRepeats(s + [x])
  {
  }

  datatype Insights = Insights(strengths: seq<Strength>, improvements: seq<Improvement>)

  /** `if (b) s.push(x)`. */
  function Push<T>(s: seq<T>, b: bool, x: T): seq<T> {
    if b then s + [x] else s
  }

  /**
   * The strengths `generateInsights` lists, given its three tests in order,
   * with the generic one standing in when none holds.
   */
  function StrengthsOf(highAccuracy: bool, fast: bool, fewHints: bool): seq<Strength> {
    var found := Push(Push(Push([], highAccuracy, HighAccuracy), fast, GoodSpeed), fewHints, IndependentSolving);
    Push(found, |found| == 0, ConsistentEffort)
  }

  /** The improvements `generateInsights` lists, given its three tests in order. */
  function ImprovementsOf(lowAccuracy: bool, slow: bool, manyHints: bool): seq<Improvement> {
    var found := Push(Push(Push([], lowAccuracy, FocusAccuracy), slow, WorkOnSpeed), manyHints, FewerHints);
    Push(found, |found| == 0, KeepPracticing)
  }

  /** Each strength is listed exactly when its test holds, the generic one exactly when none does, each at most once. */
  lemma StrengthsOfMeaning(highAccuracy: bool, fast: bool, fewHints: bool)
    ensures var r := StrengthsOf(highAccuracy, fast, fewHints);
            && (HighAccuracy in r <==> highAccuracy)
            && (GoodSpeed in r <==> fast)
            && (IndependentSolving in r <==> fewHints)
            && (ConsistentEffort in r <==> !highAccuracy && !fast && !fewHints)
            && 1 <= |r| <= 3 && NoRepeats(r)
  {
    var a := Push([], highAccuracy, HighAccuracy);
    var b := Push(a, fast, GoodSpeed);
    if fast { AppendFresh(a, GoodSpeed); }
    if fewHints { AppendFresh(b, IndependentSolving); }
  }

  /** Each improvement is listed exactly when its test holds, the generic one exactly when none does, each at most once. */
  lemma ImprovementsOfMeaning(lowAccuracy: bool, slow: bool, manyHints: bool)
    ensures var r := ImprovementsOf(lowAccuracy, slow, manyHints);
            && (FocusAccuracy in r <==> lowAccuracy)
            && (WorkOnSpeed in r <==> slow)
            && (FewerHints in r <==> manyHints)
            && (KeepPracticing in r <==> !lowAccuracy && !slow && !manyHints)
            && StartPracticing !in r
            && 1 <= |r| <= 3 && NoRepeats(r)
  {
    var a := Push([], lowAccuracy, FocusAccuracy);
    var b := Push(a, slow, WorkOnSpeed);
    if slow { AppendFresh(a, WorkOnSpeed); }
    if manyHints { AppendFresh(b, FewerHints); }
  }

  function CountHints(h: seq<HistoryItem>): (n: nat)
    ensures n <= |h|
  {
    if h == [] then 0 else (if h[0].usedHint then 1 else 0) + CountHints(h[1..])
  }

  /** The average-time thresholds of `generateInsights`, in milliseconds. */
  const FastTimeMs := 30000
  const SlowTimeMs := 60000

  /** The average `total / n`. */
  function Mean(total: int, n: nat): real
    requires n > 0
  {
    (total as real) / (n as real)
  }

  /** The six tests of `generateInsights`, each read as an integer comparison. */
  predicate AccurateEnough(h: seq<HistoryItem>) { 100 * CountCorrect(h) >= 80 * |h| }
  predicate QuickOnAverage(h: seq<HistoryItem>) { Metrics.TotalTime(h) < FastTimeMs * |h| }
  predicate RarelyHinted(h: seq<HistoryItem>) { 100 * CountHints(h) < 30 * |h| }
  predicate OftenWrong(h: seq<HistoryItem>) { 100 * CountCorrect(h) < 70 * |h| }
  predicate SlowOnAverage(h: seq<HistoryItem>) { Metrics.TotalTime(h) > SlowTimeMs * |h| }
  predicate OftenHinted(h: seq<HistoryItem>) { 100 * CountHints(h) > 50 * |h| }

  /** The insights for a non-empty history, the tests made in the order of `generateInsights`. */
  function InsightsOf(h: seq<HistoryItem>): Insights {
    Insights(StrengthsOf(AccurateEnough(h), QuickOnAverage(h), RarelyHinted(h)),
             ImprovementsOf(OftenWrong(h), SlowOnAverage(h), OftenHinted(h)))
  }

  /**
   * `generateInsights(history)`: with no history, no strength and one
   * prompt to start; otherwise strengths for accuracy at least 80%, an
   * average under 30 s and hints on under 30% of the problems, improvements
   * for accuracy under 70%, an average over 60 s and hints on over 50%, and
   * a generic line for a list that would be empty.
   */
  method GenerateInsights(history: seq<HistoryItem>) returns (r: Insights)
    ensures history == [] ==> r == Insights([], [StartPracticing])
    ensures history != [] ==> r == InsightsOf(history)
  {
    if |history| == 0 {
      return Insights([], [StartPracticing]);
    }
    var n := |history|;
    var correctAnswers := CountCorrect(history);
    var totalTime := Metrics.TotalTime(history);
    var hintsUsed := CountHints(history);

    var strengths: seq<Strength> := [];
    if 100 * correctAnswers >= 80 * n {
      strengths := strengths + [HighAccuracy];
    }
    if totalTime < FastTimeMs * n {
      strengths := strengths + [GoodSpeed];
    }
    if 100 * hintsUsed < 30 * n {
      strengths := strengths + [IndependentSolving];
    }

    var improvements: seq<Improvement> := [];
    if 100 * correctAnswers < 70 * n {
      improvements := improvements + [FocusAccuracy];
    }
    if totalTime > SlowTimeMs * n {
      improvements := improvements + [WorkOnSpeed];
    }
    if 100 * hintsUsed > 50 * n {
      improvements := improvements + [FewerHints];
    }

    if |strengths| == 0 {
      strengths := strengths + [ConsistentEffort];
    }
    if |improvements| == 0 {
      improvements := improvements + [KeepPracticing];
    }
    r := Insights(strengths, improvements);
  }

  /**
   * What the insights of a non-empty history say in terms of the ratios
   * the source compares, read exactly as reals: each strength and
   * improvement is listed exactly when its threshold on the accuracy, the average time or the hint rate is
   * met, the generic ones exactly when no other is, never twice, and between
   * one and three of each.
   */
  lemma InsightsMeaning(history: seq<HistoryItem>)
    requires history != []
    ensures var n := |history|;
            var r := InsightsOf(history);
            var accuracy := Metrics.Percent(CountCorrect(history), n);
            var averageTime := Mean(Metrics.TotalTime(history), n);
            var hintUsageRate := Metrics.Percent(CountHints(history), n);
            && (HighAccuracy in r.strengths <==> accuracy >= 80.0)
            && (GoodSpeed in r.strengths <==> averageTime < 30000.0)
            && (IndependentSolving in r.strengths <==> hintUsageRate < 30.0)
            && (ConsistentEffort in r.strengths <==> accuracy < 80.0 && averageTime >= 30000.0 && hintUsageRate >= 30.0)
            && (FocusAccuracy in r.improvements <==> accuracy < 70.0)
            && (WorkOnSpeed in r.improvements <==> averageTime > 60000.0)
            && (FewerHints in r.improvements <==> hintUsageRate > 50.0)
            && (KeepPracticing in r.improvements <==> accuracy >= 70.0 && averageTime <= 60000.0 && hintUsageRate <= 50.0)
            && StartPracticing !in r.improvements
            && 1 <= |r.strengths| <= 3 && 1 <= |r.improvements| <= 3
            && NoRepeats(r.strengths) && NoRepeats(r.improvements)
            && !(HighAccuracy in r.strengths && FocusAccuracy in r.improvements)
            && !(GoodSpeed in r.strengths && WorkOnSpeed in r.improvements)
            && !(IndependentSolving in r.strengths && FewerHints in r.improvements)
  {
    InsightThresholds(history);
    StrengthsOfMeaning(AccurateEnough(history), QuickOnAverage(history), RarelyHinted(history));
    ImprovementsOfMeaning(OftenWrong(history), SlowOnAverage(history), OftenHinted(history));
  }

  /**
   * The integer tests `generateInsights` is specified by are its
   * thresholds on the accuracy, the average time and the hint rate, each
   * compared exactly as a real number.
   */
  lemma InsightThresholds(history: seq<HistoryItem>)
    requires history != []
    ensures var n := |history|;
            var accuracy := Metrics.Percent(CountCorrect(history), n);
            var averageTime := Mean(Metrics.TotalTime(history), n);
            var hintUsageRate := Metrics.Percent(CountHints(history), n);
            && (AccurateEnough(history) <==> accuracy >= 80.0)
            && (OftenWrong(history) <==> accuracy < 70.0)
            && (QuickOnAverage(history) <==> averageTime < 30000.0)
            && (SlowOnAverage(history) <==> averageTime > 60000.0)
            && (RarelyHinted(history) <==> hintUsageRate < 30.0)
            && (OftenHinted(history) <==> hintUsageRate > 50.0)
  {
    var n := |history|;
    Metrics.PercentAtLeast(CountCorrect(history), n, 80);
    Metrics.PercentAtLeast(CountCorrect(history), n, 70);
    MeanAtLeast(Metrics.TotalTime(history), n, FastTimeMs);
    MeanAbove(Metrics.TotalTime(history), n, SlowTimeMs);
    Metrics.PercentAtLeast(CountHints(history), n, 30);
    Metrics.PercentAbove(CountHints(history), n, 50);
  }

  lemma MeanAtLeast(total: int, n: nat, t: int)
    requires n > 0
    ensures Mean(total, n) >= t as real <==> total >= t * n
  {
    var q := (total as real) / (n as real);
    assert q * (n as real) == total as real;
    assert (t * n) as real == (t as real) * (n as real);
  }

  lemma MeanAbove(total: int, n: nat, t: int)
    requires n > 0
    ensures Mean(total, n) > t as real <==> total > t * n
  {
    var q := (total as real) / (n as real);
    assert q * (n as real) == total as real;
    assert (t * n) as real == (t as real) * (n as real);
  }
}
