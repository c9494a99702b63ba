/**
 * The fallback content served when the language-model services cannot be
 * reached: canned feedback chosen by the topic of the stem, canned hints
 * chosen by a topic name, and a fixed study plan.
 */
module Offline {
  import opened Text
  import opened Numeric

  /** The topics `extractTopic` tells apart, `'default'` being the last. */
  datatype StemTopic = Addition | Subtraction | Multiplication | Division | Simplification | Comparison | Default

  /** The string `extractTopic` returns for each topic. */
  function TopicName(t: StemTopic): string {
    match t
    case Addition => "addition"
    case Subtraction => "subtraction"
    case Multiplication => "multiplication"
    case Division => "division"
    case Simplification => "simplification"
    case Comparison => "comparison"
    case Default => "default"
  }

  /** The position of a topic in the order `extractTopic` tests them. */
  function Order(t: StemTopic): nat {
    match t
    case Addition => 0
    case Subtraction => 1
    case Multiplication => 2
    case Division => 3
    case Simplification => 4
    case Comparison => 5
    case Default => 6
  }

  /** Some key word or operator sign of topic `t` occurs in the (lower-cased) stem; `'default'` has none. */
  predicate Mentions(lowerStem: string, t: StemTopic) {
    match t
    case Addition => Contains(lowerStem, "add") || Contains(lowerStem, "plus") || Contains(lowerStem, "+")
    case Subtraction => Contains(lowerStem, "subtract") || Contains(lowerStem, "minus") || Contains(lowerStem, "-")
    case Multiplication => Contains(lowerStem, "multiply") || Contains(lowerStem, "times") || Contains(lowerStem, "×")
    case Division => Contains(lowerStem, "divide") || Contains(lowerStem, "÷")
    case Simplification => Contains(lowerStem, "simplify") || Contains(lowerStem, "reduce")
    case Comparison => Contains(lowerStem, "compare") || Contains(lowerStem, "greater") || Contains(lowerStem, "less")
    case Default => false
  }

  /**
   * `extractTopic(stem)`: the lower-cased stem is searched for the key words
   * (and operator signs) of each topic in a fixed order, and the first topic
   * found wins: the result is mentioned (unless it is `'default'`), and no
   * topic tested before it is; `'default'` means no topic is mentioned.
   */
  function ExtractTopic(stem: string): (r: StemTopic)
    ensures r != Default ==> Mentions(Lower(stem), r)
    ensures forall t :: Order(t) < Order(r) ==> !Mentions(Lower(stem), t)
  {
    var lowerStem := Lower(stem);
    if Contains(lowerStem, "add") || Contains(lowerStem, "plus") || Contains(lowerStem, "+") then Addition
    else if Contains(lowerStem, "subtract") || Contains(lowerStem, "minus") || Contains(lowerStem, "-") then Subtraction
    else if Contains(lowerStem, "multiply") || Contains(lowerStem, "times") || Contains(lowerStem, "×") then Multiplication
    else if Contains(lowerStem, "divide") || Contains(lowerStem, "÷") then Division
    else if Contains(lowerStem, "simplify") || Contains(lowerStem, "reduce") then Simplification
    else if Contains(lowerStem, "compare") || Contains(lowerStem, "greater") || Contains(lowerStem, "less") then Comparison
    else Default
  }

  /** The topic of a stem does not depend on the case of its letters. */
  lemma ExtractTopicIgnoresCase(stem: string)
    ensures ExtractTopic(Lower(stem)) == ExtractTopic(stem)
  {
    LowerIdempotent(stem);
  }

  /** Lower-casing changes letters only, so a sign occurs in a stem exactly when it occurs in the lower-cased stem. */
  lemma SignSurvivesLower(stem: string, sign: char)
    requires !('A' <= sign <= 'Z') && !('a' <= sign <= 'z')
    ensures Contains(stem, [sign]) <==> Contains(Lower(stem), [sign])
  {
    if Contains(stem, [sign]) {
      var i :| OccursAt(stem, [sign], i);
      assert stem[i] == stem[i..i + 1][0] == sign;
      assert Lower(stem)[i..i + 1] == [sign];
      assert OccursAt(Lower(stem), [sign], i);
    }
    if Contains(Lower(stem), [sign]) {
      var i :| OccursAt(Lower(stem), [sign], i);
      assert LowerChar(stem[i]) == Lower(stem)[i..i + 1][0] == sign;
      assert stem[i..i + 1] == [sign];
      assert OccursAt(stem, [sign], i);
    }
  }

  /** A stem with a plus sign is an addition stem, whatever subtraction or other key words it also holds. */
  lemma PlusSignMeansAddition(stem: string)
    requires Contains(stem, "+")
    ensures ExtractTopic(stem) == Addition
  {
    SignSurvivesLower(stem, '+');
  }

  /** A stem with a minus sign and neither an addition key word nor a plus sign is a subtraction stem. */
  lemma MinusSignMeansSubtraction(stem: string)
    requires Contains(stem, "-")
    requires !Contains(Lower(stem), "add") && !Contains(Lower(stem), "plus") && !Contains(stem, "+")
    ensures ExtractTopic(stem) == Subtraction
  {
    SignSurvivesLower(stem, '-');
    SignSurvivesLower(stem, '+');
  }

  // ---- feedback ----

  const NotQuiteRight := "Not quite right."

  /** The five messages for a correct answer. */
  const PositiveMessages: seq<string> := [
    "That's correct! Excellent work.",
    "Great job! You solved this problem correctly.",
    "Perfect! You're getting the hang of this.",
    "Well done! That's the right answer.",
    "Excellent! You're making great progress."
  ]

  /** What follows "Not quite right." in the message for a wrong answer to a stem of topic `t`. */
  function Advice(t: StemTopic): string {
    match t
    case Addition => " Remember to add the numerators and keep the same denominator for fractions with the same denominator."
    case Subtraction => " Remember to subtract the numerators and keep the same denominator for fractions with the same denominator."
    case Multiplication => " For multiplying fractions, multiply the numerators together and the denominators together."
    case Division => " For dividing fractions, multiply by the reciprocal of the second fraction."
    case Simplification => " Look for common factors in the numerator and denominator to simplify."
    case Comparison => " Try converting to equivalent fractions with the same denominator to compare."
    case Default => " Let's review the steps for this type of problem. Take your time and think through each step carefully."
  }

  /** The message for a wrong answer to a stem of topic `t`: it always opens with "Not quite right.". */
  function WrongAnswerFeedback(t: StemTopic): (msg: string)
    ensures NotQuiteRight <= msg
  {
    PrefixOfConcat(NotQuiteRight, Advice(t));
    NotQuiteRight + Advice(t)
  }

  lemma PrefixOfConcat(a: string, b: string)
    ensures a <= a + b
  {
    assert (a + b)[..|a|] == a;
  }

  /**
   * `getFallbackFeedback(stem, userAnswer, answerKey, wasCorrect)` with
   * `random` the value `Math.random()` returned: a correct answer gets one of
   * the five positive messages, a wrong one the message for the topic of the
   * stem. Neither the answer nor the key is read.
   */
  function GetFallbackFeedback(stem: string, userAnswer: string, answerKey: seq<string>, wasCorrect: bool, random: real): (msg: string)
    requires 0.0 <= random < 1.0
    ensures wasCorrect ==> msg in PositiveMessages
    ensures !wasCorrect ==> msg == WrongAnswerFeedback(ExtractTopic(stem))
    ensures !wasCorrect ==> NotQuiteRight <= msg
  {
    if wasCorrect then
      PositiveMessages[RandomIndex(random, |PositiveMessages|)]
    else
      WrongAnswerFeedback(ExtractTopic(stem))
  }

  /** The feedback depends on the stem and the verdict only, never on the answer or the key. */
  lemma FeedbackIgnoresAnswer(stem: string, a1: string, k1: seq<string>, a2: string, k2: seq<string>, wasCorrect: bool, random: real)
    requires 0.0 <= random < 1.0
    ensures GetFallbackFeedback(stem, a1, k1, wasCorrect, random) == GetFallbackFeedback(stem, a2, k2, wasCorrect, random)
  {
  }

  /** The message for a correct answer depends on the random value only, never on the stem. */
  lemma CorrectFeedbackIgnoresStem(s1: string, s2: string, userAnswer: string, answerKey: seq<string>, random: real)
    requires 0.0 <= random < 1.0
    ensures GetFallbackFeedback(s1, userAnswer, answerKey, true, random) == GetFallbackFeedback(s2, userAnswer, answerKey, true, random)
  {
  }

  /** Every positive message is served for some value of `Math.random()`, whatever the stem. */
  lemma EveryPositiveMessageReachable(stem: string, i: nat)
    requires i < |PositiveMessages|
    ensures var random := (i as real) / (|PositiveMessages| as real);
            0.0 <= random < 1.0 && GetFallbackFeedback(stem, "", [], true, random) == PositiveMessages[i]
  {
    RandomIndexReaches(i, |PositiveMessages|);
  }

  // ---- hints ----

  const DefaultHint := "Break the problem into smaller steps and work through each one carefully."

  /** The `hints` object of `getFallbackHint`, keyed by topic name. */
  const Hints: map<string, string> := map[
    "addition" := "Remember to add the numerators and keep the same denominator when the denominators are equal.",
    "subtraction" := "Remember to subtract the numerators and keep the same denominator when the denominators are equal.",
    "multiplication" := "Multiply the numerators together and the denominators together.",
    "division" := "To divide fractions, multiply by the reciprocal of the second fraction.",
    "simplification" := "Look for common factors in both the numerator and denominator.",
    "comparison" := "Convert both fractions to have the same denominator to compare them easily.",
    "default" := DefaultHint
  ]

  /** `getFallbackHint(topic)`: the hint stored under the topic name, otherwise the default hint. */
  function GetFallbackHint(topic: string): (hint: string)
    ensures topic in Hints ==> hint == Hints[topic]
    ensures topic !in Hints ==> hint == DefaultHint
    ensures hint in Hints.Values
  {
    if topic in Hints then Hints[topic] else Hints["default"]
  }

  /** Every topic `extractTopic` can produce has a hint of its own, and `'default'` gets the default hint. */
  lemma EveryStemTopicHasHint(t: StemTopic)
    ensures TopicName(t) in Hints
    ensures GetFallbackHint(TopicName(t)) == Hints[TopicName(t)]
    ensures t == Default ==> GetFallbackHint(TopicName(t)) == DefaultHint
  {
  }

  // ---- the study plan ----

  datatype StudyPlan = StudyPlan(plan: seq<string>, challenge: string)

  /** `getFallbackStudyPlan()`: five fixed steps and a fixed challenge. */
  function GetFallbackStudyPlan(): (r: StudyPlan)
    ensures |r.plan| == 5
    ensures r.challenge == "Great work today. Keep practicing to improve your fraction skills!"
  {
    StudyPlan([
      "Review the problems you found challenging",
      "Practice similar problems to reinforce learning",
      "Focus on understanding concepts rather than memorizing",
      "Try solving problems without hints first",
      "Keep practicing regularly to maintain your skills"
    ], "Great work today. Keep practicing to improve your fraction skills!")
  }

  /** `OfflineSupport`: static methods that forward to the functions above. */
  class OfflineSupport {

    static function GetFeedback(stem: string, userAnswer: string, answerKey: seq<string>, wasCorrect: bool, random: real): (msg: string)
      requires 0.0 <= random < 1.0
      ensures msg == GetFallbackFeedback(stem, userAnswer, answerKey, wasCorrect, random)
    {
      GetFallbackFeedback(stem, userAnswer, answerKey, wasCorrect, random)
    }

    static function GetStudyPlan(): (r: StudyPlan)
      ensures r == GetFallbackStudyPlan()
    {
      GetFallbackStudyPlan()
    }

    static function GetHint(topic: string): (hint: string)
      ensures hint == GetFallbackHint(topic)
    {
      GetFallbackHint(topic)
    }
  }
}
