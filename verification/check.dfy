/**
 * Answer validation: a submitted answer is accepted when, lower-cased and
 * trimmed, it equals one of the problem's answer keys treated the same way.
 */
module Check {
  import opened Types
  import opened Text

  /** `answerKey.map(key => key.toLowerCase().trim())`. */
  function NormalizeAll(keys: seq<string>): (r: seq<string>)
    ensures |r| == |keys|
    ensures forall i :: 0 <= i < |keys| ==> r[i] == Normalize(keys[i])
  {
    seq(|keys|, i requires 0 <= i < |keys| => Normalize(keys[i]))
  }

  lemma NormalizedMember(keys: seq<string>, a: string)
    ensures a in NormalizeAll(keys) <==> exists k :: k in keys && Normalize(k) == a
  {
    var ns := NormalizeAll(keys);
    if a in ns {
      var i :| 0 <= i < |ns| && ns[i] == a;
      assert keys[i] in keys;
    }
    if exists k :: k in keys && Normalize(k) == a {
      var k :| k in keys && Normalize(k) == a;
      var i :| 0 <= i < |keys| && keys[i] == k;
      assert ns[i] == a;
    }
  }

  /**
   * `isCorrect(problem, userAnswer)`: false on an empty answer or an empty
   * key list; otherwise true exactly when some key has the answer's normal form.
   * Only `answerKey` is read: neither the type nor the choices matter.
   */
  function IsCorrect(problem: Problem, userAnswer: string): (ok: bool)
    ensures userAnswer == [] ==> !ok
    ensures problem.answerKey == [] ==> !ok
    ensures ok <==> userAnswer != []
                    && exists k :: k in problem.answerKey && Normalize(k) == Normalize(userAnswer)
  {
    if userAnswer == [] || |problem.answerKey| == 0 then
      false
    else
      NormalizedMember(problem.answerKey, Normalize(userAnswer));
      Normalize(userAnswer) in NormalizeAll(problem.answerKey)
  }

  /** The answer argument of the deprecated `checkAnswer`: one string or an array of them. */
  datatype Submitted = One(answer: string) | Many(answers: seq<string>)

  /**
   * `checkAnswer`: an array answer is judged by its first element; an empty
   * array reads `undefined`, which the empty-answer guard rejects.
   */
  function CheckAnswer(problem: Problem, submitted: Submitted): (ok: bool)
    ensures submitted.One? ==> ok == IsCorrect(problem, submitted.answer)
    ensures submitted.Many? && submitted.answers == [] ==> !ok
    ensures submitted.Many? && submitted.answers != [] ==> ok == IsCorrect(problem, submitted.answers[0])
  {
    match submitted
    case One(a) => IsCorrect(problem, a)
    case Many(answers) => if answers == [] then false else IsCorrect(problem, answers[0])
  }

  /** Two answers with the same normal form are judged alike (neither may be empty). */
  lemma SameNormalFormSameVerdict(problem: Problem, a: string, b: string)
    requires a != [] && b != []
    requires Normalize(a) == Normalize(b)
    ensures IsCorrect(problem, a) == IsCorrect(problem, b)
  {
  }

  /** Surrounding white space does not change the verdict on a non-empty answer. */
  lemma PaddingIrrelevant(problem: Problem, pre: string, answer: string, post: string)
    requires AllSpace(pre) && AllSpace(post)
    requires answer != []
    ensures IsCorrect(problem, pre + answer + post) == IsCorrect(problem, answer)
  {
    NormalizeIgnoresPadding(pre, answer, post);
  }

  /** Answers that differ only in the case of their letters are judged alike. */
  lemma CaseIrrelevant(problem: Problem, a: string, b: string)
    requires Lower(a) == Lower(b)
    ensures IsCorrect(problem, a) == IsCorrect(problem, b)
  {
    assert |a| == |Lower(a)| == |Lower(b)| == |b|;
  }

  /** Every non-empty key, submitted as it is written, is accepted. */
  lemma EveryKeyAccepted(problem: Problem, i: nat)
    requires i < |problem.answerKey| && problem.answerKey[i] != []
    ensures IsCorrect(problem, problem.answerKey[i])
  {
    assert problem.answerKey[i] in problem.answerKey;
  }

  /**
   * The verdict depends on the set of keys only: not on their order, on the
   * problem's type, on its choices or on any other field.
   */
  lemma OnlyKeySetMatters(p: Problem, q: Problem, answer: string)
    requires forall k :: k in p.answerKey <==> k in q.answerKey
    ensures IsCorrect(p, answer) == IsCorrect(q, answer)
  {
  }

  /**
   * A whitespace-only answer is not empty, so it passes the guard: it is
   * accepted by a problem that lists a blank key.
   */
  lemma BlankAnswerMatchesBlankKey(problem: Problem)
    requires "" in problem.answerKey
    ensures IsCorrect(problem, " ")
  {
    assert Normalize(" ") == "" by {
      assert Lower(" ") == " ";
      assert TrimStart(" ") == TrimStart(" "[1..]);
    }
    assert Normalize("") == "";
  }
}
