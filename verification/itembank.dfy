/**
 * Problem selection: problems at exactly the requested level whose ids were
 * not served recently, one of them picked by a value of `Math.random()`;
 * and the read-only `ItemBank` queries over a fixed list of problems.
 */
module Items {
  import opened Types
  import opened Numeric

  /** `problems.filter(p => p.level === level)`. */
  function OfLevel(problems: seq<Problem>, level: Level): (r: seq<Problem>)
    ensures |r| <= |problems|
    ensures forall p :: p in r <==> p in problems && p.level == level
  {
    if problems == [] then []
    else (if problems[0].level == level then [problems[0]] else []) + OfLevel(problems[1..], level)
  }

  /** `problems.filter(p => !recentIds.includes(p.id))`. */
  function NotRecent(problems: seq<Problem>, recentIds: seq<string>): (r: seq<Problem>)
    ensures |r| <= |problems|
    ensures forall p :: p in r <==> p in problems && p.id !in recentIds
  {
    if problems == [] then []
    else (if problems[0].id !in recentIds then [problems[0]] else []) + NotRecent(problems[1..], recentIds)
  }

  /** The candidates `pickNext` draws from, in bank order. */
  function Available(level: Level, recentIds: seq<string>, problems: seq<Problem>): (r: seq<Problem>)
    ensures forall p :: p in r <==> p in problems && p.level == level && p.id !in recentIds
  {
    NotRecent(OfLevel(problems, level), recentIds)
  }

  /**
   * `pickNext(level, recentIds, problems)` with `random` the value
   * `Math.random()` returned: null when no candidate is left, otherwise the
   * candidate at index `Math.floor(random * candidates)`.
   */
  function PickNext(level: Level, recentIds: seq<string>, problems: seq<Problem>, random: real): (r: Option<Problem>)
    requires 0.0 <= random < 1.0
    ensures r.Some? ==> r.value.level == level && r.value.id !in recentIds && r.value in problems
    ensures r.None? <==> forall p :: p in problems ==> p.level != level || p.id in recentIds
  {
    var available := Available(level, recentIds, problems);
    if |available| == 0 then
      None
    else
      assert available[0] in available;
      Some(available[RandomIndex(random, |available|)])
  }

  /** Every candidate can be drawn: the pick is reachable from some `Math.random()` value. */
  lemma EveryCandidateReachable(level: Level, recentIds: seq<string>, problems: seq<Problem>, i: nat)
    requires i < |Available(level, recentIds, problems)|
    ensures var random := (i as real) / (|Available(level, recentIds, problems)| as real);
            0.0 <= random < 1.0
            && PickNext(level, recentIds, problems, random) == Some(Available(level, recentIds, problems)[i])
  {
    RandomIndexReaches(i, |Available(level, recentIds, problems)|);
  }

  /** Every problem of the requested level outside the recent ids can be drawn. */
  lemma EveryFreshProblemReachable(level: Level, recentIds: seq<string>, problems: seq<Problem>, p: Problem)
    requires p in problems && p.level == level && p.id !in recentIds
    ensures exists random :: 0.0 <= random < 1.0 && PickNext(level, recentIds, problems, random) == Some(p)
  {
    var available := Available(level, recentIds, problems);
    var i :| 0 <= i < |available| && available[i] == p;
    EveryCandidateReachable(level, recentIds, problems, i);
    var random := (i as real) / (|available| as real);
    assert 0.0 <= random < 1.0 && PickNext(level, recentIds, problems, random) == Some(p);
  }

  /** `problems.find(p => p.id === id)`: the first problem carrying the id, if any. */
  function FindById(problems: seq<Problem>, id: string): (r: Option<Problem>)
    ensures r.None? <==> forall p :: p in problems ==> p.id != id
    ensures r.Some? ==> exists i :: 0 <= i < |problems| && problems[i] == r.value
                                    && r.value.id == id
                                    && forall j :: 0 <= j < i ==> problems[j].id != id
  {
    if problems == [] then None
    else if problems[0].id == id then Some(problems[0])
    else
      var r := FindById(problems[1..], id);
      assert r.Some? ==> exists i :: 0 <= i < |problems| && problems[i] == r.value
                                     && r.value.id == id
                                     && forall j :: 0 <= j < i ==> problems[j].id != id by {
        if r.Some? {
          var k :| 0 <= k < |problems| - 1 && problems[1..][k] == r.value && r.value.id == id
                   && forall j :: 0 <= j < k ==> problems[1..][j].id != id;
          assert problems[k + 1] == r.value;
          forall j | 0 <= j < k + 1 ensures problems[j].id != id {
            if j > 0 { assert problems[j] == problems[1..][j - 1]; }
          }
        }
      }
      r
  }

  lemma {:induction false} LevelCountsAddUp(problems: seq<Problem>)
    ensures |OfLevel(problems, Easy)| + |OfLevel(problems, Medium)| + |OfLevel(problems, Hard)| == |problems|
  {
    if problems != [] {
      LevelCountsAddUp(problems[1..]);
    }
  }
}

/** The `ItemBank` class of the same file. */
module Bank {
  import opened Types
  import Items

  /** The `ItemBank` class: a list of problems stored once by its constructor, then only read. */
  datatype ItemBank = ItemBank(problems: seq<Problem>) {

    /** `bank.pickNext(level, recentIds)`: the free `pickNext` over the stored problems. */
    function PickNext(level: Level, recentIds: seq<string>, random: real): (r: Option<Problem>)
      requires 0.0 <= random < 1.0
      ensures r == Items.PickNext(level, recentIds, problems, random)
    {
      Items.PickNext(level, recentIds, problems, random)
    }

    /** `getProblemsByLevel(level)`: the stored problems at that level, in stored order. */
    function ProblemsByLevel(level: Level): (r: seq<Problem>)
      ensures forall p :: p in r <==> p in problems && p.level == level
    {
      Items.OfLevel(problems, level)
    }

    /** `getProblemById(id)`: the first stored problem with that id, or nothing. */
    function ProblemById(id: string): (r: Option<Problem>)
      ensures r.None? <==> forall p :: p in problems ==> p.id != id
      ensures r.Some? ==> r.value in problems && r.value.id == id
      ensures r.Some? ==> exists i :: 0 <= i < |problems| && problems[i] == r.value
                                      && forall j :: 0 <= j < i ==> problems[j].id != id
    {
      Items.FindById(problems, id)
    }

    /** `getTotalCount()`. */
    function TotalCount(): (n: nat)
      ensures n == |problems|
    {
      |problems|
    }

    /** `getCountByLevel(level)`: the number of stored problems at that level. */
    function CountByLevel(level: Level): (n: nat)
      ensures n == |ProblemsByLevel(level)|
      ensures n <= TotalCount()
    {
      |Items.OfLevel(problems, level)|
    }
  }

  /** The per-level counts of a bank add up to its total count. */
  lemma CountsAddUp(bank: ItemBank)
    ensures bank.CountByLevel(Easy) + bank.CountByLevel(Medium) + bank.CountByLevel(Hard) == bank.TotalCount()
  {
    Items.LevelCountsAddUp(bank.problems);
  }
}
