// What School.calculateScore stores for one subject, as a value of the school's data, and the
// promises that value keeps: the caps, maximality, greedy order and its sum.

module TeamScoring {
  import opened ContestTypes
  import opened ContributorPool
  import opened TopSelection

  /** The stored result for a pool: the contributors the walk over its ranking takes, and
      the sum of their scores. */
  ghost function TeamOf(pool: seq<Entry>, high: int): (team: TeamScore)
  {
    var chosen := Elements(Select(SortDescending(pool), high));
    TeamScore(chosen, SumSet(chosen))
  }

  /** The stored result of a subject for a school with grades lo to hi. */
  ghost function SubjectTeam(students: seq<Student>, anonScores: map<Test, seq<int>>,
                             subject: Subject, lo: int, hi: int): (team: TeamScore)
  {
    TeamOf(Pool(students, anonScores, subject, lo, hi), hi)
  }

  /** What every stored result satisfies: at most four members, at most three of them in the
      highest grade, and a sum that is exactly the sum of the members' scores. */
  ghost predicate WellFormed(team: TeamScore, high: int)
  {
    && |team.members| <= TeamSize
    && |HighMembers(team.members, high)| <= HighGradeCap
    && team.sum == SumSet(team.members)
  }

  /** Ranking a pool without repetitions keeps it without repetitions and keeps its entries. */
  lemma RankingKeepsEntries(pool: seq<Entry>)
    requires Distinct(pool)
    ensures Distinct(SortDescending(pool))
    ensures Elements(SortDescending(pool)) == Elements(pool)
  {
    var r := SortDescending(pool);
    SortDescendingPermutes(pool);
    forall e
      ensures e in r <==> e in pool
    {
      assert e in r <==> e in multiset(r);
      assert e in pool <==> e in multiset(pool);
    }
  }

  /** The walk over the ranking of a pool: its result has no repetitions, and the count
      of its members and of its highest-grade members carries over to the chosen set. */
  lemma ChosenFacts(pool: seq<Entry>, high: int)
    requires Distinct(pool)
    ensures var chosen := Select(SortDescending(pool), high);
            && Distinct(chosen)
            && |Elements(chosen)| == |chosen|
            && |HighMembers(Elements(chosen), high)| == HighCount(chosen, high)
            && SumSet(Elements(chosen)) == SumSeq(chosen)
  {
    RankingKeepsEntries(pool);
    SelectDistinct(SortDescending(pool), high);
    ElementsOfDistinct(Select(SortDescending(pool), high), high);
    SumOfDistinct(Select(SortDescending(pool), high));
  }

  lemma TeamOfWithinCaps(pool: seq<Entry>, high: int)
    requires Distinct(pool)
    ensures WellFormed(TeamOf(pool, high), high)
    ensures forall e :: e in TeamOf(pool, high).members ==> e in pool
  {
    var ranked := SortDescending(pool);
    var chosen := Select(ranked, high);
    ChosenFacts(pool, high);
    RankingKeepsEntries(pool);
    SelectCaps(ranked, high);
    assert TeamOf(pool, high).members == Elements(chosen);
    forall e | e in Elements(chosen)
      ensures e in pool
    {
      assert e in ranked;
      assert e in Elements(ranked);
    }
  }

  lemma TeamOfSize(pool: seq<Entry>, high: int)
    requires Distinct(pool)
    ensures var candidates := Elements(pool);
            var h := |HighMembers(candidates, high)|;
            |TeamOf(pool, high).members| == Min(TeamSize, (|candidates| - h) + Min(HighGradeCap, h))
  {
    var ranked := SortDescending(pool);
    RankingKeepsEntries(pool);
    SelectedCount(ranked, high);
    assert TeamOf(pool, high).members == Elements(Select(ranked, high));
  }

  lemma TeamOfNonNegative(pool: seq<Entry>, high: int)
    requires forall e :: e in pool ==> e.score >= 0
    ensures TeamOf(pool, high).sum >= 0
  {
    var members := TeamOf(pool, high).members;
    SelectCaps(SortDescending(pool), high);
    SortDescendingPermutes(pool);
    forall e | e in members
      ensures e.score >= 0
    {
      assert e in multiset(SortDescending(pool));
    }
    SumSetNonNegative(members);
  }

  lemma TeamOfGreedy(pool: seq<Entry>, high: int, x: Entry, y: Entry)
    requires Distinct(pool)
    requires x in pool && x !in TeamOf(pool, high).members
    requires y in TeamOf(pool, high).members && x.score > y.score
    ensures x.grade == high
    ensures |HighMembers(TeamOf(pool, high).members, high)| == HighGradeCap
    ensures y.grade != high
  {
    var ranked := SortDescending(pool);
    var chosen := Select(ranked, high);
    RankingKeepsEntries(pool);
    ChosenFacts(pool, high);
    assert TeamOf(pool, high).members == Elements(chosen);
    assert x in Elements(ranked);
    SortDescendingIsDescending(pool);
    SelectGreedy(ranked, high, x, y);
  }

  /** A subject's result keeps the caps, holds only eligible contributors, and sums to at
      least 0. */
  lemma TeamWithinCaps(students: seq<Student>, anonScores: map<Test, seq<int>>,
                       subject: Subject, lo: int, hi: int)
    ensures WellFormed(SubjectTeam(students, anonScores, subject, lo, hi), hi)
    ensures forall e :: e in SubjectTeam(students, anonScores, subject, lo, hi).members ==>
                          Eligible(students, anonScores, subject, lo, hi, e)
    ensures SubjectTeam(students, anonScores, subject, lo, hi).sum >= 0
  {
    var pool := Pool(students, anonScores, subject, lo, hi);
    PoolDistinct(students, anonScores, subject, lo, hi);
    TeamOfWithinCaps(pool, hi);
    PoolScoresNonNegative(students, anonScores, subject, lo, hi);
    TeamOfNonNegative(pool, hi);
    forall e | e in TeamOf(pool, hi).members
      ensures Eligible(students, anonScores, subject, lo, hi, e)
    {
      PoolMembership(students, anonScores, subject, lo, hi, e);
    }
  }

  /** Maximality: a result has four members unless the pool runs short, with at most three
      of the highest grade counted as available. */
  lemma TeamIsMaximal(students: seq<Student>, anonScores: map<Test, seq<int>>,
                      subject: Subject, lo: int, hi: int)
    ensures var candidates := Elements(Pool(students, anonScores, subject, lo, hi));
            var high := |HighMembers(candidates, hi)|;
            |SubjectTeam(students, anonScores, subject, lo, hi).members| ==
              Min(TeamSize, (|candidates| - high) + Min(HighGradeCap, high))
  {
    var pool := Pool(students, anonScores, subject, lo, hi);
    PoolDistinct(students, anonScores, subject, lo, hi);
    TeamOfSize(pool, hi);
  }

  /** Greedy order: an eligible contributor left out who scores strictly more than a member
      is in the highest grade, the result already holds three of that grade, and that member
      is not of that grade. */
  lemma TeamIsGreedy(students: seq<Student>, anonScores: map<Test, seq<int>>,
                     subject: Subject, lo: int, hi: int, x: Entry, y: Entry)
    requires Eligible(students, anonScores, subject, lo, hi, x)
    requires x !in SubjectTeam(students, anonScores, subject, lo, hi).members
    requires y in SubjectTeam(students, anonScores, subject, lo, hi).members
    requires x.score > y.score
    ensures x.grade == hi
    ensures |HighMembers(SubjectTeam(students, anonScores, subject, lo, hi).members, hi)| == HighGradeCap
    ensures y.grade != hi
  {
    var pool := Pool(students, anonScores, subject, lo, hi);
    PoolDistinct(students, anonScores, subject, lo, hi);
    PoolMembership(students, anonScores, subject, lo, hi, x);
    TeamOfGreedy(pool, hi, x, y);
  }
}
