// Worked instances of the scoring rules, over small literal schools.

module Scenarios {
  import opened ContestTypes
  import opened ContributorPool
  import opened TopSelection
  import opened TeamScoring
  import opened WeightedTotal
  import opened Schools

  /** Two enrolled grade-8 students and one grade-7 student sat Number Sense; a third grade-8
      student has a score of -1 and a fourth did not sit it. */
  const Enrolment: seq<Student> := [
    Student(8, map[N := 9]),
    Student(7, map[N := 5]),
    Student(8, map[N := 8, C := 3]),
    Student(8, map[N := -1]),
    Student(8, map[C := 4])
  ]

  /** Anonymous Number Sense results of grade 8; the 0 and the -2 make no contributor. */
  const Unattributed: map<Test, seq<int>> := map[Test(N, 8) := [7, 0, 6, -2]]

  /** The contributors of that pool, named by their score numbers. */
  const Nine: Entry := Entry(Enrolled(0), 8, 9)
  const Five: Entry := Entry(Enrolled(1), 7, 5)
  const Eight: Entry := Entry(Enrolled(2), 8, 8)
  const Seven: Entry := Entry(Anonymous(0), 8, 7)
  const Six: Entry := Entry(Anonymous(2), 8, 6)

  /** The Number Sense pool of a school of grades 7 and 8: the enrolled students with a score
      of at least 0 in list order, then the positive anonymous scores. */
  lemma ExamplePool()
    ensures Pool(Enrolment, Unattributed, N, 7, 8) == [Nine, Five, Eight, Seven, Six]
  {
    assert AnonList(Unattributed, N, 7) == [];
    assert AnonList(Unattributed, N, 8) == [7, 0, 6, -2];
  }

  /** Ranked, a pool scoring 9, 5, 8, 7, 6 reads 9, 8, 7, 6, 5. */
  lemma ExampleRanking(nine: Entry, five: Entry, eight: Entry, seven: Entry, six: Entry)
    requires nine.score == 9 && five.score == 5 && eight.score == 8 && seven.score == 7 && six.score == 6
    ensures SortDescending([nine, five, eight, seven, six]) == [nine, eight, seven, six, five]
  {
    assert SortDescending([six]) == [six] by { assert [six][1..] == []; }
    assert SortDescending([seven, six]) == [seven, six] by { assert [seven, six][1..] == [six]; }
    assert SortDescending([eight, seven, six]) == [eight, seven, six] by {
      assert [eight, seven, six][1..] == [seven, six];
    }
    assert SortDescending([five, eight, seven, six]) == [eight, seven, six, five] by {
      assert [five, eight, seven, six][1..] == [eight, seven, six];
      assert Insert(five, []) == [five];
      assert Insert(five, [six]) == [six, five] by { assert [six][1..] == []; }
      assert Insert(five, [seven, six]) == [seven, six, five] by { assert [seven, six][1..] == [six]; }
      assert Insert(five, [eight, seven, six]) == [eight, seven, six, five] by {
        assert [eight, seven, six][1..] == [seven, six];
      }
    }
    var s := [nine, five, eight, seven, six];
    assert s[1..] == [five, eight, seven, six];
    assert SortDescending(s) == Insert(nine, [eight, seven, six, five]);
    assert Insert(nine, [eight, seven, six, five]) == [nine] + [eight, seven, six, five];
    assert [nine] + [eight, seven, six, five] == [nine, eight, seven, six, five];
    assert SortDescending(s) == [nine, eight, seven, six, five];
  }

  /** Four grade-8 entries lead the ranking, so the walk takes three of them, passes over the
      fourth and takes the grade-7 entry after it. */
  lemma ExampleWalk(nine: Entry, eight: Entry, seven: Entry, six: Entry, five: Entry)
    requires nine.grade == 8 && eight.grade == 8 && seven.grade == 8 && six.grade == 8 && five.grade == 7
    ensures Select([nine, eight, seven, six, five], 8) == [nine, eight, seven, five]
  {
    var ranked := [nine, eight, seven, six, five];
    assert Select(ranked[..1], 8) == [nine] by { assert ranked[..1][..0] == []; }
    assert Select(ranked[..2], 8) == [nine, eight] by { assert ranked[..2][..1] == ranked[..1]; }
    assert Select(ranked[..3], 8) == [nine, eight, seven] by { assert ranked[..3][..2] == ranked[..2]; }
    assert Select(ranked[..4], 8) == [nine, eight, seven] by { assert ranked[..4][..3] == ranked[..3]; }
    assert ranked[..4] == ranked[..|ranked| - 1];
  }

  /** The stored Number Sense result: those four, summing to 9 + 8 + 7 + 5 = 29. */
  lemma ExampleTeam()
    ensures SubjectTeam(Enrolment, Unattributed, N, 7, 8) == TeamScore({Nine, Eight, Seven, Five}, 29)
  {
    var pool := Pool(Enrolment, Unattributed, N, 7, 8);
    var ranked := [Nine, Eight, Seven, Six, Five];
    var chosen := [Nine, Eight, Seven, Five];
    ExamplePool();
    ExampleRanking(Nine, Five, Eight, Seven, Six);
    ExampleWalk(Nine, Eight, Seven, Six, Five);
    assert Select(SortDescending(pool), 8) == chosen;
    var team := {Nine, Eight, Seven, Five};
    assert Elements(chosen) == team;
    SumSetRemove(team, Nine);
    assert team - {Nine} == {Eight, Seven, Five};
    SumSetRemove({Eight, Seven, Five}, Eight);
    assert {Eight, Seven, Five} - {Eight} == {Seven, Five};
    SumSetRemove({Seven, Five}, Seven);
    assert {Seven, Five} - {Seven} == {Five};
    SumSetRemove({Five}, Five);
    assert {Five} - {Five} == {};
  }

  /** The two thresholds differ: an enrolled score of 0 joins the pool, an anonymous score of
      0 does not. */
  lemma ZeroScoreThresholds()
    ensures Pool([Student(8, map[N := 0])], map[Test(N, 8) := [0]], N, 7, 8) == [Entry(Enrolled(0), 8, 0)]
  {
    var students := [Student(8, map[N := 0])];
    var anon := map[Test(N, 8) := [0]];
    assert NamedPool(students, N, 1) == [Entry(Enrolled(0), 8, 0)];
    assert AnonList(anon, N, 7) == [];
    assert AnonList(anon, N, 8) == [0];
    assert AnonEntries([0], 8, 1) == [];
  }

  /** A middle-level school with sums N 20, C 15, M 10, S 10 totals 20 + 15 + round(32) = 67. */
  lemma MiddleLevelExample()
    ensures SchoolTotal(true, 20, 15, 10, 10) == 67
  {
    assert RoundDiv(8 * (10 + 10), 5) == 32;
  }

  /** Any other level with sums N 20, C 7, M 9, S 9 totals 20 + round(10 + 10 + 8) = 48. */
  lemma OtherLevelExample()
    ensures SchoolTotal(false, 20, 7, 9, 9) == 48
  {
    assert RoundDiv(70 * (9 + 9) + 72 * 7, 63) == 28;
  }

  /** Math.round takes a half upwards, also below 0: -2.5 rounds to -2, not to -3. */
  lemma HalvesRoundUp()
    ensures RoundHalfUp(-2.5) == -2 && RoundDiv(-5, 2) == -2
    ensures RoundHalfUp(2.5) == 3 && RoundDiv(5, 2) == 3
  {
    RoundDivIsRoundHalfUp(-5, 2);
    RoundDivIsRoundHalfUp(5, 2);
  }

  /** A middle-level school of grades 7 and 8 holding the example students and list. */
  method NewExampleSchool() returns (school: School)
    ensures fresh(school) && school.Valid()
    ensures school.lowGrade == 7 && school.highGrade == 8
    ensures school.students == Enrolment && school.anonScores == Unattributed
  {
    school := new School("Example", Level(7, 8, true));
    school.AddStudent(Enrolment[0]);
    school.AddStudent(Enrolment[1]);
    school.AddStudent(Enrolment[2]);
    school.AddStudent(Enrolment[3]);
    school.AddStudent(Enrolment[4]);
    assert school.students == Enrolment;
    school.AddAnonScores(Test(N, 8), [7, 0, 6, -2]);
  }

  /** Scoring the example school stores 29 as its Number Sense sum. */
  method ExampleSchool() returns (numberSense: Option<int>)
    ensures numberSense == Some(29)
  {
    var school := NewExampleSchool();
    school.CalculateScores();
    assert school.topScores[N] == school.Team(N);
    ExampleTeam();
    numberSense := school.GetScore(N);
  }

  /** Scoring again without new data changes nothing: every stored result and the total come
      out the same. */
  method ScoreTwice(school: School) returns (first: int, second: int)
    requires school.Valid()
    modifies school`topScores, school`totalScore
    ensures first == second
  {
    school.CalculateScores();
    first := school.totalScore;
    school.CalculateScores();
    second := school.totalScore;
  }

  /** Counting sittings again counts every enrolled sitting a second time, as the source keeps
      the counts it already holds. */
  method CountTwice(school: School)
    requires school.Valid()
    modifies school`numTests
    ensures forall t :: Tally(school.numTests, t) == Tally(old(school.numTests), t) + 2 * Takers(school.students, t)
  {
    school.CalculateTestNums();
    school.CalculateTestNums();
  }

  /** Filing a second anonymous list under a test replaces the first list, yet the tally
      keeps the first list's length as well. */
  method RefileAnonScores(school: School, test: Test, first: seq<int>, second: seq<int>)
    requires school.Valid()
    modifies school`anonScores, school`numTests
    ensures test in school.anonScores && school.anonScores[test] == second
    ensures Tally(school.numTests, test) == Tally(old(school.numTests), test) + |first| + |second|
  {
    school.AddAnonScores(test, first);
    school.AddAnonScores(test, second);
  }
}
