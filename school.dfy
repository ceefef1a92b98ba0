// The School object of contestTabulation: its enrolled students, anonymous score lists, test
// tallies, per-subject results and total, and the methods that update them in place.

module Schools {
  import opened ContestTypes
  import opened ContributorPool
  import opened TopSelection
  import opened TeamScoring
  import opened WeightedTotal

  /** An enrolled student sat test t: they are in t's grade and have a score recorded for
      t's subject, whatever its value. */
  predicate Sits(student: Student, t: Test)
  {
    student.grade == t.grade && t.subject in student.scores
  }

  /** How many enrolled students sat test t. */
  function Takers(students: seq<Student>, t: Test): (k: nat)
    ensures k <= |students|
  {
    if students == [] then 0
    else Takers(students[..|students| - 1], t) + (if Sits(students[|students| - 1], t) then 1 else 0)
  }

  /** The walk of calculateScore over a ranked pool: a contributor is taken while fewer than
      four are taken, one of the highest grade only while fewer than three of those are. */
  method SelectTop(ranked: seq<Entry>, highGrade: int) returns (top4: set<Entry>)
    requires Distinct(ranked)
    ensures top4 == Elements(Select(ranked, highGrade))
  {
    var inHighGrade := 0;
    top4 := {};
    ghost var chosen: seq<Entry> := [];
    for i := 0 to |ranked|
      invariant chosen == Select(ranked[..i], highGrade)
      invariant top4 == Elements(chosen) && |top4| == |chosen|
      invariant inHighGrade == HighCount(chosen, highGrade)
    {
      var student := ranked[i];
      SelectStep(ranked, highGrade, i);
      DistinctSplit(ranked, i);
      HighCountSnoc(chosen, student, highGrade);
      SelectCaps(ranked[..i], highGrade);
      ElementsSnoc(chosen, student);
      assert student !in top4;
      if |top4| < TeamSize {
        if highGrade == student.grade && inHighGrade < HighGradeCap {
          top4 := top4 + {student};
          inHighGrade := inHighGrade + 1;
          chosen := chosen + [student];
        } else if highGrade != student.grade {
          top4 := top4 + {student};
          chosen := chosen + [student];
        }
      }
    }
    assert ranked[..|ranked|] == ranked;
  }

  /** The accumulator loop of calculateScore over the chosen contributors' scores. */
  method SumScores(top4: set<Entry>) returns (total: int)
    ensures total == SumSet(top4)
  {
    total := 0;
    var rest := top4;
    while rest != {}
      invariant rest <= top4
      invariant total + SumSet(rest) == SumSet(top4)
      decreases |rest|
    {
      var e :| e in rest;
      SumSetRemove(rest, e);
      total := total + e.score;
      rest := rest - {e};
    }
  }

  /** The inner loop of calculateTestNums: one more sitting of each test a student has a
      score for, the test being the student's grade and the score's subject. */
  method CountSittings(counts: map<Test, nat>, student: Student) returns (counts': map<Test, nat>)
    ensures forall t :: Tally(counts', t) == Tally(counts, t) + (if Sits(student, t) then 1 else 0)
    ensures forall t :: t in counts' <==> t in counts || Sits(student, t)
  {
    counts' := counts;
    var grade := student.grade;
    var remaining := student.scores.Keys;
    while remaining != {}
      invariant remaining <= student.scores.Keys
      invariant forall t :: Tally(counts', t) == Tally(counts, t)
                              + (if t.grade == grade && t.subject in student.scores.Keys - remaining then 1 else 0)
      invariant forall t :: t in counts' <==> t in counts || (t.grade == grade && t.subject in student.scores.Keys - remaining)
      decreases remaining
    {
      var s :| s in remaining;
      var test := Test(s, grade);
      if test !in counts' {
        counts' := counts'[test := 1];
      } else {
        counts' := counts'[test := counts'[test] + 1];
      }
      remaining := remaining - {s};
    }
  }

  /** The first loop of calculateScore: every enrolled student with a score of at least 0
      for the subject, in list order. */
  method CollectEnrolled(students: seq<Student>, subject: Subject) returns (pool: seq<Entry>)
    ensures pool == NamedPool(students, subject, |students|)
  {
    pool := [];
    for i := 0 to |students|
      invariant pool == NamedPool(students, subject, i)
    {
      var student := students[i];
      if subject in student.scores && student.scores[subject] >= 0 {
        pool := pool + [Entry(Enrolled(i), student.grade, student.scores[subject])];
      }
    }
  }

  /** The second loop of calculateScore: for each grade from lo to hi, the synthetic
      contributors of the list filed under the subject and that grade, if there is one. */
  method AppendAnonymous(pool: seq<Entry>, anonScores: map<Test, seq<int>>, subject: Subject,
                         lo: int, hi: int) returns (pool': seq<Entry>)
    ensures pool' == pool + AnonPool(anonScores, subject, lo, hi + 1)
  {
    pool' := pool;
    var grade := lo;
    while grade <= hi
      invariant lo <= grade && (grade <= hi + 1 || grade == lo)
      invariant pool' == pool + AnonPool(anonScores, subject, lo, grade)
      decreases hi - grade
    {
      var test := Test(subject, grade);
      ghost var list := AnonList(anonScores, subject, grade);
      ghost var before := pool';
      if test in anonScores {
        pool' := AppendAnonEntries(pool', anonScores[test], grade);
      } else {
        assert AnonEntries(list, grade, |list|) == [];
      }
      AnonPoolStep(anonScores, subject, lo, grade);
      assert pool' == pool + (AnonPool(anonScores, subject, lo, grade) + AnonEntries(list, grade, |list|));
      grade := grade + 1;
    }
  }

  /** One synthetic contributor at the given grade for every score above 0 of a list,
      appended to the pool in list order. */
  method AppendAnonEntries(pool: seq<Entry>, scores: seq<int>, grade: int) returns (pool': seq<Entry>)
    ensures pool' == pool + AnonEntries(scores, grade, |scores|)
  {
    pool' := pool;
    for j := 0 to |scores|
      invariant pool' == pool + AnonEntries(scores, grade, j)
    {
      if scores[j] > 0 {
        pool' := pool' + [Entry(Anonymous(j), grade, scores[j])];
      }
    }
  }

  class School {
    const name: string
    const level: Level
    const lowGrade: int
    const highGrade: int
    var students: seq<Student>
    var numTests: map<Test, nat>
    var topScores: map<Subject, TeamScore>
    var anonScores: map<Test, seq<int>>
    var totalScore: int

    /** Every stored subject result keeps the caps and holds the sum of its members. */
    ghost predicate Valid()
      reads this`topScores
    {
      forall s :: s in topScores ==> WellFormed(topScores[s], highGrade)
    }

    /** The result calculateScore computes for a subject from the current students and
        anonymous scores. */
    ghost function Team(subject: Subject): (team: TeamScore)
      reads this`students, this`anonScores
    {
      SubjectTeam(students, anonScores, subject, lowGrade, highGrade)
    }

    constructor (name: string, level: Level)
      ensures this.name == name && this.level == level
      ensures lowGrade == level.lowGrade && highGrade == level.highGrade
      ensures students == [] && anonScores == map[] && numTests == map[]
      ensures topScores == map[] && totalScore == 0
      ensures Valid()
    {
      this.name := name;
      this.level := level;
      this.lowGrade := level.lowGrade;
      this.highGrade := level.highGrade;
      students := [];
      numTests := map[];
      topScores := map[];
      anonScores := map[];
      totalScore := 0;
    }

    method AddStudent(student: Student)
      requires Valid()
      modifies this`students
      ensures Valid()
      ensures students == old(students) + [student]
    {
      students := students + [student];
    }

    /** Files an anonymous score list under a test, replacing any list filed before, and adds
        its length to the test's tally. */
    method AddAnonScores(test: Test, scores: seq<int>)
      requires Valid()
      modifies this`anonScores, this`numTests
      ensures Valid()
      ensures anonScores == old(anonScores)[test := scores]
      ensures numTests == old(numTests)[test := Tally(old(numTests), test) + |scores|]
    {
      anonScores := anonScores[test := scores];
      if test !in numTests {
        numTests := numTests[test := |scores|];
      } else {
        numTests := numTests[test := numTests[test] + |scores|];
      }
    }

    /** Adds one to a test's tally for every enrolled student who sat it, on top of the
        counts already held. */
    method CalculateTestNums()
      requires Valid()
      modifies this`numTests
      ensures Valid()
      ensures forall t :: Tally(numTests, t) == Tally(old(numTests), t) + Takers(students, t)
      ensures forall t :: t in numTests <==> t in old(numTests) || Takers(students, t) > 0
    {
      for i := 0 to |students|
        invariant forall t :: Tally(numTests, t) == Tally(old(numTests), t) + Takers(students[..i], t)
        invariant forall t :: t in numTests <==> t in old(numTests) || Takers(students[..i], t) > 0
      {
        assert students[..i + 1][..i] == students[..i];
        numTests := CountSittings(numTests, students[i]);
      }
      assert students[..|students|] == students;
    }

    /** Builds the candidate pool of a subject: enrolled students first, then the synthetic
        contributors of each grade from lowGrade to highGrade. */
    method BuildPool(subject: Subject) returns (pool: seq<Entry>)
      ensures pool == Pool(students, anonScores, subject, lowGrade, highGrade)
    {
      pool := CollectEnrolled(students, subject);
      pool := AppendAnonymous(pool, anonScores, subject, lowGrade, highGrade);
    }

    /** Scores one subject: builds its pool, ranks it, takes the capped top four, sums them
        and stores the result under the subject, replacing the one stored before. */
    method CalculateScore(subject: Subject) returns (top4: set<Entry>)
      requires Valid()
      modifies this`topScores
      ensures Valid()
      ensures topScores == old(topScores)[subject := Team(subject)]
      ensures top4 == Team(subject).members
    {
      var subjectStudents := BuildPool(subject);
      PoolDistinct(students, anonScores, subject, lowGrade, highGrade);
      var ranked := SortDescending(subjectStudents);
      RankingKeepsEntries(subjectStudents);
      top4 := SelectTop(ranked, highGrade);
      var sum := SumScores(top4);
      topScores := topScores[subject := TeamScore(top4, sum)];
      TeamWithinCaps(students, anonScores, subject, lowGrade, highGrade);
    }

    /** Scores every subject, then combines the four sums by the level's formula. */
    method CalculateScores()
      requires Valid()
      modifies this`topScores, this`totalScore
      ensures Valid()
      ensures forall s: Subject :: s in topScores && topScores[s] == Team(s)
      ensures totalScore == SchoolTotal(level.isMiddle, Team(N).sum, Team(C).sum, Team(M).sum, Team(S).sum)
    {
      var subjects := AllSubjects;
      for i := 0 to |subjects|
        invariant Valid()
        invariant forall s :: s in subjects[..i] ==> s in topScores && topScores[s] == Team(s)
      {
        assert subjects[..i + 1] == subjects[..i] + [subjects[i]];
        var _ := CalculateScore(subjects[i]);
      }
      assert subjects[..|subjects|] == subjects;
      forall s: Subject
        ensures s in topScores && topScores[s] == Team(s)
      {
        EverySubjectListed(s);
      }
      if level.isMiddle {
        totalScore := topScores[N].sum + topScores[C].sum
                      + RoundDiv(8 * (topScores[M].sum + topScores[S].sum), 5);
      } else {
        totalScore := topScores[N].sum
                      + RoundDiv(70 * (topScores[M].sum + topScores[S].sum) + 72 * topScores[C].sum, 63);
      }
    }

    /** The stored sum of a subject; None where the source fails on a subject not yet scored. */
    function GetScore(subject: Subject): (r: Option<int>)
      requires Valid()
      reads this
      ensures r.Some? <==> subject in topScores
      ensures r.Some? ==> r.value == SumSet(topScores[subject].members)
    {
      if subject in topScores then Some(topScores[subject].sum) else None
    }

    /** The stored contributors of a subject; None where the source fails on a subject not
        yet scored. */
    function GetScoreStudents(subject: Subject): (r: Option<set<Entry>>)
      requires Valid()
      reads this
      ensures r.Some? <==> subject in topScores
      ensures r.Some? ==> |r.value| <= TeamSize && |HighMembers(r.value, highGrade)| <= HighGradeCap
    {
      if subject in topScores then Some(topScores[subject].members) else None
    }
  }
}
