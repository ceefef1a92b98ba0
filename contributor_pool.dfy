// The candidate pool for one subject: enrolled students holding a score of at least 0,
// then one synthetic contributor per positive anonymous score for each grade of the
// school's range, in the order School.calculateScore appends them.

module ContributorPool {
  import opened ContestTypes

  /** No entry occurs twice. */
  ghost predicate Distinct(s: seq<Entry>)
  {
    forall e :: multiset(s)[e] <= 1
  }

  /** An enrolled student joins the pool of a subject when they have a score for it and the
      score number is at least 0. */
  predicate Takes(st: Student, subject: Subject)
  {
    subject in st.scores && st.scores[subject] >= 0
  }

  function NamedEntry(students: seq<Student>, subject: Subject, i: nat): (e: Entry)
    requires i < |students| && subject in students[i].scores
  {
    Entry(Enrolled(i), students[i].grade, students[i].scores[subject])
  }

  /** The entries of the first n enrolled students, in list order. */
  function NamedPool(students: seq<Student>, subject: Subject, n: nat): (named: seq<Entry>)
    requires n <= |students|
  {
    if n == 0 then []
    else
      NamedPool(students, subject, n - 1)
      + (if Takes(students[n - 1], subject) then [NamedEntry(students, subject, n - 1)] else [])
  }

  /** The anonymous scores filed for a subject at a grade; a missing list is empty. */
  function AnonList(anonScores: map<Test, seq<int>>, subject: Subject, g: int): (list: seq<int>)
  {
    if Test(subject, g) in anonScores then anonScores[Test(subject, g)] else []
  }

  /** The synthetic entries at grade g made from the first n scores of a list: one per
      score number greater than 0. */
  function AnonEntries(list: seq<int>, g: int, n: nat): (entries: seq<Entry>)
    requires n <= |list|
  {
    if n == 0 then []
    else
      AnonEntries(list, g, n - 1)
      + (if list[n - 1] > 0 then [Entry(Anonymous(n - 1), g, list[n - 1])] else [])
  }

  /** The synthetic entries of grades lo up to, not including, g. */
  function AnonPool(anonScores: map<Test, seq<int>>, subject: Subject, lo: int, g: int): (anon: seq<Entry>)
    decreases g - lo
  {
    if g <= lo then []
    else
      var list := AnonList(anonScores, subject, g - 1);
      AnonPool(anonScores, subject, lo, g - 1) + AnonEntries(list, g - 1, |list|)
  }

  lemma AnonPoolStep(anonScores: map<Test, seq<int>>, subject: Subject, lo: int, g: int)
    requires lo <= g
    ensures var list := AnonList(anonScores, subject, g);
            AnonPool(anonScores, subject, lo, g + 1) == AnonPool(anonScores, subject, lo, g) + AnonEntries(list, g, |list|)
  {
  }

  /** The whole pool of a subject for a school whose grades run from lo to hi. */
  function Pool(students: seq<Student>, anonScores: map<Test, seq<int>>, subject: Subject,
                lo: int, hi: int): (pool: seq<Entry>)
  {
    NamedPool(students, subject, |students|) + AnonPool(anonScores, subject, lo, hi + 1)
  }

  /** The eligibility rule, entry by entry: an enrolled student with a score of at least 0,
      or a score greater than 0 in a list filed under the subject and a grade of the range. */
  ghost predicate Eligible(students: seq<Student>, anonScores: map<Test, seq<int>>,
                           subject: Subject, lo: int, hi: int, e: Entry)
  {
    match e.origin
    case Enrolled(i) =>
      && i < |students|
      && subject in students[i].scores
      && students[i].scores[subject] >= 0
      && e.grade == students[i].grade
      && e.score == students[i].scores[subject]
    case Anonymous(j) =>
      && lo <= e.grade <= hi
      && Test(subject, e.grade) in anonScores
      && j < |anonScores[Test(subject, e.grade)]|
      && anonScores[Test(subject, e.grade)][j] > 0
      && e.score == anonScores[Test(subject, e.grade)][j]
  }

  lemma {:induction false} NamedPoolMembership(students: seq<Student>, subject: Subject, n: nat, e: Entry)
    requires n <= |students|
    ensures e in NamedPool(students, subject, n) <==>
              && e.origin.Enrolled? && e.origin.index < n
              && Takes(students[e.origin.index], subject)
              && e == NamedEntry(students, subject, e.origin.index)
  {
    if n > 0 {
      var k := n - 1;
      NamedPoolMembership(students, subject, k, e);
      var tail := if Takes(students[k], subject) then [NamedEntry(students, subject, k)] else [];
      assert NamedPool(students, subject, n) == NamedPool(students, subject, k) + tail;
      assert e in tail <==> e.origin == Enrolled(k) && Takes(students[k], subject) && e == NamedEntry(students, subject, k);
    }
  }

  lemma {:induction false} AnonEntriesMembership(list: seq<int>, g: int, n: nat, e: Entry)
    requires n <= |list|
    ensures e in AnonEntries(list, g, n) <==>
              && e.origin.Anonymous? && e.origin.position < n
              && list[e.origin.position] > 0
              && e.grade == g && e.score == list[e.origin.position]
  {
    if n > 0 {
      AnonEntriesMembership(list, g, n - 1, e);
    }
  }

  lemma {:induction false} AnonPoolMembership(anonScores: map<Test, seq<int>>, subject: Subject,
                                              lo: int, g: int, e: Entry)
    decreases g - lo
    ensures e in AnonPool(anonScores, subject, lo, g) <==>
              && e.origin.Anonymous? && lo <= e.grade < g
              && e.origin.position < |AnonList(anonScores, subject, e.grade)|
              && AnonList(anonScores, subject, e.grade)[e.origin.position] > 0
              && e.score == AnonList(anonScores, subject, e.grade)[e.origin.position]
  {
    if g > lo {
      var list := AnonList(anonScores, subject, g - 1);
      AnonPoolMembership(anonScores, subject, lo, g - 1, e);
      AnonEntriesMembership(list, g - 1, |list|, e);
    }
  }

  /** An entry is in the pool exactly when the eligibility rule admits it. In particular a
      grade with no anonymous list adds nothing and is no error. */
  lemma PoolMembership(students: seq<Student>, anonScores: map<Test, seq<int>>, subject: Subject,
                       lo: int, hi: int, e: Entry)
    ensures e in Pool(students, anonScores, subject, lo, hi) <==>
              Eligible(students, anonScores, subject, lo, hi, e)
  {
    NamedPoolMembership(students, subject, |students|, e);
    AnonPoolMembership(anonScores, subject, lo, hi + 1, e);
  }

  /** Every pool entry carries a score of at least 0. */
  lemma PoolScoresNonNegative(students: seq<Student>, anonScores: map<Test, seq<int>>,
                              subject: Subject, lo: int, hi: int)
    ensures forall e :: e in Pool(students, anonScores, subject, lo, hi) ==> e.score >= 0
  {
    forall e | e in Pool(students, anonScores, subject, lo, hi)
      ensures e.score >= 0
    {
      PoolMembership(students, anonScores, subject, lo, hi, e);
    }
  }

  lemma DistinctConcat(a: seq<Entry>, b: seq<Entry>)
    requires Distinct(a) && Distinct(b)
    requires forall e :: e in a ==> e !in b
    ensures Distinct(a + b)
  {
    forall e
      ensures multiset(a + b)[e] <= 1
    {
      assert multiset(a + b) == multiset(a) + multiset(b);
      if e in a {
        assert e !in multiset(b);
      }
    }
  }

  lemma {:induction false} NamedPoolDistinct(students: seq<Student>, subject: Subject, n: nat)
    requires n <= |students|
    ensures Distinct(NamedPool(students, subject, n))
  {
    if n > 0 {
      NamedPoolDistinct(students, subject, n - 1);
      var tail := if Takes(students[n - 1], subject) then [NamedEntry(students, subject, n - 1)] else [];
      forall e | e in NamedPool(students, subject, n - 1)
        ensures e !in tail
      {
        NamedPoolMembership(students, subject, n - 1, e);
      }
      DistinctConcat(NamedPool(students, subject, n - 1), tail);
    }
  }

  lemma {:induction false} AnonEntriesDistinct(list: seq<int>, g: int, n: nat)
    requires n <= |list|
    ensures Distinct(AnonEntries(list, g, n))
  {
    if n > 0 {
      AnonEntriesDistinct(list, g, n - 1);
      var tail := if list[n - 1] > 0 then [Entry(Anonymous(n - 1), g, list[n - 1])] else [];
      forall e | e in AnonEntries(list, g, n - 1)
        ensures e !in tail
      {
        AnonEntriesMembership(list, g, n - 1, e);
      }
      DistinctConcat(AnonEntries(list, g, n - 1), tail);
    }
  }

  lemma {:induction false} AnonPoolDistinct(anonScores: map<Test, seq<int>>, subject: Subject, lo: int, g: int)
    decreases g - lo
    ensures Distinct(AnonPool(anonScores, subject, lo, g))
  {
    if g > lo {
      var below := g - 1;
      var list := AnonList(anonScores, subject, below);
      AnonPoolDistinct(anonScores, subject, lo, below);
      AnonEntriesDistinct(list, below, |list|);
      forall e | e in AnonPool(anonScores, subject, lo, below)
        ensures e !in AnonEntries(list, below, |list|)
      {
        AnonPoolMembership(anonScores, subject, lo, below, e);
        AnonEntriesMembership(list, below, |list|, e);
      }
      DistinctConcat(AnonPool(anonScores, subject, lo, below), AnonEntries(list, below, |list|));
    }
  }

  /** No contributor enters the pool twice. */
  lemma PoolDistinct(students: seq<Student>, anonScores: map<Test, seq<int>>, subject: Subject,
                     lo: int, hi: int)
    ensures Distinct(Pool(students, anonScores, subject, lo, hi))
  {
    var top := hi + 1;
    NamedPoolDistinct(students, subject, |students|);
    AnonPoolDistinct(anonScores, subject, lo, top);
    forall e | e in NamedPool(students, subject, |students|)
      ensures e !in AnonPool(anonScores, subject, lo, top)
    {
      NamedPoolMembership(students, subject, |students|, e);
      AnonPoolMembership(anonScores, subject, lo, top, e);
    }
    DistinctConcat(NamedPool(students, subject, |students|), AnonPool(anonScores, subject, lo, top));
  }
}
