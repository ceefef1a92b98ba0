// The contest's value types, reduced to what school scoring reads of them.

module ContestTypes {

  datatype Option<+T> = None | Some(value: T)

  /** The contest subjects: Number Sense, Calculator, Mathematics, Science. */
  datatype Subject = N | C | M | S

  /** The fixed enumeration the school total is computed over. */
  const AllSubjects: seq<Subject> := [N, C, M, S]

  lemma EverySubjectListed(s: Subject)
    ensures s in AllSubjects
  {
    match s
    case N => assert AllSubjects[0] == N;
    case C => assert AllSubjects[1] == C;
    case M => assert AllSubjects[2] == M;
    case S => assert AllSubjects[3] == S;
  }

  /** A test is one subject sat at one grade. */
  datatype Test = Test(subject: Subject, grade: int)

  /** A contest level: the grade range it admits and whether it is the middle-school level,
      which selects the aggregation formula. */
  datatype Level = Level(lowGrade: int, highGrade: int, isMiddle: bool)

  /** An enrolled student: a grade and a score number per subject sat
      (a negative number marks a missing or invalid result). */
  datatype Student = Student(grade: int, scores: map<Subject, int>)

  /** Where a pool entry comes from: the index of an enrolled student, or the position of an
      anonymous score in the list filed for the entry's grade. */
  datatype Origin = Enrolled(index: nat) | Anonymous(position: nat)

  /** One contributor in a subject's candidate pool: a real student or a synthetic one made
      for a single anonymous score. Distinct origins make distinct entries, as distinct
      Student objects are distinct keys of the Java selection map. */
  datatype Entry = Entry(origin: Origin, grade: int, score: int)

  /** A stored per-subject result: the selected contributors and the sum of their scores. */
  datatype TeamScore = TeamScore(members: set<Entry>, sum: int)

  /** The value a count map holds for a test, a missing key counting as 0. */
  function Tally(counts: map<Test, nat>, t: Test): (n: nat)
  {
    if t in counts then counts[t] else 0
  }
}
