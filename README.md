# School scoring for contest tabulation, in Dafny

This project models `School` from the `contestTabulation` package of a contest-management
application and proves properties of that model. A school holds a few things:

- its enrolled students, each with a grade and a score per subject sat;
- anonymous score lists, filed per test, where a test is a subject at a grade;
- a tally of sittings per test;
- a stored result per subject: the chosen contributors and the sum of their scores;
- one weighted total.

For each subject the school builds a pool of contributors:

- every enrolled student with a score of at least 0;
- for every grade from the level's low grade to its high grade, one synthetic contributor per
  anonymous score greater than 0.

It ranks the pool by score, highest first. It walks the ranking and takes a contributor while
fewer than four are taken. A contributor in the school's highest grade is taken only while fewer
than three of that grade are. It sums the chosen scores and stores the result.

The total then combines the four subject sums:

- at the middle level: `N + C + round(8M/5 + 8S/5)`;
- at every other level: `N + round(10M/9 + 10S/9 + 8C/7)`.

The files:

- `contest_types.dfy`: the value types, reduced to what scoring reads.
  - `Subject` is N, C, M or S.
  - `Test` is a subject and a grade.
  - `Student` is a grade and a map from subject to score number.
  - `Entry` is one pool contributor. Its origin is an enrolled index or an anonymous list
    position.
- `contributor_pool.dfy`: the pool of a subject as a function, and its membership and
  no-repetition lemmas.
- `top_selection.dfy`:
  - the ranking, as a stable insertion sort;
  - the greedy capped walk `Select`, defined over prefixes of the ranking;
  - sums, and the lemmas about all three.
- `team_score.dfy`: the stored result of a subject as a function of the school's data, and the
  promises it keeps: caps, eligibility, maximality, greedy order and exact sum.
- `weighted_total.dfy`: the level formulas on integers, and their relation to the rounding of
  the exact value.
- `school.dfy`: the `School` class. Its fields are the source's fields. Its methods update them
  in place, with the source's loops, and are proved against the functions above.
- `scenarios.dfy`: worked instances on literal data. It also has client methods that chain the
  class's operations: recomputing, recounting, refiling.

The source rounds with `Math.round`, which is `floor(x + 1/2)`, so a half always goes up.
Round-half-away-from-zero would take -2.5 to -3. The model follows the code; `HalvesRoundUp`
states the difference. In every reachable state the rounded value is at least 0
(`SchoolTotalNonNegative` with `TeamWithinCaps`), and there the two rules agree.

## Model

| member | source | states |
|---|---|---|
| `ContestTypes.EverySubjectListed` | src/contestTabulation/School.java:173-175 | the subject enumeration that `calculateScores` iterates lists every subject |
| `ContestTypes.Tally` | src/contestTabulation/School.java:93-97 | the count a test holds, a test with no key counting as 0, as both branches of the key check in `addAnonScores` and `calculateTestNums` (lines 106-110) treat it |
| `ContributorPool.NamedPoolMembership` | src/contestTabulation/School.java:120-124 | an entry is among the enrolled part of the pool iff it stands for an enrolled student who has a score for the subject, and that score is at least 0 |
| `ContributorPool.AnonEntriesMembership` | src/contestTabulation/School.java:129-135 | a synthetic entry comes from a list exactly when the score at its position is greater than 0; the entry carries that score and the list's grade |
| `ContributorPool.AnonPoolMembership` | src/contestTabulation/School.java:126-137 | a synthetic entry is in the pool iff its grade lies between the low grade and the current grade, and its score is positive in the list filed for that grade (a missing list counts as empty) |
| `ContributorPool.PoolMembership` | src/contestTabulation/School.java:118-137 | the pool holds exactly the eligible contributors: enrolled at >= 0, or anonymous at > 0 in a grade from lowGrade to highGrade whose list exists |
| `ContributorPool.PoolScoresNonNegative` | src/contestTabulation/School.java:121-130 | every pool entry scores at least 0 |
| `ContributorPool.PoolDistinct` | src/contestTabulation/School.java:118-137 | no contributor enters the pool twice |
| `ContributorPool.AnonPoolStep` | src/contestTabulation/School.java:126-137 | one more grade appends exactly that grade's synthetic entries |
| `ContributorPool.Pool` | src/contestTabulation/School.java:118-137 | the pool of a subject: the enrolled entries in list order, then the positive anonymous entries grade by grade from lowGrade to highGrade; `PoolMembership` states which entries it holds |
| `TopSelection.InsertPermutes` | src/contestTabulation/School.java:139-144 | inserting adds the one entry and keeps all others |
| `TopSelection.InsertDescending` | src/contestTabulation/School.java:139-144 | inserting into a list ranked highest first keeps it ranked |
| `TopSelection.SortDescendingPermutes` | src/contestTabulation/School.java:139-144 | the ranking is a permutation of the pool |
| `TopSelection.SortDescendingIsDescending` | src/contestTabulation/School.java:139-144 | the ranking is ordered by score, highest first |
| `TopSelection.Insert` | src/contestTabulation/School.java:139-144 | places an entry into a ranking behind every higher score and ahead of every equal or lower one; `InsertPermutes` and `InsertDescending` state its properties |
| `TopSelection.SortDescending` | src/contestTabulation/School.java:139-144 | the ranking of the reversed score comparator, equal scores kept in pool order as a stable sort keeps them; `SortDescendingPermutes` and `SortDescendingIsDescending` state its properties |
| `TopSelection.Select` | src/contestTabulation/School.java:146-159 | the walk over the ranking, which appends an entry exactly when fewer than four are taken and the entry is below the highest grade or fewer than three of that grade are taken; `SelectCaps`, `SelectSize` and `SelectGreedy` state its properties |
| `TopSelection.SelectCaps` | src/contestTabulation/School.java:146-159 | the walk takes at most four contributors, at most three of the highest grade, and only entries of the ranking |
| `TopSelection.SelectPrefix` | src/contestTabulation/School.java:148-159 | a choice is never revoked: the walk over a prefix begins the walk over the whole list, and the later choices come from the rest of the list |
| `TopSelection.SelectStep` | src/contestTabulation/School.java:149-158 | entry k is appended exactly when the walk so far admits it |
| `TopSelection.TakenWhenReached` | src/contestTabulation/School.java:149-158 | a taken entry was admitted at its own step |
| `TopSelection.AdmittedIsTaken` | src/contestTabulation/School.java:149-158 | an entry admitted at its own step is in the final choice |
| `TopSelection.SelectGrows` | src/contestTabulation/School.java:148-159 | the number taken never decreases along the walk |
| `TopSelection.SelectSkipsOnlyCappedHighGrade` | src/contestTabulation/School.java:149-158 | an earlier entry is passed over while a later one is taken only when the earlier one is in the highest grade and three of that grade were already taken |
| `TopSelection.CapFullAtLaterStep` | src/contestTabulation/School.java:149-158 | once three of the highest grade are taken, no later taken entry is of that grade |
| `TopSelection.SelectSize` | src/contestTabulation/School.java:146-159 | maximality: the walk takes min(4, non-high-grade entries + min(3, high-grade entries)); when it takes fewer than four, it took every high-grade entry up to three |
| `TopSelection.HighCountPrefix` | src/contestTabulation/School.java:146-159 | a prefix of the choice holds no more highest-grade entries than the whole |
| `TopSelection.SelectGreedy` | src/contestTabulation/School.java:139-159 | greedy order over a ranking: a passed-over entry that outscores a taken one is in the highest grade, three of that grade were taken, and the taken one is not of that grade |
| `TopSelection.SelectDistinct` | src/contestTabulation/School.java:146-159 | the walk over a list without repetitions takes no entry twice |
| `TopSelection.ElementsOfDistinct` | src/contestTabulation/School.java:147-167 | without repetitions, the chosen set has as many members as the walk took, and as many of the highest grade |
| `TopSelection.SumOfDistinct` | src/contestTabulation/School.java:161-166 | without repetitions, the sum over the chosen set equals the sum along the walk |
| `TopSelection.SelectedCount` | src/contestTabulation/School.java:146-167 | maximality in sets: the chosen set has min(4, non-high + min(3, high)) members |
| `TopSelection.SumSetRemove` | src/contestTabulation/School.java:161-166 | the sum over the chosen map's values does not depend on the order it is iterated in |
| `TopSelection.SumSetNonNegative` | src/contestTabulation/School.java:161-166 | a set of scores of at least 0 sums to at least 0 |
| `TeamScoring.RankingKeepsEntries` | src/contestTabulation/School.java:139-144 | ranking a pool without repetitions keeps its entries and adds no repetition |
| `TeamScoring.ChosenFacts` | src/contestTabulation/School.java:146-167 | the choice over a ranking becomes a set of the same size, high-grade count and sum |
| `TeamScoring.TeamOf` | src/contestTabulation/School.java:146-167 | the stored result of a pool: the set the walk over its ranking takes, with the sum of their scores; `TeamOfWithinCaps`, `TeamOfSize` and `TeamOfGreedy` state its properties |
| `TeamScoring.SubjectTeam` | src/contestTabulation/School.java:117-167 | what `calculateScore` stores for a subject, the `TeamOf` of that subject's pool for the school's grade range |
| `TeamScoring.TeamOfWithinCaps` | src/contestTabulation/School.java:146-167 | a stored result has at most four members, at most three of the highest grade, only pool members, and its sum is the sum of its members |
| `TeamScoring.TeamOfSize` | src/contestTabulation/School.java:146-159 | a stored result has min(4, non-high + min(3, high)) members, counted over the pool's entries |
| `TeamScoring.TeamOfNonNegative` | src/contestTabulation/School.java:161-166 | a pool of scores of at least 0 gives a sum of at least 0 |
| `TeamScoring.TeamOfGreedy` | src/contestTabulation/School.java:139-159 | a pool member left out that outscores a chosen one is in the highest grade, three of that grade were chosen, and the chosen one is not of that grade |
| `TeamScoring.TeamWithinCaps` | src/contestTabulation/School.java:117-170 | a subject's result keeps both caps, holds only eligible contributors, sums its members exactly, and is at least 0 |
| `TeamScoring.TeamIsMaximal` | src/contestTabulation/School.java:146-159 | a subject's result has four members unless the eligible contributors run short, counting at most three of the highest grade |
| `TeamScoring.TeamIsGreedy` | src/contestTabulation/School.java:139-159 | an eligible contributor left out who outscores a member is in the highest grade, the result already holds three of that grade, and that member is not of that grade |
| `WeightedTotal.RoundDiv` | src/contestTabulation/School.java:177-180 | the rounded quotient r satisfies den(2r - 1) <= 2num < den(2r + 1): it is within half of num/den, with a half going up |
| `WeightedTotal.RoundDivIsRoundHalfUp` | src/contestTabulation/School.java:177-180 | integer rounding equals `Math.round` of the exact quotient, floor(num/den + 1/2) |
| `WeightedTotal.RoundDivNeverTies` | src/contestTabulation/School.java:177-180 | with an odd denominator (5 and 63 here) the quotient is never halfway, so the tie rule never applies |
| `WeightedTotal.RoundDivMonotone` | src/contestTabulation/School.java:177-180 | a larger numerator never rounds lower |
| `WeightedTotal.SchoolTotalIsFormula` | src/contestTabulation/School.java:176-181 | the integer total equals the source's expression evaluated exactly: N + C + round(8M/5 + 8S/5) at the middle level, N + round(10M/9 + 10S/9 + 8C/7) otherwise |
| `WeightedTotal.SchoolTotal` | src/contestTabulation/School.java:176-181 | the total from the four subject sums over the common denominators 5 and 63; `SchoolTotalIsFormula` ties it to the source's expression |
| `WeightedTotal.SchoolTotalNonNegative` | src/contestTabulation/School.java:176-181 | subject sums of at least 0 give a total of at least 0 |
| `WeightedTotal.SchoolTotalMonotone` | src/contestTabulation/School.java:176-181 | raising any subject sum never lowers the total |
| `Schools.SelectTop` | src/contestTabulation/School.java:146-159 | the walk with its two counters yields exactly the set of entries that the capped greedy choice takes over the ranking |
| `Schools.SumScores` | src/contestTabulation/School.java:161-166 | the accumulator loop yields the exact sum of the chosen scores |
| `Schools.CountSittings` | src/contestTabulation/School.java:103-112 | one student raises the tally of each test they have a score for by one, creating missing keys, and leaves all other tests alone |
| `Schools.Takers` | src/contestTabulation/School.java:101-115 | how many enrolled students sat a test, that is have a score for its subject and are in its grade; never more than the number of students |
| `Schools.CollectEnrolled` | src/contestTabulation/School.java:120-124 | the first loop yields the enrolled part of the pool, in list order |
| `Schools.AppendAnonymous` | src/contestTabulation/School.java:126-137 | the grade loop appends the synthetic entries of every grade from the low to the high grade, in grade order; a missing list adds nothing |
| `Schools.AppendAnonEntries` | src/contestTabulation/School.java:128-136 | one list appends one entry per positive score, in list order |
| `Schools.School.constructor` | src/contestTabulation/School.java:29-45 | a new school has its name and level, the level's grade range, and empty students, lists, tallies and results |
| `Schools.School.AddStudent` | src/contestTabulation/School.java:87-89 | the student is appended, and nothing else changes |
| `Schools.School.AddAnonScores` | src/contestTabulation/School.java:91-99 | the list under the test is replaced, yet the test's tally grows by the new list's length on top of what it held |
| `Schools.School.CalculateTestNums` | src/contestTabulation/School.java:101-115 | every test's tally grows by the number of enrolled students of its grade who have a score for its subject, with no reset; keys appear exactly for tests held before or sat now |
| `Schools.School.BuildPool` | src/contestTabulation/School.java:118-137 | the pool built by the two loops is the pool function of the current students and lists |
| `Schools.School.CalculateScore` | src/contestTabulation/School.java:117-170 | the subject's stored result is replaced by the capped greedy choice over the ranked pool, with its sum; other subjects keep theirs; the returned set is that choice |
| `Schools.School.CalculateScores` | src/contestTabulation/School.java:172-182 | every subject holds its current result, and the total is the level formula of the four stored sums |
| `Schools.School.GetScore` | src/contestTabulation/School.java:79-81 | a subject's stored sum, which is the sum of its stored members; none before that subject is scored |
| `Schools.School.GetScoreStudents` | src/contestTabulation/School.java:75-77 | a subject's stored members: at most four, at most three of the highest grade; none before that subject is scored |
| `Scenarios.ExamplePool` | src/contestTabulation/School.java:118-137 | a -1 score, a subject not sat, and anonymous 0 and -2 make no entry; the rest appear in source order |
| `Scenarios.ExampleRanking` | src/contestTabulation/School.java:139-144 | a pool scoring 9, 5, 8, 7, 6 ranks as 9, 8, 7, 6, 5 |
| `Scenarios.ExampleWalk` | src/contestTabulation/School.java:146-159 | with four highest-grade entries ahead of a lower-grade one, the fourth is passed over and the lower-grade one is taken |
| `Scenarios.ExampleTeam` | src/contestTabulation/School.java:117-170 | the example's Number Sense result is {9, 8, 7, 5}, summing to 29 |
| `Scenarios.ZeroScoreThresholds` | src/contestTabulation/School.java:121-130 | an enrolled 0 joins the pool; an anonymous 0 does not |
| `Scenarios.MiddleLevelExample` | src/contestTabulation/School.java:176-177 | N 20, C 15, M 10, S 10 at the middle level total 67 |
| `Scenarios.OtherLevelExample` | src/contestTabulation/School.java:179-180 | N 20, C 7, M 9, S 9 at another level total 48 |
| `Scenarios.HalvesRoundUp` | src/contestTabulation/School.java:177-180 | 2.5 rounds to 3, and -2.5 rounds to -2 |
| `Scenarios.ExampleSchool` | src/contestTabulation/School.java:172-182 | building the example school and scoring it stores 29 for Number Sense |
| `Scenarios.ScoreTwice` | src/contestTabulation/School.java:172-182 | scoring twice without new data gives the same total |
| `Scenarios.CountTwice` | src/contestTabulation/School.java:101-115 | counting twice counts every enrolled sitting twice, as the tally is never reset |
| `Scenarios.RefileAnonScores` | src/contestTabulation/School.java:91-99 | filing a second list under a test keeps only the second list, but the tally counts both |

## Left out

- Floating point.
  - The source computes the weighted total in `double` and rounds with `Math.round`.
  - The model computes the exact rational value and rounds that.
  - A double error changes the result only if it carries the value across a half. With
    denominators 5 and 63 the exact value is never a half (`RoundDivNeverTies`), and it stays at
    least 1/126 away from one, far more than the double error at contest-sized sums.
  - The `(int)` cast of the `long` result is not modelled either.
- Java `int` overflow of score sums and tallies is not modelled: integers are unbounded.
- `equals` and `hashCode` (lines 184-213) are not modelled. `equals` has a bug there:
  - when this school's name is not null, it returns true for any other `School`;
  - when both names are null, it calls a method on the null name at line 208.
- `toString` is not modelled.
- The plain getters are not modelled: `getStudents`, both `getAnonScores`, `getName`,
  `getNumStudents`, `getNumTests`, `getLevel` and `getTotalScore` (lines 47-73 and 83-85).
  Each returns a field, and the model's fields are visible, with their values stated by the
  methods that set them.
- The internals of `Student`, `Score`, `Test`, `Level`, `Subject` and `Pair` are not modelled.
  - A score is its score number, and `Score.compareTo` is taken to order score numbers.
  - `Subject` is exactly N, C, M and S.
  - `Level` is a grade range with a middle-level flag.
- `Test.valueOf` throws for a subject and grade with no matching test constant. That failure is
  not modelled: every grade of the range maps to a test.
- `Test.fromSubjectAndGrade(grade, s)` (line 105) is modelled as always giving the test of
  subject s at that grade. What it does for a grade with no test constant is not modelled.
- Null elements in a score list are not modelled. The null check on a chosen score (line 163)
  can never fire, since every pool entry carries a score.
- Student object identity stands behind the selection map's keys. The model gives every pool
  entry a distinct origin, so `Student.equals` is assumed not to merge two contributors.
- `new Student(grade, this)` for a synthetic contributor is modelled as a plain value. Any side
  effect that constructor may have on the school is not modelled.
- Aliasing is not modelled: `addAnonScores` stores the caller's list, and the getters hand out
  the school's own collections. The model stores values.
- `Collections.sort` is a library call. The model uses a stable insertion sort, which orders
  equal scores the same way as a stable sort under the reversed comparator.
- Schools.School.CalculateScore: returns and stores the chosen contributors as a set. The
  source's array (`toArray` of the key set) and map have an iteration order, which is not
  modelled.
- Schools.School.GetScoreStudents: like the getter, it returns the stored members as a set;
  the array's order is not modelled. A subject not yet scored gives `None`, where the source
  fails with a null dereference.
- Schools.School.GetScore: a subject not yet scored gives `None`, where the source fails with a
  null dereference.
