// Ranking and the capped greedy choice of School.calculateScore: the pool is sorted by score,
// highest first, then walked in that order, taking a contributor while fewer than four are
// taken, and one of the school's highest grade only while fewer than three of those are.

module TopSelection {
  import opened ContestTypes
  import opened ContributorPool

  /** At most this many contributors make a subject's team. */
  const TeamSize: nat := 4

  /** At most this many of them may be in the school's highest grade. */
  const HighGradeCap: nat := 3

  function Min(a: int, b: int): (m: int)
  {
    if a <= b then a else b
  }

  // ---------------------------------------------------------------------------------------
  // Ranking

  ghost predicate Descending(s: seq<Entry>)
  {
    forall i, j :: 0 <= i < j < |s| ==> s[i].score >= s[j].score
  }

  /** Puts x into a list sorted highest first, ahead of every entry of equal score. */
  function Insert(x: Entry, r: seq<Entry>): (q: seq<Entry>)
  {
    if r == [] || r[0].score <= x.score then [x] + r
    else [r[0]] + Insert(x, r[1..])
  }

  /** Inserting adds x and keeps every other entry. */
  lemma {:induction false} InsertPermutes(x: Entry, r: seq<Entry>)
    ensures multiset(Insert(x, r)) == multiset(r) + multiset{x}
  {
    if r != [] && r[0].score > x.score {
      InsertPermutes(x, r[1..]);
      assert r == [r[0]] + r[1..];
    }
  }

  /** Inserting into a ranking keeps it ranked. */
  lemma {:induction false} InsertDescending(x: Entry, r: seq<Entry>)
    requires Descending(r)
    ensures Descending(Insert(x, r))
  {
    if r != [] && r[0].score > x.score {
      var q' := Insert(x, r[1..]);
      InsertDescending(x, r[1..]);
      InsertPermutes(x, r[1..]);
      forall e | e in q'
        ensures r[0].score >= e.score
      {
        assert e in multiset(q');
        if e != x {
          assert e in multiset(r[1..]);
        }
      }
    }
  }

  /** The ranking of a pool: its entries, highest score first. Entries of equal score keep
      their pool order, as they do under the stable library sort. */
  function SortDescending(s: seq<Entry>): (ranked: seq<Entry>)
  {
    if s == [] then [] else Insert(s[0], SortDescending(s[1..]))
  }

  /** The ranking holds exactly the entries of the pool, as often as the pool does. */
  lemma {:induction false} SortDescendingPermutes(s: seq<Entry>)
    ensures multiset(SortDescending(s)) == multiset(s)
  {
    if s != [] {
      SortDescendingPermutes(s[1..]);
      InsertPermutes(s[0], SortDescending(s[1..]));
      assert s == [s[0]] + s[1..];
    }
  }

  /** The ranking is sorted highest score first. */
  lemma {:induction false} SortDescendingIsDescending(s: seq<Entry>)
    ensures Descending(SortDescending(s))
  {
    if s != [] {
      SortDescendingIsDescending(s[1..]);
      InsertDescending(s[0], SortDescending(s[1..]));
    }
  }

  // ---------------------------------------------------------------------------------------
  // The greedy choice

  /** How many entries of r are in grade high. */
  function HighCount(r: seq<Entry>, high: int): (k: nat)
    ensures k <= |r|
  {
    if r == [] then 0
    else HighCount(r[..|r| - 1], high) + (if r[|r| - 1].grade == high then 1 else 0)
  }

  lemma HighCountSnoc(p: seq<Entry>, x: Entry, high: int)
    ensures HighCount(p + [x], high) == HighCount(p, high) + (if x.grade == high then 1 else 0)
  {
    assert (p + [x])[..|p|] == p;
  }

  /** Whether the walk, having chosen `chosen`, takes x: four are not yet taken, and x is
      not in the highest grade or fewer than three of that grade are taken. */
  predicate Admits(chosen: seq<Entry>, x: Entry, high: int)
  {
    |chosen| < TeamSize && (x.grade != high || HighCount(chosen, high) < HighGradeCap)
  }

  /** The contributors the walk over a ranked list takes, in the order it takes them. */
  function Select(s: seq<Entry>, high: int): (chosen: seq<Entry>)
  {
    if s == [] then []
    else
      var p := Select(s[..|s| - 1], high);
      var x := s[|s| - 1];
      if Admits(p, x, high) then p + [x] else p
  }

  /** The caps: the walk takes at most four contributors, at most three of them in the highest
      grade, and only entries of the list it walks. */
  lemma {:induction false} SelectCaps(s: seq<Entry>, high: int)
    ensures |Select(s, high)| <= TeamSize
    ensures HighCount(Select(s, high), high) <= HighGradeCap
    ensures forall e :: e in Select(s, high) ==> e in s
  {
    if s != [] {
      var s' := s[..|s| - 1];
      SelectCaps(s', high);
      HighCountSnoc(Select(s', high), s[|s| - 1], high);
    }
  }

  /** The walk never takes back a choice: what it took over a prefix begins what it takes over
      the whole list, and the rest comes from the remainder of the list. */
  lemma {:induction false} SelectPrefix(s: seq<Entry>, high: int, n: nat)
    requires n <= |s|
    ensures |Select(s[..n], high)| <= |Select(s, high)|
    ensures Select(s[..n], high) == Select(s, high)[..|Select(s[..n], high)|]
    ensures forall i :: |Select(s[..n], high)| <= i < |Select(s, high)| ==> Select(s, high)[i] in s[n..]
  {
    if n < |s| {
      var s' := s[..|s| - 1];
      assert s'[..n] == s[..n];
      SelectPrefix(s', high, n);
      assert forall e :: e in s'[n..] ==> e in s[n..];
    } else {
      assert s[..n] == s;
    }
  }

  /** Maximality: the walk takes four contributors unless the list runs out first, counting
      at most three of the highest grade as available. */
  lemma {:induction false} SelectSize(s: seq<Entry>, high: int)
    ensures |Select(s, high)| ==
              Min(TeamSize, (|s| - HighCount(s, high)) + Min(HighGradeCap, HighCount(s, high)))
    ensures |Select(s, high)| < TeamSize ==>
              HighCount(Select(s, high), high) == Min(HighGradeCap, HighCount(s, high))
  {
    if s != [] {
      var s' := s[..|s| - 1];
      var x := s[|s| - 1];
      var p := Select(s', high);
      SelectSize(s', high);
      HighCountSnoc(p, x, high);
      assert HighCount(s, high) == HighCount(s', high) + (if x.grade == high then 1 else 0);
      SizeStep(|s'|, HighCount(s', high), |p|, HighCount(p, high), x.grade == high);
      if Admits(p, x, high) {
        assert Select(s, high) == p + [x];
      } else {
        assert Select(s, high) == p;
      }
    }
  }

  /** The arithmetic of one step of SelectSize: n entries walked, h of them in the highest
      grade, k taken, c of those in the highest grade, and the next entry high or not. */
  lemma SizeStep(n: int, h: int, k: int, c: int, isHigh: bool)
    requires k == Min(TeamSize, (n - h) + Min(HighGradeCap, h))
    requires k < TeamSize ==> c == Min(HighGradeCap, h)
    ensures var taken := k < TeamSize && (!isHigh || c < HighGradeCap);
            var h' := if isHigh then h + 1 else h;
            var k' := if taken then k + 1 else k;
            var c' := if taken && isHigh then c + 1 else c;
            && k' == Min(TeamSize, (n + 1 - h') + Min(HighGradeCap, h'))
            && (k' < TeamSize ==> c' == Min(HighGradeCap, h'))
  {
  }

  lemma DistinctSplit(s: seq<Entry>, k: nat)
    requires Distinct(s) && k < |s|
    ensures s[k] !in s[..k] && s[k] !in s[k + 1..]
    ensures Distinct(s[..k])
  {
    assert s == s[..k] + [s[k]] + s[k + 1..];
    assert multiset(s) == multiset(s[..k]) + multiset{s[k]} + multiset(s[k + 1..]);
    assert multiset(s)[s[k]] <= 1;
    assert multiset(s[..k])[s[k]] == 0 && multiset(s[k + 1..])[s[k]] == 0;
    forall e
      ensures multiset(s[..k])[e] <= 1
    {
      assert multiset(s)[e] <= 1;
    }
  }

  /** One step of the walk: entry k is taken exactly when the walk so far admits it. */
  lemma SelectStep(s: seq<Entry>, high: int, k: nat)
    requires k < |s|
    ensures Select(s[..k + 1], high) ==
              if Admits(Select(s[..k], high), s[k], high) then Select(s[..k], high) + [s[k]]
              else Select(s[..k], high)
  {
    assert s[..k + 1][..k] == s[..k];
    assert s[..k + 1][k] == s[k];
  }

  /** A taken entry was admitted at its own step. */
  lemma TakenWhenReached(s: seq<Entry>, high: int, k: nat)
    requires Distinct(s) && k < |s|
    requires s[k] in Select(s, high)
    ensures Admits(Select(s[..k], high), s[k], high)
  {
    SelectPrefix(s, high, k + 1);
    DistinctSplit(s, k);
    SelectStep(s, high, k);
    SelectCaps(s[..k], high);
  }

  /** An entry the walk admits at its own step stays taken. */
  lemma AdmittedIsTaken(s: seq<Entry>, high: int, j: nat)
    requires j < |s|
    ensures Admits(Select(s[..j], high), s[j], high) ==> s[j] in Select(s, high)
  {
    SelectPrefix(s, high, j + 1);
    SelectStep(s, high, j);
    var p := Select(s[..j + 1], high);
    if Admits(Select(s[..j], high), s[j], high) {
      assert p[|p| - 1] == s[j];
      assert Select(s, high)[|p| - 1] == s[j];
    }
  }

  /** The number taken only grows along the walk. */
  lemma SelectGrows(s: seq<Entry>, high: int, j: nat, k: nat)
    requires j <= k <= |s|
    ensures |Select(s[..j], high)| <= |Select(s[..k], high)|
  {
    SelectPrefix(s[..k], high, j);
    assert s[..k][..j] == s[..j];
  }

  /** A later contributor is taken while an earlier one is passed over only when the earlier
      one is in the highest grade and three of that grade were already taken when the walk
      reached it. */
  lemma SelectSkipsOnlyCappedHighGrade(s: seq<Entry>, high: int, j: nat, k: nat)
    requires Distinct(s) && j < k < |s|
    requires s[k] in Select(s, high) && s[j] !in Select(s, high)
    ensures s[j].grade == high
    ensures HighCount(Select(s[..j], high), high) == HighGradeCap
  {
    TakenWhenReached(s, high, k);
    SelectGrows(s, high, j, k);
    AdmittedIsTaken(s, high, j);
  }

  lemma HighCountPrefix(r: seq<Entry>, high: int, n: nat)
    requires n <= |r|
    ensures HighCount(r[..n], high) <= HighCount(r, high)
    decreases |r| - n
  {
    if n < |r| {
      var r' := r[..|r| - 1];
      assert r'[..n] == r[..n];
      HighCountPrefix(r', high, n);
    } else {
      assert r[..n] == r;
    }
  }

  /** Greedy order over a ranking: an entry passed over that scores strictly more than a taken
      one is in the highest grade, three of that grade were taken, and the taken one is not
      of that grade, since the cap was already full when the walk reached it. */
  lemma SelectGreedy(s: seq<Entry>, high: int, x: Entry, y: Entry)
    requires Distinct(s) && Descending(s)
    requires x in s && x !in Select(s, high)
    requires y in Select(s, high) && x.score > y.score
    ensures x.grade == high
    ensures HighCount(Select(s, high), high) == HighGradeCap
    ensures y.grade != high
  {
    SelectCaps(s, high);
    var j :| 0 <= j < |s| && s[j] == x;
    var k :| 0 <= k < |s| && s[k] == y;
    assert j < k;
    SelectSkipsOnlyCappedHighGrade(s, high, j, k);
    SelectPrefix(s, high, j);
    HighCountPrefix(Select(s, high), high, |Select(s[..j], high)|);
    CapFullAtLaterStep(s, high, j, k);
  }

  /** Once three of the highest grade are taken at step j, every later step k still holds
      three, so the walk admits no further entry of that grade. */
  lemma CapFullAtLaterStep(s: seq<Entry>, high: int, j: nat, k: nat)
    requires Distinct(s) && j < k < |s|
    requires s[k] in Select(s, high)
    requires HighCount(Select(s[..j], high), high) == HighGradeCap
    ensures s[k].grade != high
  {
    TakenWhenReached(s, high, k);
    SelectPrefix(s[..k], high, j);
    assert s[..k][..j] == s[..j];
    HighCountPrefix(Select(s[..k], high), high, |Select(s[..j], high)|);
  }

  lemma {:induction false} SelectDistinct(s: seq<Entry>, high: int)
    requires Distinct(s)
    ensures Distinct(Select(s, high))
  {
    if s != [] {
      var s' := s[..|s| - 1];
      DistinctSplit(s, |s| - 1);
      SelectDistinct(s', high);
      SelectCaps(s', high);
      DistinctConcat(Select(s', high), [s[|s| - 1]]);
    }
  }

  // ---------------------------------------------------------------------------------------
  // Sums and the chosen set

  function Elements(r: seq<Entry>): (t: set<Entry>)
  {
    set e | e in r
  }

  lemma ElementsSnoc(r: seq<Entry>, x: Entry)
    ensures Elements(r + [x]) == Elements(r) + {x}
  {
  }

  function HighMembers(t: set<Entry>, high: int): (h: set<Entry>)
  {
    set e | e in t && e.grade == high
  }

  lemma HighMembersAdd(t: set<Entry>, x: Entry, high: int)
    ensures HighMembers(t + {x}, high) ==
              if x.grade == high then HighMembers(t, high) + {x} else HighMembers(t, high)
  {
  }

  /** The sum of the score numbers of a set of contributors. */
  ghost function SumSet(t: set<Entry>): (sum: int)
  {
    if t == {} then 0
    else
      var e :| e in t;
      e.score + SumSet(t - {e})
  }

  /** The sum does not depend on which member is taken out first. */
  lemma SumSetRemove(t: set<Entry>, e: Entry)
    requires e in t
    ensures SumSet(t) == e.score + SumSet(t - {e})
    decreases |t|
  {
    var d :| d in t && SumSet(t) == d.score + SumSet(t - {d});
    if d != e {
      SumSetRemove(t - {d}, e);
      SumSetRemove(t - {e}, d);
      assert t - {d} - {e} == t - {e} - {d};
    }
  }

  function SumSeq(r: seq<Entry>): (sum: int)
  {
    if r == [] then 0 else SumSeq(r[..|r| - 1]) + r[|r| - 1].score
  }

  /** Over a list without repetitions, the set of its entries has as many members and as
      many of the highest grade. */
  lemma {:induction false} ElementsOfDistinct(r: seq<Entry>, high: int)
    requires Distinct(r)
    ensures |Elements(r)| == |r|
    ensures |HighMembers(Elements(r), high)| == HighCount(r, high)
  {
    if r != [] {
      var r' := r[..|r| - 1];
      var x := r[|r| - 1];
      DistinctSplit(r, |r| - 1);
      ElementsOfDistinct(r', high);
      assert r == r' + [x];
      ElementsSnoc(r', x);
      assert x !in Elements(r');
      HighMembersAdd(Elements(r'), x, high);
    }
  }

  /** ... and the set has the same sum as the list. */
  lemma {:induction false} SumOfDistinct(r: seq<Entry>)
    requires Distinct(r)
    ensures SumSet(Elements(r)) == SumSeq(r)
  {
    if r != [] {
      var r' := r[..|r| - 1];
      var x := r[|r| - 1];
      var t := Elements(r');
      DistinctSplit(r, |r| - 1);
      SumOfDistinct(r');
      assert r == r' + [x];
      ElementsSnoc(r', x);
      assert x !in t;
      SumSetRemove(t + {x}, x);
      assert t + {x} - {x} == t;
    }
  }

  /** Maximality over a list without repetitions, counted in sets. */
  lemma SelectedCount(s: seq<Entry>, high: int)
    requires Distinct(s)
    ensures var h := |HighMembers(Elements(s), high)|;
            |Elements(Select(s, high))| == Min(TeamSize, (|Elements(s)| - h) + Min(HighGradeCap, h))
  {
    var chosen := Select(s, high);
    var h := HighCount(s, high);
    assert |Elements(chosen)| == |chosen| by {
      SelectDistinct(s, high);
      ElementsOfDistinct(chosen, high);
    }
    assert |Elements(s)| == |s| && |HighMembers(Elements(s), high)| == h by {
      ElementsOfDistinct(s, high);
    }
    assert |chosen| == Min(TeamSize, (|s| - h) + Min(HighGradeCap, h)) by {
      SelectSize(s, high);
    }
  }

  lemma SumSetNonNegative(t: set<Entry>)
    requires forall e :: e in t ==> e.score >= 0
    ensures SumSet(t) >= 0
    decreases |t|
  {
    if t != {} {
      var e :| e in t && SumSet(t) == e.score + SumSet(t - {e});
      SumSetNonNegative(t - {e});
    }
  }
}
