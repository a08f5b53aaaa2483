/**
 * Runs of consecutive calendar days. `RunEndingAt` and `IsLongestRun` are the reference
 * definition against which the day counter of the fever analysis is proved.
 */
module ConsecutiveDays {
  import opened Time
  import opened Sorting

  /** The days of `D` up to and including `v`. */
  function UpTo(D: set<int>, v: int): set<int> {
    set x | x in D && x <= v
  }

  /** The number of consecutive days `v, v - 1, v - 2, ...` that all belong to `D`. */
  function RunEndingAt(D: set<int>, v: int): nat
    decreases |UpTo(D, v)|
  {
    if v in D then
      assert UpTo(D, v) == UpTo(D, v - 1) + {v};
      1 + RunEndingAt(D, v - 1)
    else 0
  }

  /** `c` is the length of the longest run of consecutive days in `D`. */
  ghost predicate IsLongestRun(D: set<int>, c: nat) {
    (exists v :: v in D && RunEndingAt(D, v) == c) && forall v :: v in D ==> RunEndingAt(D, v) <= c
  }

  /** A run ending at `v` has no more days than `D` has up to `v`. */
  lemma {:induction false} RunBounded(D: set<int>, v: int)
    ensures RunEndingAt(D, v) <= |UpTo(D, v)| <= |D|
    decreases |UpTo(D, v)|
  {
    SubsetSize(UpTo(D, v), D);
    if v in D {
      assert UpTo(D, v) == UpTo(D, v - 1) + {v};
      RunBounded(D, v - 1);
    }
  }

  lemma NonEmptyHasDay(A: set<int>)
    requires A != {}
    ensures exists x :: x in A
  {
    if forall x :: x !in A {
      assert false;
    }
  }

  lemma {:induction false} SubsetSize(A: set<int>, B: set<int>)
    requires A <= B
    ensures |A| <= |B|
    decreases |A|
  {
    if A != {} {
      NonEmptyHasDay(A);
      var x :| x in A;
      SubsetSize(A - {x}, B - {x});
    }
  }

  /** The run ending at a day of `D` extends the run ending the day before. */
  lemma RunStep(D: set<int>, v: int)
    ensures v in D ==> RunEndingAt(D, v) == 1 + RunEndingAt(D, v - 1)
    ensures v !in D ==> RunEndingAt(D, v) == 0
  {
  }

  /** There is at most one longest-run length. */
  lemma LongestRunUnique(D: set<int>, c: nat, d: nat)
    requires IsLongestRun(D, c) && IsLongestRun(D, d)
    ensures c == d
  {
    var v :| v in D && RunEndingAt(D, v) == c;
    var w :| w in D && RunEndingAt(D, w) == d;
  }

  /** The days of the list. */
  function DaySet(s: seq<int>): set<int> {
    set i | 0 <= i < |s| :: s[i]
  }

  /** Some position of a non-empty list scores highest among its first `j` elements. */
  lemma {:induction false} HighestOfPrefix(score: int -> int, s: seq<int>, j: int) returns (k: nat)
    requires 0 < j <= |s|
    ensures k < j && forall m :: 0 <= m < j ==> score(s[m]) <= score(s[k])
  {
    if j == 1 {
      k := 0;
    } else {
      var k0 := HighestOfPrefix(score, s, j - 1);
      k := if score(s[j - 1]) > score(s[k0]) then j - 1 else k0;
    }
  }

  /** Every non-empty set of days given as a list has a longest run. */
  lemma LongestRunExists(s: seq<int>)
    requires |s| > 0
    ensures exists c :: IsLongestRun(DaySet(s), c)
  {
    var D := DaySet(s);
    var score := v => RunEndingAt(D, v);
    var k := HighestOfPrefix(score, s, |s|);
    assert s[k] in D;
    forall v | v in D
      ensures RunEndingAt(D, v) <= RunEndingAt(D, s[k])
    {
      var m :| 0 <= m < |s| && s[m] == v;
      assert score(s[m]) <= score(s[k]);
    }
    assert IsLongestRun(D, RunEndingAt(D, s[k]));
  }

  /** The length of the longest run of the days of a non-empty list. */
  ghost function LongestRun(s: seq<int>): (c: nat)
    requires |s| > 0
    ensures IsLongestRun(DaySet(s), c)
  {
    LongestRunExists(s);
    var c :| IsLongestRun(DaySet(s), c);
    c
  }

  /** Two days one apart exist exactly when the longest run has at least two days. */
  lemma LongestRunAtLeastTwo(s: seq<int>)
    requires |s| > 0
    ensures LongestRun(s) >= 2 <==> exists v :: v in DaySet(s) && v - 1 in DaySet(s)
  {
    var D := DaySet(s);
    var c := LongestRun(s);
    if c >= 2 {
      var v :| v in D && RunEndingAt(D, v) == c;
      RunStep(D, v);
      RunStep(D, v - 1);
    }
    if exists v :: v in D && v - 1 in D {
      var v :| v in D && v - 1 in D;
      RunStep(D, v);
      RunStep(D, v - 1);
    }
  }

  /** The start of each date's day (`startOfDay(d).getTime()`). */
  function DayStarts(dates: seq<int>): (r: seq<int>)
    ensures |r| == |dates| && forall i :: 0 <= i < |dates| ==> r[i] == StartOfDay(dates[i])
  {
    if dates == [] then [] else [StartOfDay(dates[0])] + DayStarts(dates[1..])
  }

  /** The day numbers of the dates. */
  function DaysOf(dates: seq<int>): (r: seq<int>)
    ensures |r| == |dates| && forall i :: 0 <= i < |dates| ==> r[i] == DayOf(dates[i])
  {
    if dates == [] then [] else [DayOf(dates[0])] + DaysOf(dates[1..])
  }

  function Id(x: int): int { x }

  /** Two day starts are one day apart, more, or the same day. */
  lemma DayStartGap(a: int, b: int)
    requires a % DayMs == 0 && b % DayMs == 0 && a <= b
    ensures b - a == DayMs <==> DayOf(b) == DayOf(a) + 1
    ensures b - a > DayMs <==> DayOf(b) > DayOf(a) + 1
    ensures b - a < DayMs <==> DayOf(b) == DayOf(a)
  {
    assert a == (DayOf(a)) * DayMs;
    assert b == (DayOf(b)) * DayMs;
  }

  /**
   * `findConsecutiveDays`: the length of the longest run of consecutive calendar days among
   * the dates, 0 for none. The dates are reduced to the start of their day and sorted; a
   * gap of exactly one day extends the current run, a longer gap restarts it, and a repeated
   * day leaves it as it is.
   */
  method FindConsecutiveDays(dates: seq<int>) returns (r: nat)
    ensures |dates| == 0 ==> r == 0
    ensures |dates| > 0 ==> r == LongestRun(DaysOf(dates)) && 1 <= r <= |dates|
  {
    if |dates| == 0 {
      return 0;
    }
    var starts := DayStarts(dates);
    var sorted := SortBy(starts, Id);
    ghost var days := DaysOf(dates);
    ghost var D := DaySet(days);
    SortedDaysCover(days, starts, sorted);
    ghost var scores := RunScores(D, sorted);
    ScoreSteps(D, sorted);
    ghost var best;
    r, best := LongestChain(sorted, scores);
    HighestIsLongest(days, sorted, scores, best, r);
  }

  /**
   * The loop of `findConsecutiveDays` over the sorted day starts, against the runs ending
   * at each of them: a gap of one day extends the current run, a longer gap restarts it,
   * a repeated day keeps it. The result is the highest run, reached at `best`.
   */
  method LongestChain(sorted: seq<int>, ghost scores: seq<nat>) returns (r: nat, ghost best: nat)
    requires |scores| == |sorted| > 0 && scores[0] == 1
    requires forall i :: 0 < i < |sorted| ==>
      && (sorted[i] - sorted[i - 1] == DayMs ==> scores[i] == scores[i - 1] + 1)
      && (sorted[i] - sorted[i - 1] > DayMs ==> scores[i] == 1)
      && (sorted[i] - sorted[i - 1] < DayMs ==> scores[i] == scores[i - 1])
    ensures best < |sorted| && scores[best] == r
    ensures forall j :: 0 <= j < |sorted| ==> scores[j] <= r
  {
    var maxConsecutive := 1;
    var currentConsecutive := 1;
    best := 0;
    for i := 1 to |sorted|
      invariant currentConsecutive == scores[i - 1]
      invariant 0 <= best < i && scores[best] == maxConsecutive
      invariant forall j :: 0 <= j < i ==> scores[j] <= maxConsecutive
    {
      var diff := sorted[i] - sorted[i - 1];
      if diff == DayMs {
        currentConsecutive := currentConsecutive + 1;
        if maxConsecutive < currentConsecutive {
          maxConsecutive, best := currentConsecutive, i;
        }
      } else if diff > DayMs {
        currentConsecutive := 1;
      }
    }
    r := maxConsecutive;
  }

  /** The run ending at each sorted day start. */
  ghost function RunScores(D: set<int>, sorted: seq<int>): (r: seq<nat>)
    ensures |r| == |sorted| && forall j :: 0 <= j < |sorted| ==> r[j] == RunEndingAt(D, DayOf(sorted[j]))
  {
    if sorted == [] then [] else [RunEndingAt(D, DayOf(sorted[0]))] + RunScores(D, sorted[1..])
  }

  /** The runs at the sorted day starts: one at the first, and from each to the next as the gap says. */
  lemma ScoreSteps(D: set<int>, sorted: seq<int>)
    requires |sorted| > 0 && SortedBy(sorted, Id)
    requires forall i :: 0 <= i < |sorted| ==> sorted[i] % DayMs == 0 && DayOf(sorted[i]) in D
    requires forall v :: v in D ==> exists j :: 0 <= j < |sorted| && DayOf(sorted[j]) == v
    ensures var scores := RunScores(D, sorted);
      && scores[0] == 1
      && forall i :: 0 < i < |sorted| ==>
        && (sorted[i] - sorted[i - 1] == DayMs ==> scores[i] == scores[i - 1] + 1)
        && (sorted[i] - sorted[i - 1] > DayMs ==> scores[i] == 1)
        && (sorted[i] - sorted[i - 1] < DayMs ==> scores[i] == scores[i - 1])
  {
    var scores := RunScores(D, sorted);
    RunAtFirst(D, sorted);
    forall i | 0 < i < |sorted|
      ensures sorted[i] - sorted[i - 1] == DayMs ==> scores[i] == scores[i - 1] + 1
      ensures sorted[i] - sorted[i - 1] > DayMs ==> scores[i] == 1
      ensures sorted[i] - sorted[i - 1] < DayMs ==> scores[i] == scores[i - 1]
    {
      RunAtNext(D, sorted, i);
    }
  }

  /** The highest run found at a sorted day start is the longest run of the days. */
  lemma HighestIsLongest(days: seq<int>, sorted: seq<int>, scores: seq<nat>, best: nat, r: nat)
    requires |days| == |sorted| && best < |sorted| && scores == RunScores(DaySet(days), sorted)
    requires forall i :: 0 <= i < |sorted| ==> DayOf(sorted[i]) in DaySet(days)
    requires forall v :: v in DaySet(days) ==> exists j :: 0 <= j < |sorted| && DayOf(sorted[j]) == v
    requires scores[best] == r && forall j :: 0 <= j < |sorted| ==> scores[j] <= r
    ensures r == LongestRun(days) && 1 <= r <= |days|
  {
    var D := DaySet(days);
    forall v | v in D
      ensures RunEndingAt(D, v) <= r
    {
      var j :| 0 <= j < |sorted| && DayOf(sorted[j]) == v;
      assert scores[j] <= r;
    }
    assert DayOf(sorted[best]) in D;
    assert IsLongestRun(D, r);
    LongestRunUnique(D, r, LongestRun(days));
    RunStep(D, DayOf(sorted[best]));
    RunBounded(D, DayOf(sorted[best]));
    SetOfSeqBound(days);
  }

  lemma {:induction false} SetOfSeqBound(s: seq<int>)
    ensures |DaySet(s)| <= |s|
  {
    if s != [] {
      var n := |s| - 1;
      SetOfSeqBound(s[..n]);
      assert DaySet(s) == DaySet(s[..n]) + {s[n]} by {
        forall x | x in DaySet(s) ensures x in DaySet(s[..n]) + {s[n]} {
          var i :| 0 <= i < |s| && s[i] == x;
          if i < n { assert s[..n][i] == x; }
        }
        forall x | x in DaySet(s[..n]) ensures x in DaySet(s) {
          var i :| 0 <= i < n && s[..n][i] == x;
          assert s[i] == x;
        }
      }
    }
  }

  /** A permutation of the day starts covers exactly the days of the dates. */
  lemma SortedDaysCover(days: seq<int>, starts: seq<int>, sorted: seq<int>)
    requires |starts| == |days| && multiset(sorted) == multiset(starts)
    requires forall k :: 0 <= k < |starts| ==> starts[k] % DayMs == 0 && DayOf(starts[k]) == days[k]
    ensures |sorted| == |days|
    ensures forall i :: 0 <= i < |sorted| ==> sorted[i] % DayMs == 0 && DayOf(sorted[i]) in DaySet(days)
    ensures forall v :: v in DaySet(days) ==> exists j :: 0 <= j < |sorted| && DayOf(sorted[j]) == v
  {
    assert |sorted| == |multiset(sorted)| == |multiset(starts)| == |starts|;
    forall i | 0 <= i < |sorted|
      ensures sorted[i] % DayMs == 0 && DayOf(sorted[i]) in DaySet(days)
    {
      assert sorted[i] in multiset(sorted);
      assert sorted[i] in multiset(starts);
      var k :| 0 <= k < |starts| && starts[k] == sorted[i];
      assert days[k] == DayOf(sorted[i]);
    }
    forall v | v in DaySet(days)
      ensures exists j :: 0 <= j < |sorted| && DayOf(sorted[j]) == v
    {
      var k :| 0 <= k < |days| && days[k] == v;
      assert starts[k] in multiset(starts);
      assert starts[k] in multiset(sorted);
      var j :| 0 <= j < |sorted| && sorted[j] == starts[k];
      assert DayOf(sorted[j]) == v;
    }
  }

  /** The first sorted day starts a run of one day. */
  lemma RunAtFirst(D: set<int>, sorted: seq<int>)
    requires |sorted| > 0 && SortedBy(sorted, Id)
    requires forall i :: 0 <= i < |sorted| ==> sorted[i] % DayMs == 0 && DayOf(sorted[i]) in D
    requires forall v :: v in D ==> exists j :: 0 <= j < |sorted| && DayOf(sorted[j]) == v
    ensures RunEndingAt(D, DayOf(sorted[0])) == 1
  {
    var v := DayOf(sorted[0]);
    forall j | 0 <= j < |sorted|
      ensures DayOf(sorted[j]) != v - 1
    {
      assert Id(sorted[0]) <= Id(sorted[j]);
    }
    RunStep(D, v);
    RunStep(D, v - 1);
  }

  /** How the run changes from one sorted day start to the next. */
  lemma RunAtNext(D: set<int>, sorted: seq<int>, i: int)
    requires 0 < i < |sorted| && SortedBy(sorted, Id)
    requires forall k :: 0 <= k < |sorted| ==> sorted[k] % DayMs == 0 && DayOf(sorted[k]) in D
    requires forall v :: v in D ==> exists j :: 0 <= j < |sorted| && DayOf(sorted[j]) == v
    ensures var a, b := sorted[i - 1], sorted[i];
      && (b - a == DayMs ==> RunEndingAt(D, DayOf(b)) == RunEndingAt(D, DayOf(a)) + 1)
      && (b - a > DayMs ==> RunEndingAt(D, DayOf(b)) == 1)
      && (b - a < DayMs ==> RunEndingAt(D, DayOf(b)) == RunEndingAt(D, DayOf(a)))
  {
    var a, b := sorted[i - 1], sorted[i];
    assert Id(a) <= Id(b);
    DayStartGap(a, b);
    if b - a > DayMs {
      var w := DayOf(b) - 1;
      forall j | 0 <= j < |sorted|
        ensures DayOf(sorted[j]) != w
      {
        if j < i {
          assert Id(sorted[j]) <= Id(a);
          DayStartGap(sorted[j], a);
        } else {
          assert Id(b) <= Id(sorted[j]);
          DayStartGap(b, sorted[j]);
        }
      }
      RunStep(D, DayOf(b));
      RunStep(D, w);
    }
  }
}
