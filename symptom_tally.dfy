/**
 * Counting symptom types: the object `{ [symptom_type]: count }` whose keys keep the order in
 * which they were first set (the order of `Object.entries` for string keys).
 */
module SymptomTally {
  import opened RecordTypes
  import opened Sorting

  datatype Tally = Tally(symptom: SymptomType, count: nat)

  function TallyCount(e: Tally): int {
    e.count
  }

  /** How often `t` occurs in `ts`. */
  function Occurrences(ts: seq<SymptomType>, t: SymptomType): (n: nat)
    ensures n <= |ts|
  {
    if ts == [] then 0
    else Occurrences(ts[..|ts| - 1], t) + (if ts[|ts| - 1] == t then 1 else 0)
  }

  lemma OccurrencesAbsent(ts: seq<SymptomType>, t: SymptomType)
    requires t !in ts
    ensures Occurrences(ts, t) == 0
  {
    if ts != [] {
      assert t !in ts[..|ts| - 1];
      OccurrencesAbsent(ts[..|ts| - 1], t);
    }
  }

  lemma OccurrencesPresent(ts: seq<SymptomType>, t: SymptomType)
    requires t in ts
    ensures Occurrences(ts, t) >= 1
  {
    var init := ts[..|ts| - 1];
    if ts[|ts| - 1] != t {
      assert t in init;
      OccurrencesPresent(init, t);
    }
  }

  /** The types of `ts` without repetitions, in the order of their first occurrence. */
  function Distinct(ts: seq<SymptomType>): seq<SymptomType> {
    if ts == [] then []
    else
      var init := ts[..|ts| - 1];
      if ts[|ts| - 1] in init then Distinct(init) else Distinct(init) + [ts[|ts| - 1]]
  }

  predicate NoRepeats(d: seq<SymptomType>) {
    forall i, j :: 0 <= i < j < |d| ==> d[i] != d[j]
  }

  /** `Distinct` lists every type of `ts` exactly once. */
  lemma {:induction false} DistinctElements(ts: seq<SymptomType>)
    ensures forall t :: t in Distinct(ts) <==> t in ts
    ensures NoRepeats(Distinct(ts))
  {
    if ts != [] {
      var init := ts[..|ts| - 1];
      DistinctElements(init);
      assert ts == init + [ts[|ts| - 1]];
    }
  }

  /** One entry per distinct type, in first-occurrence order, with its number of occurrences. */
  function Tallies(ts: seq<SymptomType>): (e: seq<Tally>)
    ensures |e| == |Distinct(ts)|
    ensures forall i :: 0 <= i < |e| ==> e[i] == Tally(Distinct(ts)[i], Occurrences(ts, Distinct(ts)[i]))
  {
    var d := Distinct(ts);
    seq(|d|, i requires 0 <= i < |d| => Tally(d[i], Occurrences(ts, d[i])))
  }

  /** The position of the entry for `t`, or the number of entries when there is none. */
  function FindTally(e: seq<Tally>, t: SymptomType): (j: nat)
    ensures j <= |e| && (j < |e| ==> e[j].symptom == t)
    ensures forall k :: 0 <= k < j ==> e[k].symptom != t
  {
    if e == [] then 0
    else if e[0].symptom == t then 0
    else 1 + FindTally(e[1..], t)
  }

  /** Counting one more symptom bumps its entry, or appends a new entry with count 1. */
  function Bump(e: seq<Tally>, t: SymptomType): seq<Tally> {
    var j := FindTally(e, t);
    if j < |e| then e[j := Tally(t, e[j].count + 1)] else e + [Tally(t, 1)]
  }

  lemma OccurrencesStep(ts: seq<SymptomType>, t: SymptomType, u: SymptomType)
    ensures Occurrences(ts + [t], u) == Occurrences(ts, u) + (if u == t then 1 else 0)
  {
    assert (ts + [t])[..|ts|] == ts;
  }

  /** Bumping the tallies of `ts` for `t` gives the tallies of `ts + [t]`. */
  lemma TalliesStep(ts: seq<SymptomType>, t: SymptomType)
    ensures Tallies(ts + [t]) == Bump(Tallies(ts), t)
  {
    DistinctElements(ts);
    if t in ts {
      TalliesStepSeen(ts, t);
    } else {
      TalliesStepNew(ts, t);
    }
  }

  lemma TalliesStepSeen(ts: seq<SymptomType>, t: SymptomType)
    requires t in ts
    ensures Tallies(ts + [t]) == Bump(Tallies(ts), t)
  {
    var us := ts + [t];
    var d := Distinct(ts);
    var e := Tallies(ts);
    var k := SeenAt(ts, t);
    assert Distinct(us) == d by {
      assert us[..|us| - 1] == ts;
      DistinctElements(ts);
    }
    var b := e[k := Tally(t, e[k].count + 1)];
    assert Bump(e, t) == b;
    var tu := Tallies(us);
    forall i | 0 <= i < |d|
      ensures tu[i] == b[i]
    {
      assert tu[i] == Tally(d[i], Occurrences(us, d[i]));
      OccurrencesStep(ts, t, d[i]);
    }
    assert tu == b;
  }

  /** A type already seen has its entry at `k`, the position `FindTally` returns. */
  lemma SeenAt(ts: seq<SymptomType>, t: SymptomType) returns (k: nat)
    requires t in ts
    ensures k < |Distinct(ts)| && Distinct(ts)[k] == t && FindTally(Tallies(ts), t) == k
    ensures forall i :: 0 <= i < |Distinct(ts)| && i != k ==> Distinct(ts)[i] != t
  {
    var d := Distinct(ts);
    var e := Tallies(ts);
    DistinctElements(ts);
    k :| 0 <= k < |d| && d[k] == t;
    assert e[k].symptom == t;
    assert forall i :: 0 <= i < k ==> e[i].symptom != t;
  }

  lemma TalliesStepNew(ts: seq<SymptomType>, t: SymptomType)
    requires t !in ts
    ensures Tallies(ts + [t]) == Bump(Tallies(ts), t)
  {
    var us := ts + [t];
    assert us[..|us| - 1] == ts;
    var d := Distinct(ts);
    var e := Tallies(ts);
    DistinctElements(ts);
    assert Distinct(us) == d + [t];
    OccurrencesAbsent(ts, t);
    forall k | 0 <= k < |e|
      ensures e[k].symptom != t
    {
      assert d[k] in ts;
    }
    assert FindTally(e, t) == |e|;
    var b := e + [Tally(t, 1)];
    forall i | 0 <= i < |d| + 1
      ensures Tallies(us)[i] == b[i]
    {
      OccurrencesStep(ts, t, (d + [t])[i]);
    }
  }

  /** The first entry with the highest count. */
  function FirstMost(e: seq<Tally>): (m: Tally)
    requires |e| > 0
  {
    if |e| == 1 then e[0]
    else
      var m := FirstMost(e[..|e| - 1]);
      if e[|e| - 1].count > m.count then e[|e| - 1] else m
  }

  /** `FirstMost` is the entry at `k`: it has the highest count, and every entry before it a lower one. */
  lemma {:induction false} FirstMostIsFirstMax(e: seq<Tally>) returns (k: nat)
    requires |e| > 0
    ensures k < |e| && e[k] == FirstMost(e)
    ensures forall i :: 0 <= i < |e| ==> e[i].count <= e[k].count
    ensures forall i :: 0 <= i < k ==> e[i].count < e[k].count
  {
    if |e| == 1 {
      k := 0;
    } else {
      var init := e[..|e| - 1];
      var k0 := FirstMostIsFirstMax(init);
      assert init[k0] == e[k0];
      assert FirstMost(e) == if e[|e| - 1].count > init[k0].count then e[|e| - 1] else init[k0];
      if e[|e| - 1].count > init[k0].count {
        k := |e| - 1;
        forall i | 0 <= i < |e| ensures e[i].count <= e[k].count {
          if i < |init| { assert init[i] == e[i]; }
        }
      } else {
        k := k0;
        forall i | 0 <= i < |e| ensures e[i].count <= e[k].count {
          if i < |init| { assert init[i] == e[i]; }
        }
        forall i | 0 <= i < k ensures e[i].count < e[k].count {
          assert init[i] == e[i];
        }
      }
    }
  }

  /** `FirstMost` is the head of the entries sorted by descending count. */
  lemma {:induction false} FirstMostIsSortHead(e: seq<Tally>)
    requires |e| > 0
    ensures SortDescBy(e, TallyCount)[0] == FirstMost(e)
  {
    FirstMostAt(e);
    SortByHead(e, Negated(TallyCount));
  }

  lemma {:induction false} FirstMostAt(e: seq<Tally>)
    requires |e| > 0
    ensures FirstMost(e) == e[FirstMinIndex(e, Negated(TallyCount))]
  {
    if |e| > 1 {
      var init := e[..|e| - 1];
      FirstMostAt(init);
      var k := FirstMinIndex(init, Negated(TallyCount));
      assert init[k] == e[k];
      assert Negated(TallyCount)(e[|e| - 1]) == -TallyCount(e[|e| - 1]);
      assert Negated(TallyCount)(e[k]) == -TallyCount(e[k]);
    }
  }

  /** The most frequent type of a non-empty list; ties go to the type that occurred first. */
  function MostFrequent(ts: seq<SymptomType>): Tally
    requires |ts| > 0
  {
    DistinctElements(ts);
    assert ts[0] in Distinct(ts);
    FirstMost(Tallies(ts))
  }

  /**
   * The most frequent type occurs in the list as often as its count says and no type occurs
   * more often; every type that first occurred before it occurs less often.
   */
  lemma MostFrequentIsMostFrequent(ts: seq<SymptomType>)
    requires |ts| > 0
    ensures MostFrequent(ts).symptom in ts
    ensures MostFrequent(ts).count == Occurrences(ts, MostFrequent(ts).symptom)
    ensures forall u :: u in ts ==> Occurrences(ts, u) <= MostFrequent(ts).count
    ensures exists k :: (0 <= k < |Distinct(ts)| && Distinct(ts)[k] == MostFrequent(ts).symptom &&
                         forall i :: 0 <= i < k ==> Occurrences(ts, Distinct(ts)[i]) < MostFrequent(ts).count)
  {
    var e := Tallies(ts);
    var d := Distinct(ts);
    DistinctElements(ts);
    assert ts[0] in d;
    var k := FirstMostIsFirstMax(e);
    assert d[k] in ts;
    forall u | u in ts
      ensures Occurrences(ts, u) <= MostFrequent(ts).count
    {
      var i :| 0 <= i < |d| && d[i] == u;
      assert e[i].count == Occurrences(ts, u);
    }
    assert forall i :: 0 <= i < k ==> Occurrences(ts, d[i]) == e[i].count;
  }
}
