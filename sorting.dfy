/**
 * A stable sort by an integer key: JavaScript's `Array.prototype.sort` with a comparator
 * `(a, b) => key(a) - key(b)` (stable since ES2019), and the database's `ORDER BY`.
 */
module Sorting {
  import opened Lists

  predicate SortedBy<T>(s: seq<T>, key: T -> int) {
    forall i, j :: 0 <= i < j < |s| ==> key(s[i]) <= key(s[j])
  }

  /** Inserts `x` after every element whose key is at most `key(x)`. */
  function InsertBy<T>(x: T, s: seq<T>, key: T -> int): (r: seq<T>)
    ensures |r| == |s| + 1 && multiset(r) == multiset(s) + multiset{x}
  {
    if s == [] then [x]
    else if key(x) < key(s[0]) then [x] + s
    else
      assert s == [s[0]] + s[1..];
      [s[0]] + InsertBy(x, s[1..], key)
  }

  /** An element whose key is at most every key of a sorted sequence can go in front of it. */
  lemma ConsSorted<T>(h: T, t: seq<T>, key: T -> int)
    requires SortedBy(t, key)
    requires forall k :: 0 <= k < |t| ==> key(h) <= key(t[k])
    ensures SortedBy([h] + t, key)
  {
    var r := [h] + t;
    forall i, j | 0 <= i < j < |r| ensures key(r[i]) <= key(r[j]) {
      assert r[j] == t[j - 1];
      if i > 0 {
        assert r[i] == t[i - 1];
      }
    }
  }

  /** Inserting into a sorted sequence keeps it sorted. */
  lemma {:induction false} InsertBySorted<T>(x: T, s: seq<T>, key: T -> int)
    requires SortedBy(s, key)
    ensures SortedBy(InsertBy(x, s, key), key)
  {
    if s == [] {
    } else if key(x) < key(s[0]) {
      ConsSorted(x, s, key);
    } else {
      var tail := s[1..];
      assert SortedBy(tail, key) by {
        forall i, j | 0 <= i < j < |tail| ensures key(tail[i]) <= key(tail[j]) {
          assert tail[i] == s[i + 1] && tail[j] == s[j + 1];
        }
      }
      InsertBySorted(x, tail, key);
      var t := InsertBy(x, tail, key);
      forall k | 0 <= k < |t| ensures key(s[0]) <= key(t[k]) {
        assert t[k] in multiset(t);
        if t[k] != x {
          assert t[k] in multiset(tail);
          var j :| 0 <= j < |tail| && tail[j] == t[k];
          assert tail[j] == s[j + 1];
        }
      }
      ConsSorted(s[0], t, key);
    }
  }

  /** Insertion sort, ascending by `key`; elements with equal keys keep their input order. */
  function SortBy<T>(s: seq<T>, key: T -> int): (r: seq<T>)
    ensures |r| == |s| && multiset(r) == multiset(s)
    ensures SortedBy(r, key)
  {
    if s == [] then []
    else
      assert s == s[..|s| - 1] + [s[|s| - 1]];
      var init := SortBy(s[..|s| - 1], key);
      InsertBySorted(s[|s| - 1], init, key);
      InsertBy(s[|s| - 1], init, key)
  }

  /** The elements whose key is `v`. */
  function HasKey<T>(key: T -> int, v: int): T -> bool {
    y => key(y) == v
  }

  lemma FilterSingle<T(!new)>(x: T, p: T -> bool)
    ensures Filter([x], p) == if p(x) then [x] else []
  {
    assert [x][1..] == [];
  }

  /** An element of a key below every key of a sorted sequence goes in front of it, after nothing of its own key. */
  lemma FrontKeepsTies<T(!new)>(x: T, s: seq<T>, key: T -> int, v: int)
    requires SortedBy(s, key) && s != [] && key(x) < key(s[0])
    ensures Filter([x] + s, HasKey(key, v)) == Filter(s, HasKey(key, v)) + (if key(x) == v then [x] else [])
  {
    var p := HasKey(key, v);
    FilterAppend([x], s, p);
    FilterSingle(x, p);
  }

  lemma FilterCons<T(!new)>(h: T, a: seq<T>, p: T -> bool)
    ensures Filter([h] + a, p) == (if p(h) then [h] else []) + Filter(a, p)
  {
    assert ([h] + a)[1..] == a;
  }

  lemma AppendAssoc<T>(a: seq<T>, b: seq<T>, c: seq<T>)
    ensures a + (b + c) == (a + b) + c
  {
  }

  /** Inserting into a sorted sequence puts `x` after every element of the same key. */
  lemma {:induction false} InsertByKeepsTies<T(!new)>(x: T, s: seq<T>, key: T -> int, v: int)
    requires SortedBy(s, key)
    ensures Filter(InsertBy(x, s, key), HasKey(key, v)) == Filter(s, HasKey(key, v)) + (if key(x) == v then [x] else [])
  {
    if s == [] {
      assert InsertBy(x, s, key) == [x];
      FilterSingle(x, HasKey(key, v));
    } else if key(x) < key(s[0]) {
      assert InsertBy(x, s, key) == [x] + s;
      FrontKeepsTies(x, s, key, v);
    } else {
      var tail := s[1..];
      assert SortedBy(tail, key) by {
        forall i, j | 0 <= i < j < |tail| ensures key(tail[i]) <= key(tail[j]) {
          assert tail[i] == s[i + 1] && tail[j] == s[j + 1];
        }
      }
      InsertByKeepsTies(x, tail, key, v);
      assert s == [s[0]] + tail;
      assert InsertBy(x, s, key) == [s[0]] + InsertBy(x, tail, key);
      var p := HasKey(key, v);
      FilterCons(s[0], InsertBy(x, tail, key), p);
      FilterCons(s[0], tail, p);
      AppendAssoc(if p(s[0]) then [s[0]] else [], Filter(tail, p), if key(x) == v then [x] else []);
    }
  }

  /** The sort is stable: the elements of any one key come out in their input order. */
  lemma {:induction false} SortByStable<T(!new)>(s: seq<T>, key: T -> int, v: int)
    ensures Filter(SortBy(s, key), HasKey(key, v)) == Filter(s, HasKey(key, v))
  {
    if s != [] {
      var init, x := s[..|s| - 1], s[|s| - 1];
      assert s == init + [x];
      var p := HasKey(key, v);
      assert SortBy(s, key) == InsertBy(x, SortBy(init, key), key);
      SortByStable(init, key, v);
      InsertByKeepsTies(x, SortBy(init, key), key, v);
      FilterAppend(init, [x], p);
      FilterSingle(x, p);
    }
  }

  /** The same sort, descending by `key`. */
  function SortDescBy<T>(s: seq<T>, key: T -> int): (r: seq<T>)
    ensures |r| == |s| && multiset(r) == multiset(s)
    ensures forall i, j :: 0 <= i < j < |r| ==> key(r[i]) >= key(r[j])
  {
    var r := SortBy(s, Negated(key));
    assert SortedBy(r, Negated(key));
    r
  }

  function Negated<T>(key: T -> int): T -> int {
    x => -key(x)
  }

  /** The position of the first element with the smallest key. */
  function FirstMinIndex<T>(s: seq<T>, key: T -> int): (k: nat)
    requires |s| > 0
    ensures k < |s|
  {
    if |s| == 1 then 0
    else
      var k := FirstMinIndex(s[..|s| - 1], key);
      if key(s[|s| - 1]) < key(s[k]) then |s| - 1 else k
  }

  /** `FirstMinIndex` has the smallest key, and every earlier element a larger one. */
  lemma {:induction false} FirstMinIndexIsFirstMin<T>(s: seq<T>, key: T -> int)
    requires |s| > 0
    ensures forall i :: 0 <= i < |s| ==> key(s[FirstMinIndex(s, key)]) <= key(s[i])
    ensures forall i :: 0 <= i < FirstMinIndex(s, key) ==> key(s[i]) > key(s[FirstMinIndex(s, key)])
  {
    if |s| > 1 {
      var init := s[..|s| - 1];
      FirstMinIndexIsFirstMin(init, key);
      assert forall i :: 0 <= i < |init| ==> init[i] == s[i];
    }
  }

  /** The head of the ascending sort is the first element with the smallest key. */
  lemma {:induction false} SortByHead<T>(s: seq<T>, key: T -> int)
    requires |s| > 0
    ensures SortBy(s, key)[0] == s[FirstMinIndex(s, key)]
  {
    var init, x := s[..|s| - 1], s[|s| - 1];
    if |s| > 1 {
      SortByHead(init, key);
      var t := SortBy(init, key);
      assert s[FirstMinIndex(init, key)] == init[FirstMinIndex(init, key)];
      assert InsertBy(x, t, key)[0] == if key(x) < key(t[0]) then x else t[0];
    }
  }

  /**
   * The head of the descending sort is the first element with the largest key: no element
   * has a larger key, and every element before it has a smaller one.
   */
  lemma SortDescByHead<T>(s: seq<T>, key: T -> int)
    requires |s| > 0
    ensures exists k :: (0 <= k < |s| && SortDescBy(s, key)[0] == s[k] &&
                         (forall i :: 0 <= i < |s| ==> key(s[i]) <= key(s[k])) &&
                         (forall i :: 0 <= i < k ==> key(s[i]) < key(s[k])))
  {
    var k := FirstMinIndex(s, Negated(key));
    SortByHead(s, Negated(key));
    FirstMinIndexIsFirstMin(s, Negated(key));
    assert forall i :: 0 <= i < |s| ==> Negated(key)(s[i]) == -key(s[i]);
  }

  lemma MultisetSameElements<T>(a: seq<T>, b: seq<T>)
    requires multiset(a) == multiset(b)
    ensures forall x :: x in a <==> x in b
  {
    forall x
      ensures x in a <==> x in b
    {
      assert x in a <==> x in multiset(a);
      assert x in b <==> x in multiset(b);
    }
  }

  /** Dropping the last element of a sorted sequence leaves it sorted, below that last element. */
  lemma SortedInit<T>(init: seq<T>, last: T, key: T -> int)
    requires SortedBy(init + [last], key)
    ensures SortedBy(init, key)
    ensures forall i :: 0 <= i < |init| ==> key(init[i]) <= key(last)
  {
    var s := init + [last];
    forall i, j | 0 <= i < j < |init| ensures key(init[i]) <= key(init[j]) {
      assert init[i] == s[i] && init[j] == s[j];
    }
    forall i | 0 <= i < |init| ensures key(init[i]) <= key(last) {
      assert init[i] == s[i] && last == s[|init|];
    }
  }

  /** An already sorted sequence is left as it is. */
  lemma {:induction false} SortBySorted<T>(s: seq<T>, key: T -> int)
    requires SortedBy(s, key)
    ensures SortBy(s, key) == s
  {
    if s != [] {
      var init, last := s[..|s| - 1], s[|s| - 1];
      assert init + [last] == s;
      SortedInit(init, last, key);
      SortBySorted(init, key);
      InsertAtEnd(last, init, key);
      assert init + [last] == s;
    }
  }

  lemma {:induction false} InsertAtEnd<T>(x: T, s: seq<T>, key: T -> int)
    requires forall i :: 0 <= i < |s| ==> key(s[i]) <= key(x)
    ensures InsertBy(x, s, key) == s + [x]
  {
    if s != [] {
      InsertAtEnd(x, s[1..], key);
      assert [s[0]] + (s[1..] + [x]) == s + [x];
    }
  }
}
