/**
 * The stable descending sort used by the services: JavaScript's
 * `Array.prototype.sort` with a comparator `(a, b) => key(b) - key(a)`
 * (stable since ES2019), and the document store's `orderBy(..., 'desc')`.
 *
 * SortDesc is insertion sort from the back: the first element is inserted
 * in front of the first element of the sorted rest whose key is not larger,
 * so elements with equal keys keep their input order.
 */
module StableSort {

  function Insert<T>(x: T, s: seq<T>, key: T -> real): seq<T>
  {
    if s == [] || key(s[0]) <= key(x) then [x] + s
    else [s[0]] + Insert(x, s[1..], key)
  }

  function SortDesc<T>(s: seq<T>, key: T -> real): seq<T>
  {
    if s == [] then [] else Insert(s[0], SortDesc(s[1..], key), key)
  }

  ghost predicate NonIncreasing<T>(s: seq<T>, key: T -> real)
  {
    forall i, j :: 0 <= i < j < |s| ==> key(s[i]) >= key(s[j])
  }

  ghost predicate Distinct<T>(s: seq<T>)
  {
    forall i, j :: 0 <= i < j < |s| ==> s[i] != s[j]
  }

  /** `rank` strictly increases along `s`: the input order of the sort. */
  ghost predicate RankIncreasing<T>(s: seq<T>, rank: T -> int)
  {
    forall i, j :: 0 <= i < j < |s| ==> rank(s[i]) < rank(s[j])
  }

  /** Descending by key; among equal keys, ascending by rank. */
  ghost predicate KeyThenRank<T>(s: seq<T>, key: T -> real, rank: T -> int)
  {
    forall i, j :: 0 <= i < j < |s| ==>
      key(s[i]) > key(s[j]) || (key(s[i]) == key(s[j]) && rank(s[i]) < rank(s[j]))
  }

  lemma {:induction false} InsertPermutes<T>(x: T, s: seq<T>, key: T -> real)
    ensures |Insert(x, s, key)| == |s| + 1
    ensures multiset(Insert(x, s, key)) == multiset(s) + multiset{x}
    ensures forall y :: y in Insert(x, s, key) ==> y == x || y in s
    ensures forall y :: y in s ==> y in Insert(x, s, key)
    ensures x in Insert(x, s, key)
  {
    if s == [] || key(s[0]) <= key(x) {
    } else {
      InsertPermutes(x, s[1..], key);
      assert s == [s[0]] + s[1..];
    }
  }

  lemma {:induction false} InsertSorted<T>(x: T, s: seq<T>, key: T -> real)
    requires NonIncreasing(s, key)
    ensures NonIncreasing(Insert(x, s, key), key)
  {
    if s == [] || key(s[0]) <= key(x) {
    } else {
      InsertSorted(x, s[1..], key);
      InsertPermutes(x, s[1..], key);
      var r := Insert(x, s[1..], key);
      forall j | 0 <= j < |r| ensures key(s[0]) >= key(r[j]) {
        assert r[j] in r;
        if r[j] != x {
          assert r[j] in s[1..];
          var m :| 0 <= m < |s[1..]| && s[1..][m] == r[j];
          assert s[m + 1] == r[j];
        }
      }
    }
  }

  /** The result is a permutation of the input, sorted by descending key. */
  lemma {:induction false} SortDescSpec<T>(s: seq<T>, key: T -> real)
    ensures |SortDesc(s, key)| == |s|
    ensures multiset(SortDesc(s, key)) == multiset(s)
    ensures forall y :: y in SortDesc(s, key) ==> y in s
    ensures forall y :: y in s ==> y in SortDesc(s, key)
    ensures NonIncreasing(SortDesc(s, key), key)
  {
    if s != [] {
      SortDescSpec(s[1..], key);
      InsertPermutes(s[0], SortDesc(s[1..], key), key);
      InsertSorted(s[0], SortDesc(s[1..], key), key);
      assert s == [s[0]] + s[1..];
      assert multiset(s) == multiset(s[1..]) + multiset{s[0]};
    }
  }

  lemma DistinctByMultiset<T>(a: seq<T>, b: seq<T>)
    requires multiset(a) == multiset(b) && Distinct(a)
    ensures Distinct(b)
  {
    forall i, j | 0 <= i < j < |b| ensures b[i] != b[j] {
      if b[i] == b[j] {
        var b' := b[..i] + b[i + 1..];
        assert b == b[..i] + [b[i]] + b[i + 1..];
        assert b[j] in b';
        assert multiset(b)[b[i]] == multiset(b')[b[i]] + 1;
        assert multiset(b')[b[i]] >= 1;
        assert multiset(a)[b[i]] >= 2;
        DistinctCountsOne(a, b[i]);
      }
    }
  }

  lemma {:induction false} DistinctCountsOne<T>(a: seq<T>, x: T)
    requires Distinct(a)
    ensures multiset(a)[x] <= 1
  {
    if a != [] {
      assert a == [a[0]] + a[1..];
      DistinctCountsOne(a[1..], x);
      if a[0] == x {
        assert x !in a[1..];
      }
    }
  }

  /** A stable sort keeps the input order among equal keys. */
  lemma {:induction false} SortDescStable<T>(s: seq<T>, key: T -> real, rank: T -> int)
    requires RankIncreasing(s, rank)
    ensures KeyThenRank(SortDesc(s, key), key, rank)
  {
    if s != [] {
      SortDescStable(s[1..], key, rank);
      SortDescSpec(s[1..], key);
      var t := SortDesc(s[1..], key);
      forall j | 0 <= j < |t| ensures rank(s[0]) < rank(t[j]) {
        assert t[j] in t;
        assert t[j] in s[1..];
        var m :| 0 <= m < |s[1..]| && s[1..][m] == t[j];
        assert s[m + 1] == t[j];
      }
      InsertStable(s[0], t, key, rank);
    }
  }

  lemma ConsKeyThenRank<T>(x: T, s: seq<T>, key: T -> real, rank: T -> int)
    requires KeyThenRank(s, key, rank)
    requires forall j :: 0 <= j < |s| ==> key(x) > key(s[j]) || (key(x) == key(s[j]) && rank(x) < rank(s[j]))
    ensures KeyThenRank([x] + s, key, rank)
  {
    var r := [x] + s;
    forall i, j | 0 <= i < j < |r|
      ensures key(r[i]) > key(r[j]) || (key(r[i]) == key(r[j]) && rank(r[i]) < rank(r[j]))
    {
      if i == 0 {
        assert r[j] == s[j - 1];
      } else {
        assert r[i] == s[i - 1] && r[j] == s[j - 1];
      }
    }
  }

  lemma {:induction false} InsertStable<T>(x: T, s: seq<T>, key: T -> real, rank: T -> int)
    requires KeyThenRank(s, key, rank)
    requires forall j :: 0 <= j < |s| ==> rank(x) < rank(s[j])
    ensures KeyThenRank(Insert(x, s, key), key, rank)
  {
    if s == [] || key(s[0]) <= key(x) {
      forall j | 0 <= j < |s| ensures key(x) > key(s[j]) || (key(x) == key(s[j]) && rank(x) < rank(s[j])) {
        if j > 0 {
          assert key(s[0]) >= key(s[j]);
        }
      }
      ConsKeyThenRank(x, s, key, rank);
    } else {
      var s' := s[1..];
      assert KeyThenRank(s', key, rank) by {
        forall i, j | 0 <= i < j < |s'|
          ensures key(s'[i]) > key(s'[j]) || (key(s'[i]) == key(s'[j]) && rank(s'[i]) < rank(s'[j]))
        {
          assert s'[i] == s[i + 1] && s'[j] == s[j + 1];
        }
      }
      InsertStable(x, s', key, rank);
      InsertPermutes(x, s', key);
      var t := Insert(x, s', key);
      forall j | 0 <= j < |t| ensures key(s[0]) > key(t[j]) || (key(s[0]) == key(t[j]) && rank(s[0]) < rank(t[j])) {
        assert t[j] in t;
        if t[j] != x {
          assert t[j] in s';
          var m :| 0 <= m < |s'| && s'[m] == t[j];
          assert s[m + 1] == t[j];
        }
      }
      ConsKeyThenRank(s[0], t, key, rank);
    }
  }

  /** Insert puts `x` right after the prefix of keys larger than its own. */
  lemma {:induction false} InsertSplit<T>(x: T, s: seq<T>, m: nat, key: T -> real)
    requires m <= |s|
    requires forall t :: 0 <= t < m ==> key(s[t]) > key(x)
    requires m == |s| || key(s[m]) <= key(x)
    ensures Insert(x, s, key) == s[..m] + [x] + s[m..]
  {
    if m > 0 {
      InsertSplit(x, s[1..], m - 1, key);
      assert s[1..][..m - 1] == s[1..m];
      assert s[1..][m - 1..] == s[m..];
      assert s[..m] == [s[0]] + s[1..m];
    }
  }

  /**
   * The inner loop of the insertion: shifts the elements after a[i] whose
   * key is larger than a[i]'s one place left and returns the gap left behind.
   */
  method ShiftLarger<T>(a: array<T>, i: nat, key: T -> real) returns (j: nat)
    requires i < a.Length
    modifies a
    ensures i <= j < a.Length
    ensures forall t :: 0 <= t < i ==> a[t] == old(a[t])
    ensures forall t :: i <= t < j ==> a[t] == old(a[t + 1])
    ensures forall t :: j < t < a.Length ==> a[t] == old(a[t])
    ensures forall t :: i < t <= j ==> key(old(a[t])) > key(old(a[i]))
    ensures j + 1 == a.Length || key(old(a[j + 1])) <= key(old(a[i]))
  {
    var x := a[i];
    j := i;
    while j + 1 < a.Length && key(a[j + 1]) > key(x)
      invariant i <= j < a.Length
      invariant forall t :: 0 <= t < i ==> a[t] == old(a[t])
      invariant forall t :: i <= t < j ==> a[t] == old(a[t + 1])
      invariant forall t :: j < t < a.Length ==> a[t] == old(a[t])
      invariant forall t :: i < t <= j ==> key(old(a[t])) > key(x)
    {
      a[j] := a[j + 1];
      j := j + 1;
    }
  }

  /** Moves a[i] rightwards past the larger keys of the sorted suffix a[i+1..]. */
  method InsertAt<T>(a: array<T>, i: nat, key: T -> real)
    requires i < a.Length
    modifies a
    ensures a[..i] == old(a[..i])
    ensures a[i..] == Insert(old(a[i]), old(a[i + 1..]), key)
  {
    var x := a[i];
    ghost var sorted := a[i + 1..];
    var j := ShiftLarger(a, i, key);
    a[j] := x;
    assert forall t :: 0 <= t < j - i ==> sorted[t] == old(a[i + 1 + t]);
    InsertSplit(x, sorted, j - i, key);
    Shifted(a[i..], sorted, x, j - i);
  }

  /** A sequence that agrees with `sorted` before `m`, holds `x` at `m` and `sorted` shifted by one after. */
  lemma Shifted<T>(s: seq<T>, sorted: seq<T>, x: T, m: nat)
    requires |s| == |sorted| + 1 && m <= |sorted|
    requires forall t :: 0 <= t < m ==> s[t] == sorted[t]
    requires s[m] == x
    requires forall t :: m < t < |s| ==> s[t] == sorted[t - 1]
    ensures s == sorted[..m] + [x] + sorted[m..]
  {
  }

  /** Sorts `a` in place; the result is exactly SortDesc of the old contents. */
  method SortInPlace<T>(a: array<T>, key: T -> real)
    modifies a
    ensures a[..] == SortDesc(old(a[..]), key)
  {
    ghost var s := a[..];
    var i := a.Length;
    while i > 0
      invariant 0 <= i <= a.Length
      invariant a[..i] == s[..i]
      invariant a[i..] == SortDesc(s[i..], key)
    {
      i := i - 1;
      assert s[i..] == [s[i]] + s[i + 1..];
      assert a[i] == s[i] by { assert a[..i + 1][i] == s[..i + 1][i]; }
      InsertAt(a, i, key);
    }
  }
}
