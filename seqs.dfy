// Array operations the pages use on fetched rows: filter, a Set-based
// de-duplication, counting, summing, a dictionary tally kept in key
// insertion order (as JavaScript objects keep string keys) and a stable
// sort by a numeric key.

module Seqs {

  function Filter<T>(s: seq<T>, p: T -> bool): (r: seq<T>)
    ensures |r| <= |s|
    ensures forall i :: 0 <= i < |r| ==> p(r[i]) && r[i] in s
    ensures forall i :: 0 <= i < |s| && p(s[i]) ==> s[i] in r
  {
    if s == [] then [] else (if p(s[0]) then [s[0]] else []) + Filter(s[1..], p)
  }

  /** a can be obtained from b by deleting elements; the order of what is kept is b's. */
  predicate IsSubsequence<T(==)>(a: seq<T>, b: seq<T>)
    decreases |b|
  {
    a == [] || (b != [] && ((a[0] == b[0] && IsSubsequence(a[1..], b[1..])) || IsSubsequence(a, b[1..])))
  }

  lemma {:induction false} SubsequenceShorter<T>(a: seq<T>, b: seq<T>)
    requires IsSubsequence(a, b)
    ensures |a| <= |b|
    decreases |b|
  {
    if a != [] {
      if a[0] == b[0] && IsSubsequence(a[1..], b[1..]) {
        SubsequenceShorter(a[1..], b[1..]);
      } else {
        SubsequenceShorter(a, b[1..]);
      }
    }
  }

  lemma {:induction false} FilterIsSubsequence<T>(s: seq<T>, p: T -> bool)
    ensures IsSubsequence(Filter(s, p), s)
    decreases |s|
  {
    if s != [] {
      FilterIsSubsequence(s[1..], p);
      if p(s[0]) {
        assert Filter(s, p) == [s[0]] + Filter(s[1..], p);
        assert Filter(s, p)[1..] == Filter(s[1..], p);
      } else {
        assert Filter(s, p) == Filter(s[1..], p);
      }
    }
  }

  /** A predicate true of every element keeps the whole sequence. */
  lemma {:induction false} FilterAll<T>(s: seq<T>, p: T -> bool)
    requires forall i :: 0 <= i < |s| ==> p(s[i])
    ensures Filter(s, p) == s
    decreases |s|
  {
    if s != [] {
      FilterAll(s[1..], p);
    }
  }

  lemma {:induction false} FilterIdempotent<T>(s: seq<T>, p: T -> bool)
    ensures Filter(Filter(s, p), p) == Filter(s, p)
  {
    FilterAll(Filter(s, p), p);
  }

  /** Filtering by a stronger predicate keeps a subsequence of what the weaker one keeps. */
  lemma {:induction false} FilterMonotone<T>(s: seq<T>, strong: T -> bool, weak: T -> bool)
    requires forall x :: strong(x) ==> weak(x)
    ensures IsSubsequence(Filter(s, strong), Filter(s, weak))
    ensures |Filter(s, strong)| <= |Filter(s, weak)|
    decreases |s|
  {
    if s != [] {
      FilterMonotone(s[1..], strong, weak);
      var a, b := Filter(s, strong), Filter(s, weak);
      if strong(s[0]) {
        assert a == [s[0]] + Filter(s[1..], strong) && b == [s[0]] + Filter(s[1..], weak);
        assert a[1..] == Filter(s[1..], strong) && b[1..] == Filter(s[1..], weak);
      } else if weak(s[0]) {
        assert a == Filter(s[1..], strong) && b == [s[0]] + Filter(s[1..], weak);
        assert b[1..] == Filter(s[1..], weak);
        if a != [] {
          assert IsSubsequence(a, b[1..]);
        }
      } else {
        assert a == Filter(s[1..], strong) && b == Filter(s[1..], weak);
      }
    }
    SubsequenceShorter(Filter(s, strong), Filter(s, weak));
  }

  lemma {:induction false} FilterConcat<T>(a: seq<T>, b: seq<T>, p: T -> bool)
    ensures Filter(a + b, p) == Filter(a, p) + Filter(b, p)
    decreases |a|
  {
    if a != [] {
      assert (a + b)[1..] == a[1..] + b;
      FilterConcat(a[1..], b, p);
    } else {
      assert a + b == b;
    }
  }

  lemma FilterMembers<T>(s: seq<T>, p: T -> bool)
    ensures forall x :: x in Filter(s, p) <==> x in s && p(x)
  {
  }

  /** Array.prototype.map */
  function Map<T, U>(s: seq<T>, f: T -> U): (r: seq<U>)
    ensures |r| == |s| && forall i :: 0 <= i < |s| ==> r[i] == f(s[i])
  {
    if s == [] then [] else [f(s[0])] + Map(s[1..], f)
  }

  function Count<T(==)>(s: seq<T>, x: T): nat
  {
    if s == [] then 0 else (if s[0] == x then 1 else 0) + Count(s[1..], x)
  }

  lemma {:induction false} CountZero<T>(s: seq<T>, x: T)
    ensures Count(s, x) == 0 <==> x !in s
    decreases |s|
  {
    if s != [] {
      CountZero(s[1..], x);
    }
  }

  lemma {:induction false} CountSnoc<T>(s: seq<T>, x: T, y: T)
    ensures Count(s + [y], x) == Count(s, x) + (if y == x then 1 else 0)
    decreases |s|
  {
    if s == [] {
      assert s + [y] == [y];
    } else {
      assert (s + [y])[1..] == s[1..] + [y];
      CountSnoc(s[1..], x, y);
    }
  }

  function Sum(s: seq<int>): int
  {
    if s == [] then 0 else s[0] + Sum(s[1..])
  }

  lemma {:induction false} SumSnoc(s: seq<int>, x: int)
    ensures Sum(s + [x]) == Sum(s) + x
    decreases |s|
  {
    if s == [] {
      assert s + [x] == [x];
    } else {
      assert (s + [x])[1..] == s[1..] + [x];
      SumSnoc(s[1..], x);
    }
  }

  lemma {:induction false} SumNonNegative(s: seq<int>)
    requires forall i :: 0 <= i < |s| ==> s[i] >= 0
    ensures Sum(s) >= 0
    decreases |s|
  {
    if s != [] {
      SumNonNegative(s[1..]);
    }
  }

  /** Sum is bounded by the number of terms times any bound on them. */
  lemma {:induction false} SumBounds(s: seq<int>, lo: int, hi: int)
    requires forall i :: 0 <= i < |s| ==> lo <= s[i] <= hi
    ensures lo * |s| <= Sum(s) <= hi * |s|
    decreases |s|
  {
    if s != [] {
      SumBounds(s[1..], lo, hi);
    }
  }

  predicate NoDuplicates<T(==)>(s: seq<T>)
  {
    forall i, j :: 0 <= i < j < |s| ==> s[i] != s[j]
  }

  /** Position of the first occurrence of x. */
  function FirstIndex<T(==)>(s: seq<T>, x: T): (i: nat)
    requires x in s
    ensures i < |s| && s[i] == x && x !in s[..i]
  {
    if s[0] == x then 0 else 1 + FirstIndex(s[1..], x)
  }

  lemma {:induction false} FirstIndexPrefix<T>(s: seq<T>, t: seq<T>, x: T)
    requires x in s
    ensures FirstIndex(s + t, x) == FirstIndex(s, x)
    decreases |s|
  {
    if s[0] != x {
      assert (s + t)[1..] == s[1..] + t;
      FirstIndexPrefix(s[1..], t, x);
    }
  }

  /** The distinct values: each value once, in order of first occurrence. */
  function Distinct<T(==)>(s: seq<T>): (r: seq<T>)
  {
    if s == [] then []
    else
      var d := Distinct(s[..|s| - 1]);
      if s[|s| - 1] in d then d else d + [s[|s| - 1]]
  }

  /** Set semantics: exactly the values present, each once, ordered by first occurrence. */
  lemma {:induction false} DistinctSpec<T>(s: seq<T>)
    ensures NoDuplicates(Distinct(s))
    ensures forall x :: x in Distinct(s) <==> x in s
    ensures forall i, j :: 0 <= i < j < |Distinct(s)| ==>
              FirstIndex(s, Distinct(s)[i]) < FirstIndex(s, Distinct(s)[j])
    ensures |Distinct(s)| <= |s|
    decreases |s|
  {
    if s != [] {
      var p, x := s[..|s| - 1], s[|s| - 1];
      assert s == p + [x];
      DistinctSpec(p);
      var d := Distinct(p);
      forall y | y in p
        ensures FirstIndex(s, y) == FirstIndex(p, y)
      {
        FirstIndexPrefix(p, [x], y);
      }
      if x !in d {
        var r := d + [x];
        assert FirstIndex(s, x) == |p| by {
          FirstIndexCharacterize(s, x, |p|);
        }
        forall i, j | 0 <= i < j < |r|
          ensures FirstIndex(s, r[i]) < FirstIndex(s, r[j])
        {
          if j == |r| - 1 {
            assert r[i] == d[i] && d[i] in d;
          } else {
            assert r[i] == d[i] && r[j] == d[j];
          }
        }
      }
    }
  }

  /** The membership half of DistinctSpec. */
  lemma DistinctSet<T>(s: seq<T>)
    ensures NoDuplicates(Distinct(s))
    ensures forall x :: x in Distinct(s) ==> x in s
    ensures forall x :: x in s ==> x in Distinct(s)
  {
    DistinctSpec(s);
  }

  /** The distinct values of a column computed from rows: each row's value once. */
  lemma DistinctColumn<T, K>(rows: seq<T>, col: seq<K>, f: T -> K)
    requires |col| == |rows| && forall i :: 0 <= i < |rows| ==> col[i] == f(rows[i])
    ensures forall i :: 0 <= i < |rows| ==> f(rows[i]) in Distinct(col)
    ensures forall x :: x in Distinct(col) ==> exists i :: 0 <= i < |rows| && f(rows[i]) == x
    ensures NoDuplicates(Distinct(col))
  {
    DistinctSet(col);
    forall x | x in Distinct(col) ensures exists i :: 0 <= i < |rows| && f(rows[i]) == x {
      assert x in col;
      var k :| 0 <= k < |col| && col[k] == x;
    }
  }

  lemma FirstIndexCharacterize<T>(s: seq<T>, x: T, k: nat)
    requires k < |s| && s[k] == x && x !in s[..k]
    ensures FirstIndex(s, x) == k
  {
  }

  /**
   * A dictionary of counts whose keys keep insertion order, one added to a key's count (from 0 when absent) per occurrence.
   */
  function Bump<K(==)>(t: seq<(K, nat)>, k: K): (r: seq<(K, nat)>)
  {
    if t == [] then [(k, 1)]
    else if t[0].0 == k then [(k, t[0].1 + 1)] + t[1..]
    else [t[0]] + Bump(t[1..], k)
  }

  /** The tally of a sequence of keys, built by bumping one key after the other. */
  function Tally<K(==)>(keys: seq<K>): seq<(K, nat)>
  {
    if keys == [] then [] else Bump(Tally(keys[..|keys| - 1]), keys[|keys| - 1])
  }

  function TallyKeys<K>(t: seq<(K, nat)>): (r: seq<K>)
    ensures |r| == |t| && forall i :: 0 <= i < |t| ==> r[i] == t[i].0
  {
    if t == [] then [] else [t[0].0] + TallyKeys(t[1..])
  }

  function Counts<K>(t: seq<(K, nat)>): (r: seq<int>)
    ensures |r| == |t| && forall i :: 0 <= i < |t| ==> r[i] == t[i].1
  {
    if t == [] then [] else [t[0].1 as int] + Counts(t[1..])
  }

  lemma {:induction false} BumpKeys<K>(t: seq<(K, nat)>, k: K)
    ensures k in TallyKeys(t) ==> TallyKeys(Bump(t, k)) == TallyKeys(t)
    ensures k !in TallyKeys(t) ==> TallyKeys(Bump(t, k)) == TallyKeys(t) + [k]
    decreases |t|
  {
    if t != [] && t[0].0 != k {
      BumpKeys(t[1..], k);
      assert TallyKeys(t)[1..] == TallyKeys(t[1..]);
    }
  }

  lemma {:induction false} BumpSum<K>(t: seq<(K, nat)>, k: K)
    ensures Sum(Counts(Bump(t, k))) == Sum(Counts(t)) + 1
    decreases |t|
  {
    if t != [] && t[0].0 != k {
      BumpSum(t[1..], k);
      assert Counts(Bump(t, k))[1..] == Counts(Bump(t[1..], k));
    } else if t != [] {
      assert Counts(Bump(t, k))[1..] == Counts(t[1..]);
    }
  }

  /** The count a tally records for a key, 0 when the key is absent. */
  function CountOf<K(==)>(t: seq<(K, nat)>, k: K): nat
  {
    if t == [] then 0 else if t[0].0 == k then t[0].1 else CountOf(t[1..], k)
  }

  /** Bumping a key adds one to its count and leaves every other key's count alone. */
  lemma {:induction false} BumpCountOf<K>(t: seq<(K, nat)>, k: K, x: K)
    ensures CountOf(Bump(t, k), x) == CountOf(t, x) + (if x == k then 1 else 0)
    decreases |t|
  {
    if t != [] && t[0].0 != k {
      BumpCountOf(t[1..], k, x);
    }
  }

  /** The keys of a tally are the distinct keys, in first-occurrence order; the counts add up to the input's length. */
  lemma {:induction false} TallySpec<K>(keys: seq<K>)
    ensures TallyKeys(Tally(keys)) == Distinct(keys)
    ensures Sum(Counts(Tally(keys))) == |keys|
    decreases |keys|
  {
    if keys != [] {
      var p, k := keys[..|keys| - 1], keys[|keys| - 1];
      TallySpec(p);
      BumpKeys(Tally(p), k);
      BumpSum(Tally(p), k);
    }
  }

  /** The tally records, for every key, exactly its number of occurrences. */
  lemma {:induction false} CountOfTally<K>(keys: seq<K>, x: K)
    ensures CountOf(Tally(keys), x) == Count(keys, x)
    decreases |keys|
  {
    if keys != [] {
      var p, k := keys[..|keys| - 1], keys[|keys| - 1];
      assert keys == p + [k];
      CountOfTally(p, x);
      BumpCountOf(Tally(p), k, x);
      CountSnoc(p, x, k);
    }
  }

  /** In a tally whose keys are distinct, every entry holds its key's count. */
  lemma {:induction false} CountOfAt<K>(t: seq<(K, nat)>, j: nat)
    requires j < |t| && NoDuplicates(TallyKeys(t))
    ensures CountOf(t, t[j].0) == t[j].1
    decreases |t|
  {
    if j > 0 {
      assert TallyKeys(t)[0] != TallyKeys(t)[j];
      assert NoDuplicates(TallyKeys(t[1..])) by {
        forall a, b | 0 <= a < b < |t| - 1 ensures TallyKeys(t[1..])[a] != TallyKeys(t[1..])[b] {
          assert TallyKeys(t)[a + 1] != TallyKeys(t)[b + 1];
        }
      }
      CountOfAt(t[1..], j - 1);
    }
  }

  predicate SortedDesc<T>(s: seq<T>, key: T -> int)
  {
    forall i, j :: 0 <= i < j < |s| ==> key(s[i]) >= key(s[j])
  }

  function InsertDesc<T>(x: T, t: seq<T>, key: T -> int): (r: seq<T>)
    ensures multiset(r) == multiset(t) + multiset{x}
    ensures |r| == |t| + 1
  {
    if t == [] || key(t[0]) <= key(x) then [x] + t
    else
      assert t == [t[0]] + t[1..];
      [t[0]] + InsertDesc(x, t[1..], key)
  }

  /** A stable sort by descending key: an insertion sort that keeps equal keys in input order (SortDescStable). */
  function SortDesc<T>(s: seq<T>, key: T -> int): (r: seq<T>)
    ensures multiset(r) == multiset(s)
    ensures |r| == |s|
  {
    if s == [] then []
    else
      assert s == [s[0]] + s[1..];
      InsertDesc(s[0], SortDesc(s[1..], key), key)
  }

  lemma {:induction false} InsertDescSorted<T>(x: T, t: seq<T>, key: T -> int)
    requires SortedDesc(t, key)
    ensures SortedDesc(InsertDesc(x, t, key), key)
    decreases |t|
  {
    if !(t == [] || key(t[0]) <= key(x)) {
      InsertDescSorted(x, t[1..], key);
      var r := InsertDesc(x, t, key);
      var r' := InsertDesc(x, t[1..], key);
      assert r == [t[0]] + r';
      assert r'[0] == x || r'[0] == t[1];
      forall i, j | 0 <= i < j < |r|
        ensures key(r[i]) >= key(r[j])
      {
        assert r[j] == r'[j - 1];
        if i == 0 {
          assert key(r'[0]) >= key(r'[j - 1]);
        } else {
          assert r[i] == r'[i - 1];
        }
      }
    }
  }

  /** Inserting x changes the elements of one key only by putting x ahead of those of its own key. */
  lemma {:induction false} InsertDescStable<T>(x: T, t: seq<T>, key: T -> int, k: int)
    ensures Filter(InsertDesc(x, t, key), (y: T) => key(y) == k)
            == (if key(x) == k then [x] else []) + Filter(t, (y: T) => key(y) == k)
    decreases |t|
  {
    var p := (y: T) => key(y) == k;
    if t == [] || key(t[0]) <= key(x) {
      FilterConcat([x], t, p);
    } else {
      assert t == [t[0]] + t[1..];
      InsertDescStable(x, t[1..], key, k);
      FilterConcat([t[0]], InsertDesc(x, t[1..], key), p);
      FilterConcat([t[0]], t[1..], p);
    }
  }

  /** Stability: the elements of any one key come out of the sort in the order they went in. */
  lemma {:induction false} SortDescStable<T>(s: seq<T>, key: T -> int, k: int)
    ensures Filter(SortDesc(s, key), (y: T) => key(y) == k) == Filter(s, (y: T) => key(y) == k)
    decreases |s|
  {
    if s != [] {
      var p := (y: T) => key(y) == k;
      assert s == [s[0]] + s[1..];
      SortDescStable(s[1..], key, k);
      InsertDescStable(s[0], SortDesc(s[1..], key), key, k);
      FilterConcat([s[0]], s[1..], p);
    }
  }

  lemma {:induction false} SortDescSorted<T>(s: seq<T>, key: T -> int)
    ensures SortedDesc(SortDesc(s, key), key)
    decreases |s|
  {
    if s != [] {
      SortDescSorted(s[1..], key);
      InsertDescSorted(s[0], SortDesc(s[1..], key), key);
    }
  }

  lemma SortDescMembers<T>(s: seq<T>, key: T -> int)
    ensures forall x :: x in SortDesc(s, key) <==> x in s
  {
    forall x ensures x in SortDesc(s, key) <==> x in s {
      assert x in multiset(SortDesc(s, key)) <==> x in multiset(s);
    }
  }

  /**
   * The first k of a descending sort: they come from s, they are in order, and
   * whatever is left out ranks no higher than any of them (and then k were taken).
   */
  lemma TopSpec<T>(s: seq<T>, key: T -> int, k: nat)
    ensures forall x :: x in Take(SortDesc(s, key), k) ==> x in s
    ensures SortedDesc(Take(SortDesc(s, key), k), key)
    ensures forall x :: x in s && x !in Take(SortDesc(s, key), k) ==>
              |Take(SortDesc(s, key), k)| == k && forall i :: 0 <= i < k ==> key(Take(SortDesc(s, key), k)[i]) >= key(x)
  {
    var r := SortDesc(s, key);
    var top := Take(r, k);
    SortDescSorted(s, key);
    SortDescMembers(s, key);
    forall x | x in s && x !in top
      ensures |top| == k && forall i :: 0 <= i < k ==> key(top[i]) >= key(x)
    {
      var j :| 0 <= j < |r| && r[j] == x;
      assert r[j] !in r[..|top|];
    }
  }

  /** A sum of real values computed from the elements. */
  function RealSum<T>(s: seq<T>, f: T -> real): real
  {
    if s == [] then 0.0 else f(s[0]) + RealSum(s[1..], f)
  }

  lemma {:induction false} InsertDescRealSum<T>(x: T, t: seq<T>, key: T -> int, f: T -> real)
    ensures RealSum(InsertDesc(x, t, key), f) == f(x) + RealSum(t, f)
    decreases |t|
  {
    if !(t == [] || key(t[0]) <= key(x)) {
      InsertDescRealSum(x, t[1..], key, f);
    }
  }

  /** Sorting does not change a sum. */
  lemma {:induction false} SortDescRealSum<T>(s: seq<T>, key: T -> int, f: T -> real)
    ensures RealSum(SortDesc(s, key), f) == RealSum(s, f)
    decreases |s|
  {
    if s != [] {
      SortDescRealSum(s[1..], key, f);
      InsertDescRealSum(s[0], SortDesc(s[1..], key), key, f);
    }
  }

  /** The first n elements, or all of them when there are fewer. */
  function Take<T>(s: seq<T>, n: nat): (r: seq<T>)
    ensures |r| == if |s| < n then |s| else n
    ensures r == s[..|r|]
  {
    if |s| <= n then s else s[..n]
  }
}
