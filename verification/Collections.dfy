/** Counting and ordering facts shared by the catalogue models. */
module Collections {
  import opened GoStrings

  function Elements<T>(s: seq<T>): set<T> {
    set x | x in s
  }

  ghost predicate Distinct<T>(s: seq<T>) {
    forall i, j :: 0 <= i < j < |s| ==> s[i] != s[j]
  }

  function Map<T, U>(s: seq<T>, f: T -> U): (r: seq<U>)
    ensures |r| == |s| && forall i :: 0 <= i < |s| ==> r[i] == f(s[i])
  {
    seq(|s|, i requires 0 <= i < |s| => f(s[i]))
  }

  /** No two positions share a key. */
  ghost predicate DistinctBy<T, K>(s: seq<T>, key: T -> K) {
    forall i, j :: 0 <= i < j < |s| ==> key(s[i]) != key(s[j])
  }

  lemma SubsetSize<T>(a: set<T>, b: set<T>)
    requires a <= b
    ensures |a| <= |b|
    ensures |a| == |b| ==> a == b
  {
    assert b == a + (b - a);
    assert |b| == |a| + |b - a|;
  }

  /** A list has as many different elements as positions exactly when it repeats none. */
  lemma {:induction false} ElementsSize<T>(s: seq<T>)
    ensures |Elements(s)| <= |s|
    ensures |Elements(s)| == |s| <==> Distinct(s)
  {
    if s == [] {
      assert Elements(s) == {};
    } else {
      var n := |s| - 1;
      var rest, last := s[..n], s[n];
      ElementsSize(rest);
      assert Elements(s) == Elements(rest) + {last};
      if last in rest {
        assert Elements(s) == Elements(rest);
        var i :| 0 <= i < n && rest[i] == last;
        assert s[i] == s[n];
      } else {
        assert Distinct(s) <==> Distinct(rest);
      }
    }
  }

  /** A one-to-one map has as many values as keys. */
  lemma {:induction false} InjectiveSize<T, U>(m: map<T, U>)
    requires forall a, b :: a in m && b in m && m[a] == m[b] ==> a == b
    ensures |m.Values| == |m|
  {
    if |m| == 0 {
      assert m.Values == {};
    } else {
      var k :| k in m;
      var rest := m - {k};
      InjectiveSize(rest);
      assert m.Values == rest.Values + {m[k]} by {
        forall v | v in m.Values
          ensures v in rest.Values + {m[k]}
        {
          var a :| a in m && m[a] == v;
          assert a != k ==> a in rest && rest[a] == v;
        }
        assert forall v :: v in rest.Values ==> v in m.Values;
      }
      assert m[k] !in rest.Values;
      assert |rest| == |m| - 1 by {
        assert m.Keys == rest.Keys + {k};
      }
    }
  }

  /** Pigeonhole: a one-to-one map into a set no larger than its keys hits every member. */
  lemma Onto<T, U>(m: map<T, U>, target: set<U>)
    requires forall a, b :: a in m && b in m && m[a] == m[b] ==> a == b
    requires m.Values <= target && |target| <= |m|
    ensures m.Values == target && |target| == |m|
  {
    InjectiveSize(m);
    SubsetSize(m.Values, target);
  }

  /** Permuting a list keeps its elements. */
  lemma PermutedElements<T>(s: seq<T>, t: seq<T>)
    requires multiset(s) == multiset(t)
    ensures |s| == |t| && Elements(s) == Elements(t)
  {
    assert |multiset(s)| == |s|;
    assert forall x :: x in s <==> x in multiset(s);
    assert forall x :: x in t <==> x in multiset(t);
  }

  /** A list repeats an element exactly when it counts it more than once. */
  lemma {:induction false} CountOnce<T>(s: seq<T>)
    ensures Distinct(s) <==> forall x :: multiset(s)[x] <= 1
  {
    if s != [] {
      var n := |s| - 1;
      var rest, last := s[..n], s[n];
      CountOnce(rest);
      assert s == rest + [last];
      if last in rest {
        var i :| 0 <= i < n && rest[i] == last;
        assert s[i] == s[n];
        assert multiset(rest)[last] >= 1;
        assert multiset(s)[last] >= 2;
      } else {
        assert last !in multiset(rest);
        assert Distinct(s) <==> Distinct(rest);
        assert forall x :: x != last ==> multiset(s)[x] == multiset(rest)[x];
      }
    }
  }

  /** Whether a list repeats a key does not depend on its order. */
  lemma PermutedDistinctBy<T, K>(s: seq<T>, t: seq<T>, key: T -> K)
    requires multiset(s) == multiset(t) && DistinctBy(s, key)
    ensures DistinctBy(t, key)
  {
    assert Distinct(s);
    CountOnce(s);
    CountOnce(t);
    PermutedElements(s, t);
    forall i, j | 0 <= i < j < |t|
      ensures key(t[i]) != key(t[j])
    {
      assert t[i] in Elements(s) && t[j] in Elements(s);
      var a :| 0 <= a < |s| && s[a] == t[i];
      var b :| 0 <= b < |s| && s[b] == t[j];
      assert a != b;
    }
  }

  // ---------------------------------------------------------------- byte order

  /** Go's `<` on strings: lexicographic on bytes. */
  predicate Less(a: GoString, b: GoString) {
    b != "" && (a == "" || a[0] < b[0] || (a[0] == b[0] && Less(a[1..], b[1..])))
  }

  lemma {:induction false} LessIsTotal(a: GoString, b: GoString)
    ensures a != b ==> Less(a, b) || Less(b, a)
    ensures !(Less(a, b) && Less(b, a)) && !Less(a, a)
  {
    if a != "" && b != "" {
      LessIsTotal(a[1..], b[1..]);
      LessIsTotal(a[1..], a[1..]);
      assert a == [a[0]] + a[1..] && b == [b[0]] + b[1..];
    } else if a != "" {
      LessIsTotal(a[1..], a[1..]);
    }
  }

  lemma {:induction false} LessIsTransitive(a: GoString, b: GoString, c: GoString)
    requires Less(a, b) && Less(b, c)
    ensures Less(a, c)
  {
    if a != "" && a[0] == b[0] && b[0] == c[0] {
      LessIsTransitive(a[1..], b[1..], c[1..]);
    }
  }

  /** Strictly increasing keys. */
  ghost predicate Increasing<T>(s: seq<T>, key: T -> GoString) {
    forall i, j :: 0 <= i < j < |s| ==> Less(key(s[i]), key(s[j]))
  }

  lemma IncreasingIsDistinct<T>(s: seq<T>, key: T -> GoString)
    requires Increasing(s, key)
    ensures DistinctBy(s, key) && Distinct(s)
  {
    forall i, j | 0 <= i < j < |s|
      ensures key(s[i]) != key(s[j])
    {
      LessIsTotal(key(s[i]), key(s[j]));
    }
  }

  /** There is only one increasing listing of a set. */
  lemma {:induction false} IncreasingIsUnique<T>(s: seq<T>, t: seq<T>, key: T -> GoString)
    requires Increasing(s, key) && Increasing(t, key) && Elements(s) == Elements(t)
    ensures s == t
  {
    NoElements(s);
    NoElements(t);
    if s != [] {
      FirstIsLeast(s, t, key);
      FirstIsLeast(t, s, key);
      LessIsTotal(key(s[0]), key(t[0]));
      assert s[0] == t[0];
      RestElements(s, key);
      RestElements(t, key);
      IncreasingIsUnique(s[1..], t[1..], key);
      assert s == [s[0]] + s[1..] && t == [t[0]] + t[1..];
    }
  }

  lemma NoElements<T>(s: seq<T>)
    ensures s == [] <==> Elements(s) == {}
  {
    assert s != [] ==> s[0] in Elements(s);
  }

  lemma FirstIsLeast<T>(s: seq<T>, t: seq<T>, key: T -> GoString)
    requires s != [] && t != [] && Increasing(s, key) && Elements(s) == Elements(t)
    ensures t[0] == s[0] || Less(key(s[0]), key(t[0]))
  {
    assert t[0] in Elements(s);
  }

  lemma RestElements<T>(s: seq<T>, key: T -> GoString)
    requires s != [] && Increasing(s, key)
    ensures Elements(s[1..]) == Elements(s) - {s[0]} && Increasing(s[1..], key)
  {
    IncreasingIsDistinct(s, key);
    forall x | x in Elements(s) - {s[0]}
      ensures x in s[1..]
    {
      var i :| 0 <= i < |s| && s[i] == x;
      assert s[1..][i - 1] == x;
    }
  }

  // ---------------------------------------------------------------- sorting

  /** Non-decreasing keys. */
  ghost predicate Ordered<T>(s: seq<T>, key: T -> GoString) {
    forall i, j :: 0 <= i < j < |s| ==> !Less(key(s[j]), key(s[i]))
  }

  lemma OrderedDistinctIsIncreasing<T>(s: seq<T>, key: T -> GoString)
    requires Ordered(s, key) && DistinctBy(s, key)
    ensures Increasing(s, key)
  {
    forall i, j | 0 <= i < j < |s|
      ensures Less(key(s[i]), key(s[j]))
    {
      LessIsTotal(key(s[i]), key(s[j]));
    }
  }

  function Insert<T>(x: T, s: seq<T>, key: T -> GoString): (r: seq<T>)
    ensures |r| == |s| + 1
  {
    if s == [] || Less(key(x), key(s[0])) then [x] + s else [s[0]] + Insert(x, s[1..], key)
  }

  /** `sort.Slice` by a string key. */
  function Sort<T>(s: seq<T>, key: T -> GoString): (r: seq<T>)
    ensures |r| == |s|
  {
    if s == [] then [] else Insert(s[0], Sort(s[1..], key), key)
  }

  lemma {:induction false} InsertPermutes<T>(x: T, s: seq<T>, key: T -> GoString)
    ensures multiset(Insert(x, s, key)) == multiset(s) + multiset{x}
  {
    if s != [] && !Less(key(x), key(s[0])) {
      InsertPermutes(x, s[1..], key);
      assert s == [s[0]] + s[1..];
    }
  }

  lemma {:induction false} InsertOrders<T>(x: T, s: seq<T>, key: T -> GoString)
    requires Ordered(s, key)
    ensures Ordered(Insert(x, s, key), key)
  {
    var r := Insert(x, s, key);
    if s == [] {
    } else if Less(key(x), key(s[0])) {
      forall j | 0 <= j < |s|
        ensures !Less(key(s[j]), key(x))
      {
        LessIsTotal(key(s[0]), key(s[0]));
        BelowFirst(key(x), key(s[0]), key(s[j]));
      }
    } else {
      InsertOrders(x, s[1..], key);
      InsertPermutes(x, s[1..], key);
      var rest := Insert(x, s[1..], key);
      forall j | 0 <= j < |rest|
        ensures !Less(key(rest[j]), key(s[0]))
      {
        assert rest[j] in multiset(rest);
        assert rest[j] == x || rest[j] in s[1..];
      }
    }
  }

  lemma BelowFirst(x: GoString, first: GoString, y: GoString)
    requires Less(x, first) && !Less(y, first)
    ensures !Less(y, x)
  {
    if Less(y, x) {
      LessIsTransitive(y, x, first);
    }
  }

  lemma {:induction false} SortSorts<T>(s: seq<T>, key: T -> GoString)
    ensures multiset(Sort(s, key)) == multiset(s)
    ensures Ordered(Sort(s, key), key)
  {
    if s != [] {
      SortSorts(s[1..], key);
      InsertPermutes(s[0], Sort(s[1..], key), key);
      InsertOrders(s[0], Sort(s[1..], key), key);
      assert s == [s[0]] + s[1..];
    }
  }

  /** A list without repeated keys is sorted the same way whatever its order was. */
  lemma SortIsOrderFree<T>(s: seq<T>, t: seq<T>, key: T -> GoString)
    requires multiset(s) == multiset(t) && DistinctBy(s, key)
    ensures Sort(s, key) == Sort(t, key) && Increasing(Sort(s, key), key)
  {
    SortIsIncreasing(s, key);
    PermutedDistinctBy(s, t, key);
    SortIsIncreasing(t, key);
    PermutedElements(s, t);
    IncreasingIsUnique(Sort(s, key), Sort(t, key), key);
  }

  lemma SortIsIncreasing<T>(s: seq<T>, key: T -> GoString)
    requires DistinctBy(s, key)
    ensures Increasing(Sort(s, key), key) && Elements(Sort(s, key)) == Elements(s)
  {
    SortSorts(s, key);
    PermutedDistinctBy(s, Sort(s, key), key);
    PermutedElements(s, Sort(s, key));
    OrderedDistinctIsIncreasing(Sort(s, key), key);
  }

  // ---------------------------------------------------------------- flattening

  /** What `f` yields for each element, in order. */
  function FlatMap<T, U>(s: seq<T>, f: T -> seq<U>): seq<U> {
    if s == [] then [] else FlatMap(s[..|s| - 1], f) + f(s[|s| - 1])
  }

  lemma FlatMapOneMore<T, U>(s: seq<T>, x: T, f: T -> seq<U>)
    ensures FlatMap(s + [x], f) == FlatMap(s, f) + f(x)
  {
    assert (s + [x])[..|s|] == s;
  }

  lemma {:induction false} InFlatMap<T, U>(s: seq<T>, f: T -> seq<U>)
    ensures forall u :: u in FlatMap(s, f) <==> exists x :: x in s && u in f(x)
  {
    if s != [] {
      var n := |s| - 1;
      InFlatMap(s[..n], f);
      assert s == s[..n] + [s[n]];
    }
  }

  lemma {:induction false} FlatMapWithout<T, U>(s: seq<T>, i: nat, f: T -> seq<U>)
    requires i < |s|
    ensures multiset(FlatMap(s, f)) == multiset(FlatMap(s[..i] + s[i + 1..], f)) + multiset(f(s[i]))
  {
    var n := |s| - 1;
    if i < n {
      var front := s[..n][..i] + s[..n][i + 1..];
      assert s[..i] + s[i + 1..] == front + [s[n]];
      FlatMapWithout(s[..n], i, f);
      FlatMapOneMore(front, s[n], f);
      assert FlatMap(s, f) == FlatMap(s[..n], f) + f(s[n]);
      hide FlatMap;
    } else {
      assert s[..i] + s[i + 1..] == s[..n];
    }
  }

  lemma Without<T>(s: seq<T>, i: nat)
    requires i < |s|
    ensures multiset(s[..i] + s[i + 1..]) == multiset(s) - multiset{s[i]}
  {
    assert s == s[..i] + [s[i]] + s[i + 1..];
  }

  /** Permuting the source permutes what it is flattened to. */
  lemma {:induction false} PermutedFlatMap<T, U>(s: seq<T>, t: seq<T>, f: T -> seq<U>)
    requires multiset(s) == multiset(t)
    ensures multiset(FlatMap(s, f)) == multiset(FlatMap(t, f))
  {
    PermutedElements(s, t);
    if s != [] {
      var n := |s| - 1;
      assert s[n] in Elements(t);
      var i :| 0 <= i < |t| && t[i] == s[n];
      var without := t[..i] + t[i + 1..];
      Without(t, i);
      Without(s, n);
      assert s[..n] + s[n + 1..] == s[..n];
      PermutedFlatMap(s[..n], without, f);
      FlatMapWithout(t, i, f);
    }
  }

  // ---------------------------------------------------------------- tables

  /** The table a list fills, a later element replacing an earlier one with its key. */
  function ByKey<T, K>(list: seq<T>, key: T -> K): map<K, T> {
    if list == [] then map[] else ByKey(list[..|list| - 1], key)[key(list[|list| - 1]) := list[|list| - 1]]
  }

  lemma ByKeyOneMore<T, K>(list: seq<T>, x: T, key: T -> K)
    ensures ByKey(list + [x], key) == ByKey(list, key)[key(x) := x]
  {
    assert (list + [x])[..|list|] == list;
  }

  lemma {:induction false} ByKeyLists<T, K>(list: seq<T>, key: T -> K)
    ensures forall k :: k in ByKey(list, key) ==> ByKey(list, key)[k] in list && key(ByKey(list, key)[k]) == k
    ensures forall x :: x in list ==> key(x) in ByKey(list, key)
    ensures DistinctBy(list, key) ==> forall x :: x in list ==> ByKey(list, key)[key(x)] == x
  {
    if list != [] {
      var n := |list| - 1;
      ByKeyLists(list[..n], key);
      assert list == list[..n] + [list[n]];
    }
  }

  /** A table without repeated keys has one row for each element. */
  lemma {:induction false} ByKeySize<T, K>(list: seq<T>, key: T -> K)
    requires DistinctBy(list, key)
    ensures |ByKey(list, key)| == |list|
  {
    if list != [] {
      var n := |list| - 1;
      var front := ByKey(list[..n], key);
      ByKeySize(list[..n], key);
      ByKeyLists(list[..n], key);
      forall x | x in list[..n]
        ensures key(x) != key(list[n])
      {
        var i :| 0 <= i < n && list[i] == x;
      }
      assert key(list[n]) !in front;
      assert front[key(list[n]) := list[n]].Keys == front.Keys + {key(list[n])};
    }
  }

  /** A list without repeated keys fills the same table in any order. */
  lemma ByKeyIsOrderFree<T, K>(s: seq<T>, t: seq<T>, key: T -> K)
    requires multiset(s) == multiset(t) && DistinctBy(s, key)
    ensures DistinctBy(t, key) && ByKey(s, key) == ByKey(t, key)
  {
    PermutedDistinctBy(s, t, key);
    PermutedElements(s, t);
    ByKeyLists(s, key);
    ByKeyLists(t, key);
    assert forall x :: x in s <==> x in Elements(s);
    assert forall x :: x in t <==> x in Elements(t);
    assert ByKey(s, key).Keys == ByKey(t, key).Keys;
  }

  /** A list stays free of repeated keys exactly as long as each new key is not in the table. */
  lemma DistinctByOneMore<T, K>(list: seq<T>, x: T, key: T -> K)
    requires DistinctBy(list, key)
    ensures DistinctBy(list + [x], key) <==> key(x) !in ByKey(list, key)
  {
    ByKeyLists(list, key);
    var more := list + [x];
    if key(x) in ByKey(list, key) {
      var i :| 0 <= i < |list| && list[i] == ByKey(list, key)[key(x)];
      assert key(more[i]) == key(more[|list|]);
    } else {
      forall i | 0 <= i < |list|
        ensures key(list[i]) != key(x)
      {
        assert list[i] in list;
      }
    }
  }
}
