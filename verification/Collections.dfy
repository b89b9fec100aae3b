/** Finite-collection facts shared by the models: lists without repetition,
    sums over maps, and the insertion-ordered map that the contract stores. */
module Collections {

  datatype Option<+T> = None | Some(value: T)

  ghost predicate NoDup<T>(s: seq<T>) {
    forall i, j :: 0 <= i < j < |s| ==> s[i] != s[j]
  }

  function Elems<T>(s: seq<T>): set<T> {
    set x | x in s
  }

  /** A list without repetition has as many elements as positions. */
  lemma {:induction false} NoDupCardinality<T>(s: seq<T>)
    requires NoDup(s)
    ensures |Elems(s)| == |s|
  {
    if s == [] {
    } else {
      var t, x := s[..|s| - 1], s[|s| - 1];
      NoDupCardinality(t);
      assert s == t + [x];
      assert Elems(t + [x]) == Elems(t) + {x};
      assert x !in t;
    }
  }

  lemma SubsetOfSameSize<T>(a: set<T>, b: set<T>)
    requires a <= b && |b| <= |a|
    ensures a == b
  {
    SubsetCardinality(a, b);
    if a != b {
      SubsetCardinality(a, b - {PickOutside(a, b)});
    }
  }

  ghost function PickOutside<T>(a: set<T>, b: set<T>): (x: T)
    requires a <= b && a != b
    ensures x in b && x !in a
  {
    var x :| x in b && x !in a;
    x
  }

  lemma {:induction false} SubsetCardinality<T>(a: set<T>, b: set<T>)
    requires a <= b
    ensures |a| <= |b|
    decreases b
  {
    if a != {} {
      var x :| x in a;
      SubsetCardinality(a - {x}, b - {x});
    }
  }

  ghost function Below(n: nat): (r: set<nat>)
    ensures |r| == n
    ensures forall i: nat :: i in r <==> i < n
  {
    if n == 0 then {} else Below(n - 1) + {n - 1}
  }

  /** Distinct positions below `n` number at most `n`. */
  lemma DistinctIndicesBounded(s: seq<nat>, n: nat)
    requires NoDup(s)
    requires forall i :: 0 <= i < |s| ==> s[i] < n
    ensures |s| <= n
  {
    NoDupCardinality(s);
    SubsetCardinality(Elems(s), Below(n));
  }

  // ----- multisets of sequences

  lemma MultisetHead<T>(s: seq<T>)
    requires s != []
    ensures multiset(s) == multiset{s[0]} + multiset(s[1..])
    ensures multiset(s[1..]) == multiset(s) - multiset{s[0]}
  {
    assert s == [s[0]] + s[1..];
  }

  lemma MultisetWithout<T>(s: seq<T>, j: nat)
    requires j < |s|
    ensures multiset(s) == multiset{s[j]} + multiset(s[..j] + s[j + 1..])
    ensures multiset(s[..j] + s[j + 1..]) == multiset(s) - multiset{s[j]}
  {
    assert s == s[..j] + ([s[j]] + s[j + 1..]);
  }

  function Map<T, U>(f: T -> U, s: seq<T>): (r: seq<U>)
    ensures |r| == |s| && forall i :: 0 <= i < |s| ==> r[i] == f(s[i])
  {
    seq(|s|, i requires 0 <= i < |s| => f(s[i]))
  }

  /** Two permutations of each other: the head of one occurs in the other, and what
      remains of both are again permutations of each other. */
  lemma MatchHead<T>(a: seq<T>, b: seq<T>) returns (j: nat)
    requires multiset(a) == multiset(b) && a != []
    ensures j < |b| && b[j] == a[0]
    ensures multiset(a[1..]) == multiset(b[..j] + b[j + 1..])
  {
    assert a[0] in multiset(b);
    j :| 0 <= j < |b| && b[j] == a[0];
    MultisetHead(a);
    MultisetWithout(b, j);
  }

  lemma MapHead<T, U>(f: T -> U, s: seq<T>)
    requires s != []
    ensures Map(f, s)[1..] == Map(f, s[1..])
    ensures multiset(Map(f, s)) == multiset{f(s[0])} + multiset(Map(f, s[1..]))
  {
    MultisetHead(Map(f, s));
    assert Map(f, s)[1..] == Map(f, s[1..]);
  }

  lemma MapWithout<T, U>(f: T -> U, s: seq<T>, j: nat)
    requires j < |s|
    ensures Map(f, s)[..j] + Map(f, s)[j + 1..] == Map(f, s[..j] + s[j + 1..])
    ensures multiset(Map(f, s)) == multiset{f(s[j])} + multiset(Map(f, s[..j] + s[j + 1..]))
  {
    MultisetWithout(Map(f, s), j);
    assert Map(f, s)[..j] + Map(f, s)[j + 1..] == Map(f, s[..j] + s[j + 1..]);
  }

  /** Mapping respects permutations. */
  lemma {:induction false} MapMultiset<T, U>(f: T -> U, a: seq<T>, b: seq<T>)
    requires multiset(a) == multiset(b)
    ensures multiset(Map(f, a)) == multiset(Map(f, b))
  {
    if a == [] {
      assert |multiset(b)| == 0;
    } else {
      var j := MatchHead(a, b);
      MapMultiset(f, a[1..], b[..j] + b[j + 1..]);
      MapHead(f, a);
      MapWithout(f, b, j);
    }
  }

  /** Mapping by a function that is injective on the elements loses no element. */
  lemma {:induction false} MapInjective<T, U>(f: T -> U, a: seq<T>, b: seq<T>)
    requires forall x, y :: x in a && y in b && f(x) == f(y) ==> x == y
    requires multiset(Map(f, a)) == multiset(Map(f, b))
    ensures multiset(a) == multiset(b)
  {
    if a == [] {
      assert |multiset(Map(f, b))| == 0;
    } else {
      var j := MatchHead(Map(f, a), Map(f, b));
      MapHead(f, a);
      MapWithout(f, b, j);
      MapInjective(f, a[1..], b[..j] + b[j + 1..]);
      MultisetHead(a);
      MultisetWithout(b, j);
    }
  }

  ghost predicate SortedBy<T>(leq: (T, T) -> bool, s: seq<T>) {
    forall i, j :: 0 <= i < j < |s| ==> leq(s[i], s[j])
  }

  ghost predicate AntisymmetricOn<T>(leq: (T, T) -> bool, s: seq<T>) {
    forall x, y :: x in s && y in s && leq(x, y) && leq(y, x) ==> x == y
  }

  lemma SortedHeads<T>(leq: (T, T) -> bool, a: seq<T>, b: seq<T>)
    requires AntisymmetricOn(leq, a) && a != [] && b != []
    requires SortedBy(leq, a) && SortedBy(leq, b) && multiset(a) == multiset(b)
    ensures a[0] == b[0]
  {
    assert a[0] in multiset(b) && b[0] in multiset(a);
    var j :| 0 <= j < |b| && b[j] == a[0];
    var i :| 0 <= i < |a| && a[i] == b[0];
  }

  lemma SameLength<T>(a: seq<T>, b: seq<T>)
    requires multiset(a) == multiset(b)
    ensures |a| == |b|
  {
    assert |multiset(a)| == |a| && |multiset(b)| == |b|;
  }

  lemma FromTail<T>(a: seq<T>, b: seq<T>)
    requires a != [] && b != [] && a[0] == b[0] && a[1..] == b[1..]
    ensures a == b
  {
    assert a == [a[0]] + a[1..] && b == [b[0]] + b[1..];
  }

  lemma TailOf<T>(leq: (T, T) -> bool, s: seq<T>)
    requires s != [] && SortedBy(leq, s)
    ensures SortedBy(leq, s[1..]) && (AntisymmetricOn(leq, s) ==> AntisymmetricOn(leq, s[1..]))
    ensures multiset(s[1..]) == multiset(s) - multiset{s[0]}
  {
    MultisetHead(s);
  }

  /** Sorting has one possible outcome: two sorted permutations coincide. */
  lemma {:induction false} SortedUnique<T>(leq: (T, T) -> bool, a: seq<T>, b: seq<T>)
    requires AntisymmetricOn(leq, a)
    requires SortedBy(leq, a) && SortedBy(leq, b) && multiset(a) == multiset(b)
    ensures a == b
  {
    SameLength(a, b);
    if a != [] {
      SortedHeads(leq, a, b);
      TailOf(leq, a);
      TailOf(leq, b);
      SortedUnique(leq, a[1..], b[1..]);
      FromTail(a, b);
    }
  }

  // ----- sums over the values of a map

  ghost function MapSum<K(!new)>(m: map<K, nat>): nat {
    if m == map[] then 0
    else
      var k :| k in m;
      m[k] + MapSum(m - {k})
  }

  lemma {:induction false} MapSumRemove<K(!new)>(m: map<K, nat>, k: K)
    requires k in m
    ensures MapSum(m) == m[k] + MapSum(m - {k})
    decreases m
  {
    var j :| j in m && MapSum(m) == m[j] + MapSum(m - {j});
    if j != k {
      MapSumRemove(m - {j}, k);
      MapSumRemove(m - {k}, j);
      assert m - {j} - {k} == m - {k} - {j};
    }
  }

  /** Writing one entry changes the sum by the difference of that entry. */
  lemma MapSumUpdate<K(!new)>(m: map<K, nat>, k: K, v: nat)
    ensures MapSum(m[k := v]) + (if k in m then m[k] else 0) == MapSum(m) + v
  {
    MapSumRemove(m[k := v], k);
    if k in m {
      MapSumRemove(m, k);
      assert m[k := v] - {k} == m - {k};
    } else {
      assert m[k := v] - {k} == m;
    }
  }

  lemma MapSumEntry<K(!new)>(m: map<K, nat>, k: K)
    requires k in m
    ensures m[k] <= MapSum(m)
  {
    MapSumRemove(m, k);
  }

  // ----- the insertion-ordered map of the contract's storage

  lemma Associative<T>(a: seq<T>, b: seq<T>, c: seq<T>)
    ensures a + (b + c) == (a + b) + c
  {
  }

  /** A vector of keys beside the entries.  A new key is appended; removal moves
      the last key into the vacated position. */
  datatype UnorderedMap<K(==), V> = UnorderedMap(keys: seq<K>, vals: map<K, V>) {
    /** The keys list every entry once. */
    ghost predicate Ok() {
      && NoDup(keys)
      && (forall i :: 0 <= i < |keys| ==> keys[i] in vals)
      && (forall k :: k in vals ==> k in keys)
    }
  }

  function Insert<K(==), V>(m: UnorderedMap<K, V>, k: K, v: V): (r: UnorderedMap<K, V>)
    ensures r.vals == m.vals[k := v]
  {
    UnorderedMap(if k in m.vals then m.keys else m.keys + [k], m.vals[k := v])
  }

  function IndexOf<K(==)>(s: seq<K>, k: K): (i: nat)
    requires k in s
    ensures i < |s| && s[i] == k
  {
    if s[0] == k then 0 else 1 + IndexOf(s[1..], k)
  }

  function SwapRemove<K>(s: seq<K>, i: nat): (r: seq<K>)
    requires i < |s|
    ensures |r| == |s| - 1
    ensures forall j :: 0 <= j < |r| ==> r[j] == if j == i then s[|s| - 1] else s[j]
  {
    s[i := s[|s| - 1]][..|s| - 1]
  }

  function Remove<K(==), V>(m: UnorderedMap<K, V>, k: K): (r: UnorderedMap<K, V>)
    ensures r.vals == m.vals - {k}
  {
    UnorderedMap(if k in m.keys then SwapRemove(m.keys, IndexOf(m.keys, k)) else m.keys, m.vals - {k})
  }

  /** A new key goes to the end of the vector; a known one keeps its place. */
  lemma InsertPlaces<K, V>(m: UnorderedMap<K, V>, k: K, v: V)
    ensures Insert(m, k, v).keys == if k in m.vals then m.keys else m.keys + [k]
  {
  }

  /** The last key takes the place of the one removed. */
  lemma RemovePlaces<K, V>(m: UnorderedMap<K, V>, i: nat)
    requires NoDup(m.keys) && i < |m.keys|
    ensures var keys := Remove(m, m.keys[i]).keys;
            && |keys| == |m.keys| - 1
            && forall j :: 0 <= j < |keys| ==> keys[j] == if j == i then m.keys[|m.keys| - 1] else m.keys[j]
  {
    assert IndexOf(m.keys, m.keys[i]) == i;
  }

  lemma InsertOk<K, V>(m: UnorderedMap<K, V>, k: K, v: V)
    requires m.Ok()
    ensures Insert(m, k, v).Ok()
  {
    var r := Insert(m, k, v);
    assert k !in m.vals ==> r.keys[|m.keys|] == k;
    forall x | x in r.vals ensures x in r.keys {
      if x != k {
        var i :| 0 <= i < |m.keys| && m.keys[i] == x;
        assert r.keys[i] == x;
      }
    }
  }

  lemma RemoveOk<K, V>(m: UnorderedMap<K, V>, k: K)
    requires m.Ok()
    ensures Remove(m, k).Ok()
  {
    if k in m.keys {
      var i, last := IndexOf(m.keys, k), |m.keys| - 1;
      var keys := SwapRemove(m.keys, i);
      forall x | x in m.vals - {k} ensures x in keys {
        var j :| 0 <= j < |m.keys| && m.keys[j] == x;
        assert if j == last then keys[i] == x else keys[j] == x;
      }
    } else {
      assert m.vals - {k} == m.vals;
    }
  }

  lemma UnorderedMapSize<K, V>(m: UnorderedMap<K, V>)
    requires m.Ok()
    ensures |m.keys| == |m.vals|
  {
    NoDupCardinality(m.keys);
    assert Elems(m.keys) == m.vals.Keys;
  }
}
