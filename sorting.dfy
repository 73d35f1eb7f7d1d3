/**
 * `Array.prototype.sort` with a comparator that orders by a key: a stable sort,
 * modelled as an insertion sort that places each element before the first
 * element whose key is not smaller. Keys are pairs ordered lexicographically,
 * which covers both comparators of the route finder (labels with infinities,
 * and "fountain first, then shorter path").
 */
module Sorting {
  datatype Key = Key(major: int, minor: int)

  predicate KeyLe(a: Key, b: Key) {
    a.major < b.major || (a.major == b.major && a.minor <= b.minor)
  }

  predicate KeyLt(a: Key, b: Key) {
    !KeyLe(b, a)
  }

  function Insert<T>(x: T, t: seq<T>, key: T -> Key): (r: seq<T>)
    ensures |r| == |t| + 1
    ensures multiset(r) == multiset(t) + multiset{x}
  {
    if t == [] then [x]
    else if KeyLe(key(x), key(t[0])) then [x] + t
    else
      assert t == [t[0]] + t[1..];
      [t[0]] + Insert(x, t[1..], key)
  }

  /** The stable sort of `s` by `key`. */
  function SortBy<T>(s: seq<T>, key: T -> Key): (r: seq<T>)
    ensures |r| == |s|
    ensures multiset(r) == multiset(s)
  {
    if s == [] then []
    else
      assert s == [s[0]] + s[1..];
      Insert(s[0], SortBy(s[1..], key), key)
  }

  predicate SortedBy<T>(s: seq<T>, key: T -> Key) {
    forall i, j :: 0 <= i < j < |s| ==> KeyLe(key(s[i]), key(s[j]))
  }

  /** Index of the first element whose key is minimal. */
  function FirstMinIndex<T>(s: seq<T>, key: T -> Key): (i: nat)
    requires |s| > 0
    ensures i < |s|
    ensures forall j :: 0 <= j < |s| ==> KeyLe(key(s[i]), key(s[j]))
    ensures forall j :: 0 <= j < i ==> KeyLt(key(s[i]), key(s[j]))
  {
    if |s| == 1 then 0
    else
      var j := FirstMinIndex(s[1..], key);
      if KeyLe(key(s[0]), key(s[1..][j])) then 0 else j + 1
  }

  /** Index of the last element whose key is maximal. */
  function LastMaxIndex<T>(s: seq<T>, key: T -> Key): (i: nat)
    requires |s| > 0
    ensures i < |s|
    ensures forall j :: 0 <= j < |s| ==> KeyLe(key(s[j]), key(s[i]))
    ensures forall j :: i < j < |s| ==> KeyLt(key(s[j]), key(s[i]))
  {
    if |s| == 1 then 0
    else
      var j := LastMaxIndex(s[1..], key);
      if KeyLt(key(s[1..][j]), key(s[0])) then 0 else j + 1
  }

  lemma {:induction false} InsertSorted<T>(x: T, t: seq<T>, key: T -> Key)
    requires SortedBy(t, key)
    ensures SortedBy(Insert(x, t, key), key)
  {
    if t == [] {
    } else if KeyLe(key(x), key(t[0])) {
      ConsSorted(x, t, key);
    } else {
      assert SortedBy(t[1..], key);
      InsertSorted(x, t[1..], key);
      InsertLowerBound(x, t[1..], key, key(t[0]));
      ConsSorted(t[0], Insert(x, t[1..], key), key);
    }
  }

  /** An element no larger than every element of a sorted list can go in front of it. */
  lemma ConsSorted<T>(a: T, s: seq<T>, key: T -> Key)
    requires SortedBy(s, key)
    requires s != [] ==> KeyLe(key(a), key(s[0]))
    ensures SortedBy([a] + s, key)
  {
    var r := [a] + s;
    forall i, j | 0 <= i < j < |r| ensures KeyLe(key(r[i]), key(r[j])) {
      if i == 0 {
        assert r[j] == s[j - 1];
        if j > 1 {
          assert KeyLe(key(s[0]), key(s[j - 1]));
        }
      } else {
        assert r[i] == s[i - 1] && r[j] == s[j - 1];
      }
    }
  }

  /** Inserting an element no smaller than a bound into a list no smaller than it keeps the bound. */
  lemma {:induction false} InsertLowerBound<T>(x: T, t: seq<T>, key: T -> Key, b: Key)
    requires KeyLe(b, key(x)) && forall k :: 0 <= k < |t| ==> KeyLe(b, key(t[k]))
    ensures forall k :: 0 <= k < |Insert(x, t, key)| ==> KeyLe(b, key(Insert(x, t, key)[k]))
  {
    if t != [] && !KeyLe(key(x), key(t[0])) {
      InsertLowerBound(x, t[1..], key, b);
      var rest := Insert(x, t[1..], key);
      assert Insert(x, t, key) == [t[0]] + rest;
    }
  }

  lemma {:induction false} InsertEnds<T>(x: T, t: seq<T>, key: T -> Key)
    requires SortedBy(t, key)
    ensures |t| > 0 ==> Insert(x, t, key)[0] == (if KeyLe(key(x), key(t[0])) then x else t[0])
    ensures Insert(x, t, key)[|t|] == (if |t| > 0 && !KeyLt(key(t[|t| - 1]), key(x)) then t[|t| - 1] else x)
  {
    if t != [] && !KeyLe(key(x), key(t[0])) {
      assert SortedBy(t[1..], key);
      InsertEnds(x, t[1..], key);
      if |t| > 1 {
        assert t[1..][|t[1..]| - 1] == t[|t| - 1];
      }
    }
  }

  lemma {:induction false} SortSorted<T>(s: seq<T>, key: T -> Key)
    ensures SortedBy(SortBy(s, key), key)
  {
    if s != [] {
      SortSorted(s[1..], key);
      InsertSorted(s[0], SortBy(s[1..], key), key);
    }
  }

  /** The sort puts the first minimal element in front: `shift()` after the sort takes it. */
  lemma {:induction false} SortHead<T>(s: seq<T>, key: T -> Key)
    requires |s| > 0
    ensures SortBy(s, key)[0] == s[FirstMinIndex(s, key)]
  {
    if |s| > 1 {
      SortHead(s[1..], key);
      SortSorted(s[1..], key);
      InsertEnds(s[0], SortBy(s[1..], key), key);
    }
  }

  /** The sort puts the last maximal element at the end: `pop()` after the sort takes it. */
  lemma {:induction false} SortLast<T>(s: seq<T>, key: T -> Key)
    requires |s| > 0
    ensures SortBy(s, key)[|s| - 1] == s[LastMaxIndex(s, key)]
  {
    if |s| > 1 {
      SortLast(s[1..], key);
      SortSorted(s[1..], key);
      InsertEnds(s[0], SortBy(s[1..], key), key);
    }
  }
}
