/** Stable sorting by an integer key, characterised independently of any algorithm: the result is
    ordered, keeps the elements of every key in their original order, and is the only such sequence. */
module StableSort {

  /** Places `x` before the first element whose key is not smaller. */
  function Insert<T>(x: T, s: seq<T>, key: T -> int): seq<T> {
    if s == [] || key(x) <= key(s[0]) then [x] + s else [s[0]] + Insert(x, s[1..], key)
  }

  function SortBy<T>(s: seq<T>, key: T -> int): seq<T> {
    if s == [] then [] else Insert(s[0], SortBy(s[1..], key), key)
  }

  ghost predicate Ordered<T>(s: seq<T>, key: T -> int) {
    forall i, j :: 0 <= i < j < |s| ==> key(s[i]) <= key(s[j])
  }

  /** The elements of one key, in order. */
  function WithKey<T>(s: seq<T>, key: T -> int, k: int): seq<T> {
    if s == [] then []
    else (if key(s[0]) == k then [s[0]] else []) + WithKey(s[1..], key, k)
  }

  lemma {:induction false} InsertMembers<T>(x: T, s: seq<T>, key: T -> int)
    ensures multiset(Insert(x, s, key)) == multiset{x} + multiset(s)
  {
    if s == [] || key(x) <= key(s[0]) {
    } else {
      InsertMembers(x, s[1..], key);
      assert s == [s[0]] + s[1..];
    }
  }

  lemma MembersOf<T>(s: seq<T>, t: seq<T>, x: T)
    requires multiset(s) == multiset{x} + multiset(t)
    ensures |s| == |t| + 1
    ensures forall y :: y in s <==> y == x || y in t
  {
    assert |multiset(s)| == |multiset(t)| + 1;
    assert forall y :: y in s <==> y in multiset(s);
    assert forall y :: y in t <==> y in multiset(t);
  }

  lemma {:induction false} InsertOrdered<T>(x: T, s: seq<T>, key: T -> int)
    requires Ordered(s, key)
    ensures Ordered(Insert(x, s, key), key)
  {
    if s == [] || key(x) <= key(s[0]) {
    } else {
      InsertOrdered(x, s[1..], key);
      InsertMembers(x, s[1..], key);
      var t := Insert(x, s[1..], key);
      forall j | 0 <= j < |t|
        ensures key(s[0]) <= key(t[j])
      {
        if t[j] != x {
          assert t[j] in multiset(t);
          assert t[j] in multiset(s[1..]);
          var m :| 0 <= m < |s[1..]| && s[1..][m] == t[j];
          assert s[m + 1] == t[j];
        }
      }
    }
  }

  lemma {:induction false} InsertStable<T>(x: T, s: seq<T>, key: T -> int, k: int)
    ensures WithKey(Insert(x, s, key), key, k) == WithKey([x] + s, key, k)
  {
    assert ([x] + s)[1..] == s;
    if s == [] || key(x) <= key(s[0]) {
    } else {
      InsertStable(x, s[1..], key, k);
      assert ([x] + s[1..])[1..] == s[1..];
      assert Insert(x, s, key)[1..] == Insert(x, s[1..], key);
    }
  }

  /** The sort is ordered, is a permutation, and is stable. */
  lemma {:induction false} SortByProps<T>(s: seq<T>, key: T -> int)
    ensures Ordered(SortBy(s, key), key)
    ensures multiset(SortBy(s, key)) == multiset(s)
    ensures forall y :: y in SortBy(s, key) <==> y in s
    ensures |SortBy(s, key)| == |s|
    ensures forall k :: WithKey(SortBy(s, key), key, k) == WithKey(s, key, k)
  {
    if s != [] {
      SortByProps(s[1..], key);
      InsertOrdered(s[0], SortBy(s[1..], key), key);
      InsertMembers(s[0], SortBy(s[1..], key), key);
      MembersOf(SortBy(s, key), SortBy(s[1..], key), s[0]);
      assert s == [s[0]] + s[1..];
      forall k
        ensures WithKey(SortBy(s, key), key, k) == WithKey(s, key, k)
      {
        var t := SortBy(s[1..], key);
        InsertStable(s[0], t, key, k);
        assert ([s[0]] + t)[1..] == t;
      }
    }
  }

  lemma {:induction false} WithKeyMember<T>(s: seq<T>, key: T -> int, k: int)
    ensures forall y :: y in WithKey(s, key, k) <==> y in s && key(y) == k
  {
    if s != [] {
      WithKeyMember(s[1..], key, k);
      assert s == [s[0]] + s[1..];
    }
  }

  lemma KeyPresent<T>(s: seq<T>, key: T -> int)
    requires s != []
    ensures WithKey(s, key, key(s[0])) != [] && WithKey([], key, key(s[0])) == []
  {
  }

  lemma FirstKeyAtMost<T>(a: seq<T>, b: seq<T>, key: T -> int)
    requires Ordered(a, key) && a != [] && b != []
    requires forall k :: WithKey(a, key, k) == WithKey(b, key, k)
    ensures key(a[0]) <= key(b[0])
  {
    var k := key(b[0]);
    WithKeyMember(a, key, k);
    WithKeyMember(b, key, k);
    assert b[0] in WithKey(b, key, k);
    var i :| 0 <= i < |a| && a[i] == b[0];
  }

  lemma TailsAgree<T>(a: seq<T>, b: seq<T>, key: T -> int, j: int)
    requires a != [] && b != [] && a[0] == b[0] && WithKey(a, key, j) == WithKey(b, key, j)
    ensures WithKey(a[1..], key, j) == WithKey(b[1..], key, j)
  {
    var first := if key(a[0]) == j then [a[0]] else [];
    assert WithKey(a, key, j) == first + WithKey(a[1..], key, j);
    assert WithKey(b, key, j) == first + WithKey(b[1..], key, j);
    assert WithKey(a, key, j)[|first|..] == WithKey(a[1..], key, j);
    assert WithKey(b, key, j)[|first|..] == WithKey(b[1..], key, j);
  }

  lemma HeadsAgree<T>(a: seq<T>, b: seq<T>, key: T -> int)
    requires Ordered(a, key) && Ordered(b, key) && a != [] && b != []
    requires forall k :: WithKey(a, key, k) == WithKey(b, key, k)
    ensures a[0] == b[0]
  {
    FirstKeyAtMost(a, b, key);
    FirstKeyAtMost(b, a, key);
    var k := key(a[0]);
    assert WithKey(a, key, k)[0] == a[0] && WithKey(b, key, k)[0] == b[0];
  }

  /** Ordered and stable determine the sequence. */
  lemma {:induction false} StableSortUnique<T>(a: seq<T>, b: seq<T>, key: T -> int)
    requires Ordered(a, key) && Ordered(b, key)
    requires forall k :: WithKey(a, key, k) == WithKey(b, key, k)
    ensures a == b
  {
    if a == [] || b == [] {
      if a != [] { KeyPresent(a, key); }
      if b != [] { KeyPresent(b, key); }
    } else {
      HeadsAgree(a, b, key);
      forall j ensures WithKey(a[1..], key, j) == WithKey(b[1..], key, j) {
        TailsAgree(a, b, key, j);
      }
      StableSortUnique(a[1..], b[1..], key);
      assert a == [a[0]] + a[1..] && b == [b[0]] + b[1..];
    }
  }
}
