/**
 * `Array.prototype.sort` with the comparators the application passes it:
 * each comparator compares one key of the two elements, ascending or
 * descending. The sort is stable, as the language requires since ES2019:
 * elements with equal keys keep their input order (SortByStable).
 */
module Sorting {
  import opened Text

  /** The key a comparator reads: a number (rank, timestamp) or a string (title). */
  datatype SortKey = IntKey(n: int) | StrKey(s: string)

  /** A sort direction chosen on the page: `'asc' | 'desc'`. */
  datatype SortOrder = Asc | Desc

  predicate KeyLe(a: SortKey, b: SortKey)
  {
    match (a, b)
    case (IntKey(x), IntKey(y)) => x <= y
    case (StrKey(x), StrKey(y)) => LexLe(x, y)
    case (IntKey(_), StrKey(_)) => true
    case (StrKey(_), IntKey(_)) => false
  }

  lemma KeyLeTotal(a: SortKey, b: SortKey)
    ensures KeyLe(a, b) || KeyLe(b, a)
  {
    if a.StrKey? && b.StrKey? { LexLeTotal(a.s, b.s); }
  }

  lemma KeyLeTransitive(a: SortKey, b: SortKey, c: SortKey)
    requires KeyLe(a, b) && KeyLe(b, c)
    ensures KeyLe(a, c)
  {
    if a.StrKey? && b.StrKey? && c.StrKey? { LexLeTransitive(a.s, b.s, c.s); }
  }

  /** The comparator returns a value <= 0 for `a` before `b` in the chosen direction. */
  predicate InOrder(a: SortKey, b: SortKey, descending: bool)
  {
    if descending then KeyLe(b, a) else KeyLe(a, b)
  }

  lemma InOrderTotal(a: SortKey, b: SortKey, descending: bool)
    ensures InOrder(a, b, descending) || InOrder(b, a, descending)
  {
    KeyLeTotal(a, b);
  }

  lemma InOrderTransitive(a: SortKey, b: SortKey, c: SortKey, descending: bool)
    requires InOrder(a, b, descending) && InOrder(b, c, descending)
    ensures InOrder(a, c, descending)
  {
    if descending { KeyLeTransitive(c, b, a); } else { KeyLeTransitive(a, b, c); }
  }

  ghost predicate SortedBy<T>(s: seq<T>, key: T -> SortKey, descending: bool)
  {
    forall i, j :: 0 <= i < j < |s| ==> InOrder(key(s[i]), key(s[j]), descending)
  }

  /** Inserts `x` in front of the first element it may precede. */
  function Insert<T>(x: T, s: seq<T>, key: T -> SortKey, descending: bool): (r: seq<T>)
    requires SortedBy(s, key, descending)
    ensures SortedBy(r, key, descending)
    ensures multiset(r) == multiset(s) + multiset{x}
  {
    if s == [] then [x]
    else if InOrder(key(x), key(s[0]), descending) then
      InsertFront(x, s, key, descending);
      [x] + s
    else
      InOrderTotal(key(x), key(s[0]), descending);
      var rest := Insert(x, s[1..], key, descending);
      InsertBehind(x, s, rest, key, descending);
      [s[0]] + rest
  }

  /** An element that may precede the first of a sorted list may precede all of it. */
  lemma InsertFront<T>(x: T, s: seq<T>, key: T -> SortKey, descending: bool)
    requires s != [] && SortedBy(s, key, descending) && InOrder(key(x), key(s[0]), descending)
    ensures SortedBy([x] + s, key, descending)
  {
    var r := [x] + s;
    forall i, j | 0 <= i < j < |r|
      ensures InOrder(key(r[i]), key(r[j]), descending)
    {
      if i == 0 && j > 1 {
        InOrderTransitive(key(x), key(s[0]), key(s[j - 1]), descending);
      }
    }
  }

  /** The first of a sorted list stays in front of the insertion into its tail. */
  lemma InsertBehind<T>(x: T, s: seq<T>, rest: seq<T>, key: T -> SortKey, descending: bool)
    requires s != [] && SortedBy(s, key, descending) && InOrder(key(s[0]), key(x), descending)
    requires SortedBy(rest, key, descending) && multiset(rest) == multiset(s[1..]) + multiset{x}
    ensures SortedBy([s[0]] + rest, key, descending)
    ensures multiset([s[0]] + rest) == multiset(s) + multiset{x}
  {
    assert s == [s[0]] + s[1..];
    var r := [s[0]] + rest;
    forall i, j | 0 <= i < j < |r|
      ensures InOrder(key(r[i]), key(r[j]), descending)
    {
      if i == 0 {
        var z := rest[j - 1];
        assert z in multiset(rest);
        if z != x {
          assert z in multiset(s[1..]);
          var k :| 0 <= k < |s[1..]| && s[1..][k] == z;
          assert s[k + 1] == z;
        }
      }
    }
  }

  /** The stable sort of `s` by `key` in the chosen direction. */
  function SortBy<T>(s: seq<T>, key: T -> SortKey, descending: bool): (r: seq<T>)
    ensures SortedBy(r, key, descending)
    ensures multiset(r) == multiset(s)
  {
    if s == [] then []
    else
      assert s == [s[0]] + s[1..];
      Insert(s[0], SortBy(s[1..], key, descending), key, descending)
  }

  /** The elements of `s` whose key is `k`, in their order in `s`. */
  function WithKey<T>(s: seq<T>, key: T -> SortKey, k: SortKey): (r: seq<T>)
    ensures |r| <= |s|
  {
    if s == [] then []
    else (if key(s[0]) == k then [s[0]] else []) + WithKey(s[1..], key, k)
  }

  lemma SwapAroundEmpty<T>(a: seq<T>, b: seq<T>, c: seq<T>)
    requires a == [] || b == []
    ensures b + (a + c) == a + (b + c)
  {
    if a == [] {
      assert a + c == c && a + (b + c) == b + c;
    } else {
      assert b + (a + c) == a + c && b + c == c;
    }
  }

  /**
   * Inserting `x` puts it in front of every element with its own key, and
   * leaves the order among the others as it was.
   */
  lemma {:induction false} InsertKeepsKeyOrder<T>(x: T, s: seq<T>, key: T -> SortKey, descending: bool, k: SortKey)
    requires SortedBy(s, key, descending)
    ensures WithKey(Insert(x, s, key, descending), key, k) == (if key(x) == k then [x] else []) + WithKey(s, key, k)
  {
    if s == [] {
      assert [x][1..] == [];
    } else if InOrder(key(x), key(s[0]), descending) {
      assert Insert(x, s, key, descending) == [x] + s;
      assert ([x] + s)[1..] == s;
    } else {
      // x goes behind s[0], so their keys differ and at most one of them has key k.
      KeyLeTotal(key(x), key(x));
      var rest := Insert(x, s[1..], key, descending);
      assert Insert(x, s, key, descending) == [s[0]] + rest;
      assert ([s[0]] + rest)[1..] == rest;
      InsertKeepsKeyOrder(x, s[1..], key, descending, k);
      SwapAroundEmpty(if key(x) == k then [x] else [], if key(s[0]) == k then [s[0]] else [], WithKey(s[1..], key, k));
    }
  }

  /** The sort is stable: the elements with any one key appear in their input order. */
  lemma {:induction false} SortByStable<T>(s: seq<T>, key: T -> SortKey, descending: bool, k: SortKey)
    ensures WithKey(SortBy(s, key, descending), key, k) == WithKey(s, key, k)
  {
    if s != [] {
      var sorted := SortBy(s[1..], key, descending);
      SortByStable(s[1..], key, descending, k);
      assert SortBy(s, key, descending) == Insert(s[0], sorted, key, descending);
      InsertKeepsKeyOrder(s[0], sorted, key, descending, k);
    }
  }

  /** Elements with equal keys keep their input order: all keys equal, nothing moves. */
  lemma {:induction false} SortByEqualKeys<T>(s: seq<T>, key: T -> SortKey, descending: bool)
    requires forall i, j :: 0 <= i < j < |s| ==> key(s[i]) == key(s[j])
    ensures SortBy(s, key, descending) == s
  {
    if s != [] {
      var rest := s[1..];
      SortByEqualKeys(rest, key, descending);
      assert SortBy(rest, key, descending) == rest;
      KeyLeTotal(key(s[0]), key(s[0]));
      if rest != [] {
        assert key(s[0]) == key(rest[0]);
        assert InOrder(key(s[0]), key(rest[0]), descending);
      }
      assert s == [s[0]] + rest;
    }
  }
}
