/** A stable insertion sort by a comparator. It stands for Java's `sorted()` on a
    stream of items whose natural order is not part of this model: the comparator
    is a parameter, and the sort is proved to permute its input and, for any total
    preorder, to order it and to keep tied elements in their input order. */
module Sorting {

  /** `le` is total and transitive. */
  ghost predicate TotalPreorder<T(!new)>(le: (T, T) -> bool) {
    (forall a, b :: le(a, b) || le(b, a)) &&
    (forall a, b, c :: le(a, b) && le(b, c) ==> le(a, c))
  }

  ghost predicate SortedBy<T>(s: seq<T>, le: (T, T) -> bool) {
    forall i, j :: 0 <= i < j < |s| ==> le(s[i], s[j])
  }

  /** `x` placed before the first element it is not after. */
  function InsertBy<T>(x: T, s: seq<T>, le: (T, T) -> bool): (r: seq<T>)
    ensures multiset(r) == multiset(s) + multiset{x}
  {
    if s == [] then [x]
    else if le(x, s[0]) then [x] + s
    else
      var rest := InsertBy(x, s[1..], le);
      assert s == [s[0]] + s[1..];
      [s[0]] + rest
  }

  /** The elements of `s`, reordered by `le`. */
  function SortBy<T>(s: seq<T>, le: (T, T) -> bool): (r: seq<T>)
    ensures multiset(r) == multiset(s)
  {
    if s == [] then []
    else
      assert s == [s[0]] + s[1..];
      InsertBy(s[0], SortBy(s[1..], le), le)
  }

  lemma {:induction false} InsertBySorted<T(!new)>(x: T, s: seq<T>, le: (T, T) -> bool)
    requires TotalPreorder(le) && SortedBy(s, le)
    ensures SortedBy(InsertBy(x, s, le), le)
  {
    if s != [] && !le(x, s[0]) {
      var rest := InsertBy(x, s[1..], le);
      InsertBySorted(x, s[1..], le);
      assert le(s[0], x);
      forall j | 0 <= j < |rest| ensures le(s[0], rest[j]) {
        assert rest[j] in multiset(rest);
        assert rest[j] == x || rest[j] in multiset(s[1..]);
        if rest[j] != x {
          assert rest[j] in s[1..];
          var k :| 0 <= k < |s[1..]| && s[1..][k] == rest[j];
          assert s[k + 1] == rest[j];
        }
      }
    }
  }

  /** For a total preorder, the sort orders its input. */
  lemma {:induction false} SortBySorted<T(!new)>(s: seq<T>, le: (T, T) -> bool)
    requires TotalPreorder(le)
    ensures SortedBy(SortBy(s, le), le)
  {
    if s != [] {
      SortBySorted(s[1..], le);
      InsertBySorted(s[0], SortBy(s[1..], le), le);
    }
  }

  /** The elements of `s` that `le` ties with `y`, in the order of `s`. */
  ghost function Ties<T>(s: seq<T>, le: (T, T) -> bool, y: T): seq<T> {
    if s == [] then []
    else (if le(s[0], y) && le(y, s[0]) then [s[0]] else []) + Ties(s[1..], le, y)
  }

  /** Inserting `x` puts it before every element it is tied with. */
  lemma {:induction false} InsertByTies<T(!new)>(x: T, s: seq<T>, le: (T, T) -> bool, y: T)
    requires TotalPreorder(le)
    ensures Ties(InsertBy(x, s, le), le, y) == (if le(x, y) && le(y, x) then [x] else []) + Ties(s, le, y)
  {
    var head := if le(x, y) && le(y, x) then [x] else [];
    if s == [] {
      assert InsertBy(x, s, le) == [x];
      assert Ties([x], le, y) == head + Ties([x][1..], le, y);
    } else if le(x, s[0]) {
      assert InsertBy(x, s, le) == [x] + s;
      assert ([x] + s)[1..] == s;
      assert Ties([x] + s, le, y) == head + Ties(s, le, y);
    } else {
      var rest := InsertBy(x, s[1..], le);
      assert InsertBy(x, s, le) == [s[0]] + rest;
      InsertByTies(x, s[1..], le, y);
      assert ([s[0]] + rest)[1..] == rest;
      var tied0 := if le(s[0], y) && le(y, s[0]) then [s[0]] else [];
      assert Ties([s[0]] + rest, le, y) == tied0 + Ties(rest, le, y);
      assert Ties(s, le, y) == tied0 + Ties(s[1..], le, y);
      NotTiedPast(le, x, y, s[0]);
    }
  }

  /** An element that `x` is not before is tied with nothing `x` is tied with. */
  lemma NotTiedPast<T(!new)>(le: (T, T) -> bool, x: T, y: T, z: T)
    requires TotalPreorder(le) && !le(x, z)
    ensures !(le(x, y) && le(y, x) && le(z, y) && le(y, z))
  {
  }

  /** The sort is stable: for every element `y`, the elements tied with `y` come
      out in the order they went in. */
  lemma {:induction false} SortByStable<T(!new)>(s: seq<T>, le: (T, T) -> bool, y: T)
    requires TotalPreorder(le)
    ensures Ties(SortBy(s, le), le, y) == Ties(s, le, y)
  {
    if s != [] {
      SortByStable(s[1..], le, y);
      InsertByTies(s[0], SortBy(s[1..], le), le, y);
    }
  }
}
