/** Sorting a list by an order, and why the result does not depend on how the list was given. */
module Sorting {

  ghost predicate Total<T(!new)>(le: (T, T) -> bool) {
    && (forall x, y :: le(x, y) || le(y, x))
    && (forall x, y, z :: le(x, y) && le(y, z) ==> le(x, z))
  }

  predicate Sorted<T>(le: (T, T) -> bool, s: seq<T>) {
    forall i, j | 0 <= i < j < |s| :: le(s[i], s[j])
  }

  function Insert<T>(le: (T, T) -> bool, x: T, s: seq<T>): seq<T> {
    if s == [] || le(x, s[0]) then [x] + s else [s[0]] + Insert(le, x, s[1..])
  }

  function Sort<T>(le: (T, T) -> bool, s: seq<T>): seq<T> {
    if s == [] then [] else Insert(le, s[0], Sort(le, s[1..]))
  }

  lemma {:induction false} InsertKeeps<T>(le: (T, T) -> bool, x: T, s: seq<T>)
    ensures multiset(Insert(le, x, s)) == multiset([x]) + multiset(s)
  {
    if s != [] && !le(x, s[0]) {
      InsertKeeps(le, x, s[1..]);
      assert s == [s[0]] + s[1..];
    }
  }

  lemma {:induction false} InsertSorts<T(!new)>(le: (T, T) -> bool, x: T, s: seq<T>)
    requires Total(le) && Sorted(le, s)
    ensures Sorted(le, Insert(le, x, s))
  {
    if s != [] {
      if le(x, s[0]) {
        forall y | y in s ensures le(x, y) {
          var i :| 0 <= i < |s| && s[i] == y;
          assert le(s[0], y) || i == 0;
        }
      } else {
        InsertSorts(le, x, s[1..]);
        InsertKeeps(le, x, s[1..]);
        forall y | y in Insert(le, x, s[1..]) ensures le(s[0], y) {
          assert y in multiset(Insert(le, x, s[1..]));
        }
      }
    }
  }

  /** Sorted, and a permutation. */
  lemma {:induction false} SortSorts<T(!new)>(le: (T, T) -> bool, s: seq<T>)
    requires Total(le)
    ensures Sorted(le, Sort(le, s)) && multiset(Sort(le, s)) == multiset(s)
  {
    if s != [] {
      SortSorts(le, s[1..]);
      InsertSorts(le, s[0], Sort(le, s[1..]));
      InsertKeeps(le, s[0], Sort(le, s[1..]));
      assert s == [s[0]] + s[1..];
    }
  }

  predicate StrictlySorted<T>(lt: (T, T) -> bool, s: seq<T>) {
    forall i, j | 0 <= i < j < |s| :: lt(s[i], s[j])
  }

  /** There is only one strict order of given elements. */
  lemma {:induction false} StrictOrderIsUnique<T>(lt: (T, T) -> bool, a: seq<T>, b: seq<T>)
    requires StrictlySorted(lt, a) && StrictlySorted(lt, b)
    requires forall x, y | x in a && y in a && lt(x, y) :: !lt(y, x)
    requires forall x :: x in a <==> x in b
    ensures a == b
    decreases |a|
  {
    if |b| > 0 {
      assert b[0] in b;
    }
    if a != [] {
      assert a[0] in b && b[0] in a;
      var i :| 0 <= i < |b| && b[i] == a[0];
      var j :| 0 <= j < |a| && a[j] == b[0];
      assert a[0] == b[0];
      assert a == [a[0]] + a[1..] && b == [b[0]] + b[1..];
      assert a[0] !in a[1..] && b[0] !in b[1..] by {
        assert forall k | 0 <= k < |a[1..]| :: lt(a[0], a[1..][k]);
        assert forall k | 0 <= k < |b[1..]| :: lt(b[0], b[1..][k]);
      }
      forall x ensures x in a[1..] <==> x in b[1..] {
        assert x in a <==> x == a[0] || x in a[1..];
        assert x in b <==> x == b[0] || x in b[1..];
      }
      StrictOrderIsUnique(lt, a[1..], b[1..]);
    }
  }
}
