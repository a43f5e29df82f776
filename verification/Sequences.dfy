/** Character order on strings, insertion sort, and what concatenations share. */
module Sequences {

  lemma SameTail<T>(head: seq<T>, left: seq<T>, right: seq<T>)
    ensures head + left == head + right <==> left == right
  {
    assert (head + left)[|head|..] == left && (head + right)[|head|..] == right;
  }

  // ---- Character order ---------------------------------------------------------------------

  predicate Precedes(a: string, b: string) {
    b != [] && (a == [] || a[0] < b[0] || (a[0] == b[0] && Precedes(a[1..], b[1..])))
  }

  lemma {:induction false} PrecedesTotal(a: string, b: string)
    ensures a == b || Precedes(a, b) || Precedes(b, a)
    ensures !(Precedes(a, b) && Precedes(b, a)) && !Precedes(a, a)
  {
    if a != [] && b != [] {
      PrecedesTotal(a[1..], b[1..]);
      PrecedesTotal(a[1..], a[1..]);
      assert a == [a[0]] + a[1..] && b == [b[0]] + b[1..];
    } else if a != [] {
      PrecedesTotal(a[1..], a[1..]);
    }
  }

  lemma {:induction false} PrecedesTransitive(a: string, b: string, c: string)
    requires Precedes(a, b) && Precedes(b, c)
    ensures Precedes(a, c)
  {
    if a != [] && a[0] == b[0] == c[0] {
      PrecedesTransitive(a[1..], b[1..], c[1..]);
    }
  }

  // ---- Insertion sort ----------------------------------------------------------------------

  function Insert<T>(before: (T, T) -> bool, s: seq<T>, x: T): seq<T> {
    if s == [] || before(x, s[0]) then [x] + s else [s[0]] + Insert(before, s[1..], x)
  }

  function Sorted<T>(before: (T, T) -> bool, s: seq<T>): seq<T> {
    if s == [] then [] else Insert(before, Sorted(before, s[..|s| - 1]), s[|s| - 1])
  }

  ghost predicate IsSorted<T>(before: (T, T) -> bool, s: seq<T>) {
    forall i, j | 0 <= i < j < |s| :: before(s[i], s[j])
  }

  ghost predicate IsTransitive<T(!new)>(before: (T, T) -> bool) {
    forall a, b, c :: before(a, b) && before(b, c) ==> before(a, c)
  }

  ghost predicate Compares<T>(before: (T, T) -> bool, a: T, b: T) {
    before(a, b) || before(b, a)
  }

  lemma {:induction false} InsertKeeps<T>(before: (T, T) -> bool, s: seq<T>, x: T)
    ensures multiset(Insert(before, s, x)) == multiset(s) + multiset{x}
  {
    if s != [] && !before(x, s[0]) {
      InsertKeeps(before, s[1..], x);
      assert s == [s[0]] + s[1..];
    }
  }

  lemma {:induction false} InsertOrders<T(!new)>(before: (T, T) -> bool, s: seq<T>, x: T)
    requires IsTransitive(before) && IsSorted(before, s)
    requires forall i | 0 <= i < |s| :: Compares(before, s[i], x)
    ensures IsSorted(before, Insert(before, s, x))
  {
    if s != [] && !before(x, s[0]) {
      var rest := Insert(before, s[1..], x);
      InsertOrders(before, s[1..], x);
      InsertKeeps(before, s[1..], x);
      assert Compares(before, s[0], x);
      forall j | 0 <= j < |rest|
        ensures before(s[0], rest[j])
      {
        assert rest[j] in multiset(rest);
        assert rest[j] == x || rest[j] in s[1..];
      }
    }
  }

  /** Sorting permutes, and orders what can be compared. */
  lemma {:induction false} SortedIsSorted<T(!new)>(before: (T, T) -> bool, s: seq<T>)
    requires IsTransitive(before)
    requires forall i, j | 0 <= i < j < |s| :: Compares(before, s[i], s[j])
    ensures IsSorted(before, Sorted(before, s)) && multiset(Sorted(before, s)) == multiset(s)
  {
    hide Insert;
    if s != [] {
      var n := |s| - 1;
      var sorted := Sorted(before, s[..n]);
      SortedIsSorted(before, s[..n]);
      forall i | 0 <= i < |sorted|
        ensures Compares(before, sorted[i], s[n])
      {
        assert sorted[i] in multiset(s[..n]);
        var j :| 0 <= j < n && s[j] == sorted[i];
        assert Compares(before, s[j], s[n]);
      }
      InsertKeeps(before, sorted, s[n]);
      InsertOrders(before, sorted, s[n]);
      assert s == s[..n] + [s[n]];
    }
  }
}
