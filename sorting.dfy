/**
 * The stable copy-sort that Array.prototype.sort performs, over a "may come before"
 * relation `le`: `le(a, b)` holds exactly when the comparator returns a value <= 0 for (a, b).
 */
module Sorting {

  /** A comparator that is consistent: transitive and total (hence reflexive). */
  ghost predicate TotalPreorder<T(!new)>(le: (T, T) -> bool) {
    && (forall x, y, z :: le(x, y) && le(y, z) ==> le(x, z))
    && (forall x, y :: le(x, y) || le(y, x))
  }

  ghost predicate Sorted<T>(s: seq<T>, le: (T, T) -> bool) {
    forall i, j :: 0 <= i < j < |s| ==> le(s[i], s[j])
  }

  /** The comparator returns 0 both ways: the sort may not reorder `a` and `b`. */
  predicate Equivalent<T>(le: (T, T) -> bool, a: T, b: T) {
    le(a, b) && le(b, a)
  }

  /** The input-order subsequence of the elements of `s` that tie with `e`. */
  function Tied<T>(s: seq<T>, e: T, le: (T, T) -> bool): (r: seq<T>) {
    if s == [] then []
    else (if Equivalent(le, s[0], e) then [s[0]] else []) + Tied(s[1..], e, le)
  }

  /** Puts `x` in front of the first element it may precede. */
  function Insert<T>(x: T, s: seq<T>, le: (T, T) -> bool): (r: seq<T>)
    ensures |r| == |s| + 1
    ensures multiset(r) == multiset(s) + multiset{x}
  {
    if s == [] || le(x, s[0]) then [x] + s
    else
      assert s == [s[0]] + s[1..];
      [s[0]] + Insert(x, s[1..], le)
  }

  /** The sorted copy of `s`; the input is left as it is. */
  function SortBy<T>(s: seq<T>, le: (T, T) -> bool): (r: seq<T>)
    ensures |r| == |s|
    ensures multiset(r) == multiset(s)
  {
    if s == [] then []
    else
      assert s == [s[0]] + s[1..];
      Insert(s[0], SortBy(s[1..], le), le)
  }

  lemma {:induction false} InsertSorted<T(!new)>(x: T, s: seq<T>, le: (T, T) -> bool)
    requires TotalPreorder(le) && Sorted(s, le)
    ensures Sorted(Insert(x, s, le), le)
  {
    if s != [] && !le(x, s[0]) {
      var tail := Insert(x, s[1..], le);
      InsertSorted(x, s[1..], le);
      forall k | 0 <= k < |tail|
        ensures le(s[0], tail[k])
      {
        assert tail[k] in multiset(s[1..]) + multiset{x};
        if tail[k] != x {
          assert tail[k] in s[1..];
        }
      }
    }
  }

  lemma {:induction false} SortBySorted<T(!new)>(s: seq<T>, le: (T, T) -> bool)
    requires TotalPreorder(le)
    ensures Sorted(SortBy(s, le), le)
  {
    if s != [] {
      SortBySorted(s[1..], le);
      InsertSorted(s[0], SortBy(s[1..], le), le);
    }
  }

  lemma {:induction false} TiedConcat<T>(a: seq<T>, b: seq<T>, e: T, le: (T, T) -> bool)
    ensures Tied(a + b, e, le) == Tied(a, e, le) + Tied(b, e, le)
  {
    if a == [] {
      assert a + b == b;
    } else {
      var ab := a + b;
      assert ab[0] == a[0] && ab[1..] == a[1..] + b;
      TiedConcat(a[1..], b, e, le);
      assert Tied(ab, e, le) == (if Equivalent(le, a[0], e) then [a[0]] else []) + Tied(a[1..] + b, e, le);
    }
  }

  lemma {:induction false} InsertTied<T(!new)>(x: T, s: seq<T>, e: T, le: (T, T) -> bool)
    requires TotalPreorder(le)
    ensures Tied(Insert(x, s, le), e, le) == (if Equivalent(le, x, e) then [x] else []) + Tied(s, e, le)
  {
    if s == [] || le(x, s[0]) {
      assert Insert(x, s, le) == [x] + s;
      assert ([x] + s)[1..] == s;
    } else {
      var tail := Insert(x, s[1..], le);
      assert Insert(x, s, le) == [s[0]] + tail;
      assert ([s[0]] + tail)[1..] == tail;
      InsertTied(x, s[1..], e, le);
      var head := if Equivalent(le, s[0], e) then [s[0]] else [];
      var mine := if Equivalent(le, x, e) then [x] else [];
      assert Tied(s, e, le) == head + Tied(s[1..], e, le);
      // x and s[0] cannot both tie with e, since x may not precede s[0]
      assert head == [] || mine == [];
    }
  }

  /** Stability: every class of tied elements keeps its input order. */
  lemma {:induction false} SortByStable<T(!new)>(s: seq<T>, e: T, le: (T, T) -> bool)
    requires TotalPreorder(le)
    ensures Tied(SortBy(s, le), e, le) == Tied(s, e, le)
  {
    if s != [] {
      SortByStable(s[1..], e, le);
      InsertTied(s[0], SortBy(s[1..], le), e, le);
    }
  }

  /** What Array.prototype.sort promises for a consistent comparator. */
  lemma SortByCorrect<T(!new)>(s: seq<T>, le: (T, T) -> bool)
    requires TotalPreorder(le)
    ensures Sorted(SortBy(s, le), le)
    ensures multiset(SortBy(s, le)) == multiset(s)
    ensures forall e :: Tied(SortBy(s, le), e, le) == Tied(s, e, le)
  {
    SortBySorted(s, le);
    forall e
      ensures Tied(SortBy(s, le), e, le) == Tied(s, e, le)
    {
      SortByStable(s, e, le);
    }
  }

  /**
   * The in-place effect of `array.sort(comparator)`: afterwards the array holds the stable
   * sorted order of its old contents.
   */
  method SortArray<T>(a: array<T>, le: (T, T) -> bool)
    modifies a
    ensures a[..] == SortBy(old(a[..]), le)
  {
    var sorted := SortBy(a[..], le);
    for i := 0 to a.Length
      invariant a[..i] == sorted[..i]
      invariant a[i..] == old(a[..])[i..]
    {
      a[i] := sorted[i];
      assert a[..i + 1] == a[..i] + [a[i]];
    }
    assert a[..] == a[..a.Length];
  }
}
