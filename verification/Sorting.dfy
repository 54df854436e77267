/** A stable sort by a comparison, with what every sorted copy guarantees. */
module Sorting {

  ghost predicate TotalPreorder<T(!new)>(leq: (T, T) -> bool) {
    && (forall x, y :: leq(x, y) || leq(y, x))
    && (forall x, y, z :: leq(x, y) && leq(y, z) ==> leq(x, z))
  }

  ghost predicate SortedBy<T>(leq: (T, T) -> bool, s: seq<T>) {
    forall i, j | 0 <= i < j < |s| :: leq(s[i], s[j])
  }

  /** Goes after every element that may stay before it. */
  function Insert<T>(leq: (T, T) -> bool, s: seq<T>, x: T): (r: seq<T>)
    ensures |r| == |s| + 1
  {
    if s == [] then [x]
    else if leq(s[|s| - 1], x) then s + [x]
    else Insert(leq, s[..|s| - 1], x) + [s[|s| - 1]]
  }

  function Sort<T>(leq: (T, T) -> bool, s: seq<T>): (r: seq<T>)
    ensures |r| == |s|
  {
    if s == [] then [] else Insert(leq, Sort(leq, s[..|s| - 1]), s[|s| - 1])
  }

  lemma {:induction false} InsertPermutes<T>(leq: (T, T) -> bool, s: seq<T>, x: T)
    ensures multiset(Insert(leq, s, x)) == multiset(s) + multiset{x}
  {
    if s != [] {
      assert s == s[..|s| - 1] + [s[|s| - 1]];
      if !leq(s[|s| - 1], x) {
        InsertPermutes(leq, s[..|s| - 1], x);
      }
    }
  }

  lemma {:induction false} SortPermutes<T>(leq: (T, T) -> bool, s: seq<T>)
    ensures multiset(Sort(leq, s)) == multiset(s)
  {
    if s != [] {
      assert s == s[..|s| - 1] + [s[|s| - 1]];
      SortPermutes(leq, s[..|s| - 1]);
      InsertPermutes(leq, Sort(leq, s[..|s| - 1]), s[|s| - 1]);
    }
  }

  lemma InSorted<T>(leq: (T, T) -> bool, s: seq<T>, x: T)
    ensures x in Sort(leq, s) <==> x in s
  {
    SortPermutes(leq, s);
    assert x in multiset(Sort(leq, s)) <==> x in multiset(s);
  }

  lemma {:induction false} InsertSorts<T(!new)>(leq: (T, T) -> bool, s: seq<T>, x: T)
    requires TotalPreorder(leq) && SortedBy(leq, s)
    ensures SortedBy(leq, Insert(leq, s, x))
  {
    if s != [] {
      var last := s[|s| - 1];
      if leq(last, x) {
        assert forall i | 0 <= i < |s| :: leq(s[i], last) || i == |s| - 1;
      } else {
        var front := s[..|s| - 1];
        InsertSorts(leq, front, x);
        InsertPermutes(leq, front, x);
        var r := Insert(leq, front, x);
        forall i | 0 <= i < |r| ensures leq(r[i], last) {
          assert r[i] in multiset(r);
          if r[i] != x {
            assert r[i] in front;
            var k :| 0 <= k < |front| && front[k] == r[i];
            assert leq(s[k], s[|s| - 1]);
          }
        }
      }
    }
  }

  lemma {:induction false} SortSorts<T(!new)>(leq: (T, T) -> bool, s: seq<T>)
    requires TotalPreorder(leq)
    ensures SortedBy(leq, Sort(leq, s))
  {
    if s != [] {
      SortSorts(leq, s[..|s| - 1]);
      InsertSorts(leq, Sort(leq, s[..|s| - 1]), s[|s| - 1]);
    }
  }

  ghost predicate NoDuplicates<T>(s: seq<T>) {
    forall i, j | 0 <= i < j < |s| :: s[i] != s[j]
  }

  /** Sorting keeps distinct elements distinct. */
  lemma SortKeepsDistinct<T>(leq: (T, T) -> bool, s: seq<T>)
    requires NoDuplicates(s)
    ensures NoDuplicates(Sort(leq, s))
  {
    SortPermutes(leq, s);
    DistinctCounts(s);
    var r := Sort(leq, s);
    forall i, j | 0 <= i < j < |r| ensures r[i] != r[j] {
      InSorted(leq, s, r[i]);
      if r[i] == r[j] { TwiceCounts(r, i, j); }
    }
  }

  lemma {:induction false} DistinctCounts<T>(s: seq<T>)
    requires NoDuplicates(s)
    ensures forall x | x in s :: multiset(s)[x] == 1
  {
    if s != [] {
      DistinctCounts(s[..|s| - 1]);
      assert s == s[..|s| - 1] + [s[|s| - 1]];
    }
  }

  lemma TwiceCounts<T>(s: seq<T>, i: nat, j: nat)
    requires i < j < |s| && s[i] == s[j]
    ensures multiset(s)[s[i]] >= 2
  {
    assert s == s[..i] + [s[i]] + s[i + 1..j] + [s[j]] + s[j + 1..];
  }

  /** Two sorted lists of the same distinct elements are one list, when only equal elements
      rank the same. */
  lemma {:induction false} SortedIsUnique<T(!new)>(leq: (T, T) -> bool, a: seq<T>, b: seq<T>)
    requires forall x, y :: leq(x, y) && leq(y, x) ==> x == y
    requires SortedBy(leq, a) && SortedBy(leq, b) && NoDuplicates(a) && NoDuplicates(b)
    requires forall x :: x in a <==> x in b
    ensures a == b
    decreases |a|
  {
    assert (a == [] || a[0] in b) && (b == [] || b[0] in a);
    if a != [] {
      SameLast(leq, a, b);
      var fronts, fronts', last := a[..|a| - 1], b[..|b| - 1], a[|a| - 1];
      forall x ensures x in fronts <==> x in fronts' {
        InFront(a, x);
        InFront(b, x);
      }
      SortedIsUnique(leq, fronts, fronts');
      assert a == fronts + [last] && b == fronts' + [last];
    }
  }

  lemma SameLast<T(!new)>(leq: (T, T) -> bool, a: seq<T>, b: seq<T>)
    requires forall x, y :: leq(x, y) && leq(y, x) ==> x == y
    requires SortedBy(leq, a) && SortedBy(leq, b) && a != [] && b != []
    requires forall x :: x in a <==> x in b
    ensures a[|a| - 1] == b[|b| - 1]
  {
    var x, y := a[|a| - 1], b[|b| - 1];
    assert x in b && y in a;
    var i :| 0 <= i < |b| && b[i] == x;
    var j :| 0 <= j < |a| && a[j] == y;
    assert (i == |b| - 1 || leq(x, y)) && (j == |a| - 1 || leq(y, x));
  }

  lemma InFront<T>(s: seq<T>, x: T)
    requires s != [] && NoDuplicates(s)
    ensures x in s[..|s| - 1] <==> x in s && x != s[|s| - 1]
  {
    assert s == s[..|s| - 1] + [s[|s| - 1]];
  }
}
