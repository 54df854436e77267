/** Filtering and cutting sequences. */
module Sequences {

  function Filter<T>(keep: T -> bool, s: seq<T>): (r: seq<T>)
    ensures |r| <= |s|
  {
    if s == [] then []
    else Filter(keep, s[..|s| - 1]) + (if keep(s[|s| - 1]) then [s[|s| - 1]] else [])
  }

  function Take<T>(s: seq<T>, n: nat): (r: seq<T>)
    ensures |r| == (if |s| < n then |s| else n) && r + s[|r|..] == s
  {
    if |s| < n then s else s[..n]
  }

  lemma {:induction false} FilterAppend<T>(keep: T -> bool, a: seq<T>, b: seq<T>)
    ensures Filter(keep, a + b) == Filter(keep, a) + Filter(keep, b)
  {
    if b == [] {
      assert a + b == a;
    } else {
      FilterAppend(keep, a, b[..|b| - 1]);
      assert (a + b)[..|a + b| - 1] == a + b[..|b| - 1];
    }
  }

  lemma FilterSplit<T>(keep: T -> bool, s: seq<T>, n: nat)
    requires n <= |s|
    ensures Filter(keep, s) == Filter(keep, s[..n]) + Filter(keep, s[n..])
  {
    var a, b := s[..n], s[n..];
    assert s == a + b;
    FilterAppend(keep, a, b);
  }

  /** Filtering one element further. */
  lemma FilterNext<T>(keep: T -> bool, s: seq<T>, n: nat)
    requires n < |s|
    ensures Filter(keep, s[..n + 1]) == Filter(keep, s[..n]) + (if keep(s[n]) then [s[n]] else [])
  {
    assert s[..n + 1][..n] == s[..n];
  }

  /** How many are kept, one element further. */
  lemma FilterCount<T>(keep: T -> bool, s: seq<T>, x: T)
    ensures |Filter(keep, s + [x])| == |Filter(keep, s)| + (if keep(x) then 1 else 0)
  {
    assert (s + [x])[..|s|] == s;
  }

  /** What is kept was there and passes the test. */
  lemma {:induction false} FilterKeeps<T>(keep: T -> bool, s: seq<T>, x: T)
    ensures x in Filter(keep, s) <==> x in s && keep(x)
  {
    if s != [] {
      FilterKeeps(keep, s[..|s| - 1], x);
      assert s == s[..|s| - 1] + [s[|s| - 1]];
    }
  }

  lemma FilterNothing<T>(keep: T -> bool, s: seq<T>)
    requires forall i | 0 <= i < |s| :: !keep(s[i])
    ensures Filter(keep, s) == []
  {
    if Filter(keep, s) != [] {
      FilterKeeps(keep, s, Filter(keep, s)[0]);
      assert false;
    }
  }
}
