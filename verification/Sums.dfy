/** Sums of sequences. */
module Sums {

  function Sum(s: seq<int>): int {
    if s == [] then 0 else Sum(s[..|s| - 1]) + s[|s| - 1]
  }

  lemma {:induction false} SumAppend(s: seq<int>, t: seq<int>)
    ensures Sum(s + t) == Sum(s) + Sum(t)
  {
    if t == [] {
      assert s + t == s;
    } else {
      SumAppend(s, t[..|t| - 1]);
      assert (s + t)[..|s + t| - 1] == s + t[..|t| - 1];
    }
  }

  lemma {:induction false} SumPermutes(s: seq<int>, t: seq<int>)
    requires multiset(s) == multiset(t)
    ensures Sum(s) == Sum(t)
  {
    assert |multiset(s)| == |s| && |multiset(t)| == |t|;
    if s == [] {
      assert |multiset(t)| == |multiset(s)|;
    } else {
      var init, x := s[..|s| - 1], s[|s| - 1];
      assert s == init + [x];
      assert x in multiset(t);
      var k :| 0 <= k < |t| && t[k] == x;
      var rest := t[..k] + t[k + 1..];
      assert t == t[..k] + [x] + t[k + 1..];
      assert multiset(rest) == multiset(t) - multiset{x};
      SumPermutes(init, rest);
      SumAppend(t[..k], [x]);
      SumAppend(t[..k] + [x], t[k + 1..]);
      SumAppend(t[..k], t[k + 1..]);
    }
  }

  lemma {:induction false} SumBounds(s: seq<int>, lo: int, hi: int)
    requires forall y <- s :: lo <= y <= hi
    ensures |s| * lo <= Sum(s) <= |s| * hi
  {
    if s != [] {
      var n := |s| - 1;
      assert forall y <- s[..n] :: y in s;
      assert s[n] in s;
      SumBounds(s[..n], lo, hi);
      OneMoreTime(n, lo);
      OneMoreTime(n, hi);
    }
  }

  lemma OneMoreTime(n: int, x: int)
    ensures (n + 1) * x == n * x + x
  {
  }

  lemma SumOne(a: int)
    ensures Sum([a]) == a
  {
    assert [a][..0] == [];
  }

  lemma SumPair(a: int, b: int)
    ensures Sum([a, b]) == a + b
  {
    SumOne(a);
    assert [a, b][..1] == [a];
  }
}
