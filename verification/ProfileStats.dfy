/** The profiler's statistics as functions of the samples: what two smallest, two
    largest, sum and count are worth, and what the printed average then is. */
module ProfileStats {
  import opened Wrappers
  import opened Bits
  import opened Sums

  const LLONG_MAX: int := 0x7fff_ffff_ffff_ffff

  predicate Ascending(s: seq<int>) {
    forall i, j :: 0 <= i < j < |s| ==> s[i] <= s[j]
  }

  function Insert(s: seq<int>, x: int): seq<int> {
    if s == [] then [x] else if x <= s[0] then [x] + s else [s[0]] + Insert(s[1..], x)
  }

  // The samples in ascending order.
  function Sorted(s: seq<int>): seq<int> {
    if s == [] then [] else Insert(Sorted(s[..|s| - 1]), s[|s| - 1])
  }

  lemma {:induction false} InsertMembers(s: seq<int>, x: int)
    ensures |Insert(s, x)| == |s| + 1 && multiset(Insert(s, x)) == multiset(s) + multiset{x}
  {
    if s != [] && x > s[0] {
      InsertMembers(s[1..], x);
      assert s == [s[0]] + s[1..];
    }
  }

  lemma {:induction false} InsertOrdered(s: seq<int>, x: int)
    requires Ascending(s)
    ensures Ascending(Insert(s, x))
  {
    if s != [] && x > s[0] {
      InsertOrdered(s[1..], x);
      InsertMembers(s[1..], x);
      var t := Insert(s[1..], x);
      forall i | 0 <= i < |t| ensures s[0] <= t[i] {
        assert t[i] in multiset(t);
        assert t[i] == x || t[i] in s[1..];
      }
      assert Ascending([s[0]] + t);
    } else {
      assert Ascending([x] + s);
    }
  }

  lemma {:induction false} SortedOrdered(s: seq<int>)
    ensures Ascending(Sorted(s)) && |Sorted(s)| == |s| && multiset(Sorted(s)) == multiset(s)
  {
    if s != [] {
      var init, x := s[..|s| - 1], s[|s| - 1];
      SortedOrdered(init);
      InsertOrdered(Sorted(init), x);
      InsertMembers(Sorted(init), x);
      assert s == init + [x];
    }
  }

  // ------------------------------------------------- what is remembered

  // The ith smallest of an ascending list, or LLONG_MAX if there is none.
  function LowOf(t: seq<int>, i: nat): int {
    if i < |t| then t[i] else LLONG_MAX
  }

  // The ith largest, or 0.
  function HighOf(t: seq<int>, i: nat): int {
    if i < |t| then t[|t| - 1 - i] else 0
  }

  function Low(s: seq<int>, i: nat): int {
    LowOf(Sorted(s), i)
  }

  function High(s: seq<int>, i: nat): int {
    HighOf(Sorted(s), i)
  }

  // One pass of the update loop over two cells.
  function Smaller(low: (int, int), x: int): (int, int) {
    if x < low.0 then (x, low.0) else if x < low.1 then (low.0, x) else low
  }

  function Larger(high: (int, int), x: int): (int, int) {
    if x > high.0 then (x, high.0) else if x > high.1 then (high.0, x) else high
  }

  lemma InsertLow(s: seq<int>, x: int)
    requires Ascending(s)
    ensures |Insert(s, x)| == |s| + 1
    ensures Insert(s, x)[0] == if |s| > 0 && s[0] < x then s[0] else x
    ensures |s| > 0 ==>
              Insert(s, x)[1] == if x <= s[0] then s[0] else if |s| > 1 && s[1] < x then s[1] else x
  {
    InsertMembers(s, x);
    if |s| > 0 && x > s[0] {
      InsertMembers(s[1..], x);
      assert Insert(s, x) == [s[0]] + Insert(s[1..], x);
    }
  }

  lemma {:induction false} InsertHigh(s: seq<int>, x: int)
    requires Ascending(s)
    ensures var t, n := Insert(s, x), |s|;
            && |t| == n + 1
            && t[n] == (if n > 0 && s[n - 1] > x then s[n - 1] else x)
            && (n > 0 ==>
                  t[n - 1] == if x >= s[n - 1] then s[n - 1] else if n > 1 && s[n - 2] > x then s[n - 2] else x)
  {
    InsertMembers(s, x);
    if |s| > 0 && x > s[0] {
      InsertHigh(s[1..], x);
      assert Insert(s, x) == [s[0]] + Insert(s[1..], x);
    }
  }

  lemma SortedRange(s: seq<int>, lo: int, hi: int)
    requires forall y <- s :: lo <= y <= hi
    ensures forall y <- Sorted(s) :: lo <= y <= hi
  {
    SortedOrdered(s);
    forall y | y in Sorted(s) ensures lo <= y <= hi {
      assert y in multiset(Sorted(s));
      assert y in s;
    }
  }

  /** The update keeps the two smallest and the two largest, of any samples in
      range. */
  lemma UpdateCorrect(s: seq<int>, x: int)
    requires 0 <= x < LLONG_MAX && forall y <- s :: 0 <= y < LLONG_MAX
    ensures (Low(s + [x], 0), Low(s + [x], 1)) == Smaller((Low(s, 0), Low(s, 1)), x)
    ensures (High(s + [x], 0), High(s + [x], 1)) == Larger((High(s, 0), High(s, 1)), x)
  {
    hide Insert, LowOf, HighOf, Smaller, Larger;
    assert (s + [x])[..|s|] == s;
    SortedOrdered(s);
    SortedRange(s, 0, LLONG_MAX - 1);
    UpdateLow(Sorted(s), x);
    UpdateHigh(Sorted(s), x);
  }

  lemma UpdateLow(t: seq<int>, x: int)
    requires Ascending(t) && 0 <= x < LLONG_MAX && forall y <- t :: 0 <= y < LLONG_MAX
    ensures (LowOf(Insert(t, x), 0), LowOf(Insert(t, x), 1)) == Smaller((LowOf(t, 0), LowOf(t, 1)), x)
  {
    InsertLow(t, x);
    hide Insert;
  }

  lemma UpdateHigh(t: seq<int>, x: int)
    requires Ascending(t) && 0 <= x < LLONG_MAX && forall y <- t :: 0 <= y < LLONG_MAX
    ensures (HighOf(Insert(t, x), 0), HighOf(Insert(t, x), 1)) == Larger((HighOf(t, 0), HighOf(t, 1)), x)
  {
    InsertHigh(t, x);
    hide Insert;
  }

  lemma KeptOrdered(s: seq<int>)
    requires forall y <- s :: 0 <= y < LLONG_MAX
    ensures Low(s, 0) <= Low(s, 1) && High(s, 0) >= High(s, 1)
  {
    SortedOrdered(s);
    SortedRange(s, 0, LLONG_MAX - 1);
    hide Sorted;
    assert forall i :: 0 <= i < |Sorted(s)| ==> Sorted(s)[i] in Sorted(s);
  }

  // --------------------------------------------------- what is printed

  // The value of a signed 64-bit expression.
  function Wrap64(x: int): int {
    (x + 0x8000_0000_0000_0000) % 0x1_0000_0000_0000_0000 - 0x8000_0000_0000_0000
  }

  // totalTime - (min[0] + min[1]) - (max[0] + max[1])
  function Numerator(total: int, min0: int, min1: int, max0: int, max1: int): int {
    Wrap64(Wrap64(total - Wrap64(min0 + min1)) - Wrap64(max0 + max1))
  }

  // Divided by call - 4, as reals: no number when that is zero.
  function Average(numerator: int, call: nat): Option<real> {
    if call == 4 then None else Some(numerator as real / (call - 4) as real)
  }

  // The printed average; the total, too, is kept in 64 bits.
  function Printed(s: seq<int>): Option<real> {
    Average(Numerator(Wrap64(Sum(s)), Low(s, 0), Low(s, 1), High(s, 0), High(s, 1)), |s|)
  }

  // Samples that a clock which does not run backwards can give.
  predicate InRange(s: seq<int>) {
    forall y <- s :: 0 <= y < LLONG_MAX
  }

  // And whose sum does not overflow.
  predicate Samples(s: seq<int>) {
    InRange(s) && Sum(s) <= LLONG_MAX
  }

  // --------------------------------------------------------- 64 bits

  const TWO_64: int := 0x1_0000_0000_0000_0000

  lemma WrapSmall(x: int)
    requires -LLONG_MAX - 1 <= x <= LLONG_MAX
    ensures Wrap64(x) == x
  {
    DivModUnique(x + 0x8000_0000_0000_0000, TWO_64, 0, x + 0x8000_0000_0000_0000);
  }

  // A whole number of periods makes no difference.
  lemma WrapShift(x: int, k: int)
    ensures Wrap64(x + TWO_64 * k) == Wrap64(x)
  {
    var y := x + 0x8000_0000_0000_0000;
    var q, r := y / TWO_64, y % TWO_64;
    assert y == TWO_64 * q + r;
    DivModUnique(y + TWO_64 * k, TWO_64, q + k, r);
  }

  lemma WrapIs(x: int) returns (k: int)
    ensures Wrap64(x) == x + TWO_64 * k
  {
    var y := x + 0x8000_0000_0000_0000;
    k := -(y / TWO_64);
    assert y == TWO_64 * (y / TWO_64) + y % TWO_64;
  }

  // So wrapping can wait until the end.
  lemma WrapLater(x: int, y: int)
    ensures Wrap64(Wrap64(x) + y) == Wrap64(x + y) && Wrap64(y - Wrap64(x)) == Wrap64(y - x)
  {
    var k := WrapIs(x);
    WrapShift(x + y, k);
    WrapShift(y - x, -k);
    hide Wrap64;
    assert Wrap64(x) + y == (x + y) + TWO_64 * k;
    assert y - Wrap64(x) == (y - x) + TWO_64 * -k;
  }

  lemma NumeratorWraps(total: int, min0: int, min1: int, max0: int, max1: int)
    ensures Numerator(Wrap64(total), min0, min1, max0, max1) == Wrap64(total - min0 - min1 - max0 - max1)
  {
    hide Wrap64;
    var a, b := min0 + min1, max0 + max1;
    WrapLater(a, Wrap64(total));
    WrapLater(total, -a);
    WrapLater(total - a, -Wrap64(b));
    WrapLater(b, total - a);
    assert Wrap64(total) + -a == Wrap64(total) - a;
    assert Wrap64(total - a) + -Wrap64(b) == Wrap64(total - a) - Wrap64(b);
    assert (total - a) + -Wrap64(b) == (total - a) - Wrap64(b);
    assert total - a - b == total - min0 - min1 - max0 - max1;
  }

  // ----------------------------------------------------- the trimmed sum

  // What is left of the sorted samples without two at each end.
  function Trimmed(s: seq<int>): seq<int>
    requires |s| >= 4
  {
    SortedOrdered(s);
    Sorted(s)[2..|s| - 2]
  }

  lemma SplitSum(s: seq<int>)
    requires |s| >= 4
    ensures Sum(s) == Low(s, 0) + Low(s, 1) + Sum(Trimmed(s)) + High(s, 1) + High(s, 0)
  {
    SortedOrdered(s);
    hide Sum, Insert, Sorted;
    var t, n := Sorted(s), |s|;
    SumPermutes(s, t);
    var a, m, b := [t[0], t[1]], t[2..n - 2], [t[n - 2], t[n - 1]];
    assert t == a + m + b;
    SumAppend(a, m);
    SumAppend(a + m, b);
    SumPair(t[0], t[1]);
    SumPair(t[n - 2], t[n - 1]);
  }

  /** From four samples on the printed numerator is the sum of the samples left
      when the two smallest and two largest are taken away, if that fits 64 bits:
      whatever overflows before then does no harm. */
  lemma NumeratorIsTrimmedSum(s: seq<int>)
    requires InRange(s) && |s| >= 4
    ensures var n := Numerator(Wrap64(Sum(s)), Low(s, 0), Low(s, 1), High(s, 0), High(s, 1));
            n == Wrap64(Sum(Trimmed(s))) && (n == Sum(Trimmed(s)) <==> Sum(Trimmed(s)) <= LLONG_MAX)
  {
    hide *;
    NumeratorWraps(Sum(s), Low(s, 0), Low(s, 1), High(s, 0), High(s, 1));
    SplitSum(s);
    TrimmedPositive(s);
    WrapFits(Sum(Trimmed(s)));
  }

  lemma WrapFits(x: int)
    requires x >= 0
    ensures Wrap64(x) == x <==> x <= LLONG_MAX
  {
    if x <= LLONG_MAX {
      WrapSmall(x);
    }
  }

  lemma TrimmedPositive(s: seq<int>)
    requires InRange(s) && |s| >= 4
    ensures 0 <= Low(s, 0) && 0 <= Low(s, 1) && 0 <= High(s, 1) && 0 <= High(s, 0) && 0 <= Sum(Trimmed(s))
  {
    SortedOrdered(s);
    SortedRange(s, 0, LLONG_MAX);
    hide Sorted, Insert, Sum;
    var t := Sorted(s);
    assert forall i :: 0 <= i < |t| ==> t[i] in t;
    assert forall y <- Trimmed(s) :: y in t;
    SumBounds(Trimmed(s), 0, LLONG_MAX);
  }

  lemma Quotient(total: int, count: nat, lo: int, hi: int)
    requires count > 0 && count * lo <= total <= count * hi
    ensures lo as real <= total as real / count as real <= hi as real
  {
    var q := total as real / count as real;
    assert q * count as real == total as real;
    assert count as real * lo as real == (count * lo) as real;
    assert count as real * hi as real == (count * hi) as real;
  }

  /** The printed average is the numerator over the count less four, exactly, and no
      number with four samples. */
  lemma PrintedExact(s: seq<int>)
    ensures |s| == 4 ==> Printed(s) == None
    ensures |s| != 4 ==>
              Printed(s).Some? && Printed(s).value * (|s| - 4) as real ==
              Numerator(Wrap64(Sum(s)), Low(s, 0), Low(s, 1), High(s, 0), High(s, 1)) as real
  {
    hide Numerator, Wrap64, Sum, Low, High;
    if |s| != 4 {
      var n := Numerator(Wrap64(Sum(s)), Low(s, 0), Low(s, 1), High(s, 0), High(s, 1));
      TimesBack(n as real, (|s| - 4) as real);
    }
  }

  lemma TimesBack(x: real, y: real)
    requires y != 0.0
    ensures x / y * y == x
  {
  }

  /** With five samples or more the average is the mean of the trimmed samples, if
      their sum fits 64 bits, so it lies between the second smallest and the second
      largest. */
  lemma AverageOfMany(s: seq<int>)
    requires InRange(s) && |s| >= 5 && Sum(Trimmed(s)) <= LLONG_MAX
    ensures Printed(s).Some?
    ensures |Trimmed(s)| == |s| - 4 && Printed(s).value * |Trimmed(s)| as real == Sum(Trimmed(s)) as real
    ensures Low(s, 1) as real <= Printed(s).value <= High(s, 1) as real
  {
    hide *;
    PrintedExact(s);
    NumeratorIsTrimmedSum(s);
    TrimmedSize(s);
    TrimmedBounds(s);
    Mean(Printed(s).value, Sum(Trimmed(s)), |s| - 4, Low(s, 1), High(s, 1));
  }

  lemma TrimmedSize(s: seq<int>)
    requires |s| >= 4
    ensures |Trimmed(s)| == |s| - 4
  {
    SortedOrdered(s);
  }

  lemma Mean(v: real, total: int, count: nat, lo: int, hi: int)
    requires count > 0 && v * count as real == total as real && count * lo <= total <= count * hi
    ensures lo as real <= v <= hi as real
  {
    Quotient(total, count, lo, hi);
    assert v == total as real / count as real;
  }

  lemma TrimmedBounds(s: seq<int>)
    requires |s| >= 4
    ensures (|s| - 4) * Low(s, 1) <= Sum(Trimmed(s)) <= (|s| - 4) * High(s, 1)
  {
    SortedOrdered(s);
    hide Sorted, Insert, Sum;
    var t := Sorted(s);
    forall y | y in Trimmed(s) ensures t[1] <= y <= t[|s| - 2] {
      var i :| 0 <= i < |Trimmed(s)| && Trimmed(s)[i] == y;
      assert y == t[i + 2];
    }
    SumBounds(Trimmed(s), t[1], t[|s| - 2]);
  }

  // The printed average is a number between the smallest and largest sample.
  predicate Meaningful(s: seq<int>) {
    Between(Printed(s), Low(s, 0), High(s, 0))
  }

  predicate Between(average: Option<real>, lo: int, hi: int) {
    average.Some? && lo as real <= average.value <= hi as real
  }

  /** The condition under which the report means something, for all samples: not
      with no sample, not with one, not with four. Two and three samples come
      out right although nothing is left to average. */
  lemma WhenMeaningful(s: seq<int>)
    requires Samples(s)
    ensures Meaningful(s) <==> |s| != 0 && |s| != 1 && |s| != 4
  {
    if |s| >= 5 {
      ManyMeaningful(s);
    } else if |s| == 3 {
      ThreeSamples(s);
    } else if |s| == 2 {
      TwoSamples(s);
    } else if |s| == 1 {
      OneSample(s);
    }
  }

  lemma ManyMeaningful(s: seq<int>)
    requires Samples(s) && |s| >= 5
    ensures Meaningful(s)
  {
    SplitSum(s);
    TrimmedPositive(s);
    KeptOrdered(s);
    hide Low, High, Sum, Trimmed, Printed;
    AverageOfMany(s);
  }

  lemma SortedSum(s: seq<int>)
    requires Samples(s)
    ensures var t := Sorted(s);
            |t| == |s| && Ascending(t) && Sum(t) == Sum(s) && forall i :: 0 <= i < |t| ==> 0 <= t[i] < LLONG_MAX
  {
    SortedOrdered(s);
    SumPermutes(s, Sorted(s));
    SortedRange(s, 0, LLONG_MAX - 1);
    hide Sorted, Insert, Sum;
    assert forall i :: 0 <= i < |Sorted(s)| ==> Sorted(s)[i] in Sorted(s);
  }

  lemma SumSmall(t: seq<int>)
    ensures |t| == 1 ==> Sum(t) == t[0]
    ensures |t| == 2 ==> Sum(t) == t[0] + t[1]
    ensures |t| == 3 ==> Sum(t) == t[0] + t[1] + t[2]
  {
    if |t| == 1 {
      assert t[..0] == [];
    } else if |t| == 2 {
      assert t == [t[0], t[1]];
      SumPair(t[0], t[1]);
    } else if |t| == 3 {
      assert t[..2] == [t[0], t[1]];
      SumPair(t[0], t[1]);
    }
  }

  // What few samples leave in the numerator.
  predicate Sorts(s: seq<int>, t: seq<int>) {
    && t == Sorted(s) && |t| == |s| && Ascending(t) && Sum(t) == Sum(s) <= LLONG_MAX
    && forall i :: 0 <= i < |t| ==> 0 <= t[i] < LLONG_MAX
  }

  lemma SortsIs(s: seq<int>)
    requires Samples(s)
    ensures Sorts(s, Sorted(s)) && |Sorted(s)| == |s|
  {
    SortedSum(s);
    hide Sorted, Sum;
  }

  // The mean of the two.
  lemma TwoSamples(s: seq<int>)
    requires Samples(s) && |s| == 2
    ensures Meaningful(s)
    ensures Printed(s) == Some((s[0] + s[1]) as real / 2.0)
  {
    hide *;
    var t := Sorted(s);
    SortsIs(s);
    SumSmall(s);
    SumSmall(t);
    TwoSorted(s, t);
  }

  lemma TwoSorted(s: seq<int>, t: seq<int>)
    requires Sorts(s, t) && |t| == |s| == 2 && Sum(t) == t[0] + t[1] && Sum(s) == s[0] + s[1]
    ensures Meaningful(s) && Printed(s) == Some((s[0] + s[1]) as real / 2.0)
  {
    hide Sorted, Sum, Numerator, Average, Between, Wrap64;
    TwoFigures(t[0], t[1]);
  }

  lemma TwoFigures(a: int, b: int)
    requires 0 <= a <= b && a + b <= LLONG_MAX
    ensures var average := Average(Numerator(Wrap64(a + b), a, b, b, a), 2);
            average == Some((a + b) as real / 2.0) && Between(average, a, b)
  {
    hide Numerator, Wrap64;
    NumeratorWraps(a + b, a, b, b, a);
    WrapSmall(-(a + b));
    assert a + b - a - b - b - a == -(a + b);
    Negated(a + b, 2, a, b);
    assert (2 - 4) as real == (0 - 2) as real;
  }

  // A numerator and a denominator that are both negative.
  lemma Negated(x: int, count: nat, lo: int, hi: int)
    requires count > 0 && count * lo <= x <= count * hi
    ensures (0 - count) as real != 0.0 && (-x) as real / (0 - count) as real == x as real / count as real
    ensures lo as real <= x as real / count as real <= hi as real
  {
    Quotient(x, count, lo, hi);
    var q := x as real / count as real;
    assert q * count as real == x as real;
    assert (-x) as real == q * (0 - count) as real;
  }

  // The middle one.
  lemma ThreeSamples(s: seq<int>)
    requires Samples(s) && |s| == 3
    ensures Meaningful(s)
    ensures Printed(s) == Some(Low(s, 1) as real)
  {
    hide *;
    var t := Sorted(s);
    SortsIs(s);
    SumSmall(t);
    ThreeSorted(s, t);
  }

  lemma ThreeSorted(s: seq<int>, t: seq<int>)
    requires Sorts(s, t) && |t| == |s| == 3 && Sum(t) == t[0] + t[1] + t[2]
    ensures Meaningful(s) && Printed(s) == Some(Low(s, 1) as real)
  {
    hide Sorted, Sum, Numerator, Average, Between, Wrap64;
    ThreeFigures(t[0], t[1], t[2]);
  }

  lemma ThreeFigures(a: int, b: int, c: int)
    requires 0 <= a <= b <= c && a + b + c <= LLONG_MAX
    ensures var average := Average(Numerator(Wrap64(a + b + c), a, b, c, b), 3);
            average == Some(b as real) && Between(average, a, c)
  {
    hide Numerator, Wrap64;
    NumeratorWraps(a + b + c, a, b, c, b);
    WrapSmall(-b);
    assert a + b + c - a - b - c - b == -b;
    Negated(b, 1, b, b);
    assert (3 - 4) as real == (0 - 1) as real;
  }

  // The sum of the two remembered minima, one of them LLONG_MAX, overflows.
  lemma OneSample(s: seq<int>)
    requires Samples(s) && |s| == 1
    ensures !Meaningful(s)
    ensures s[0] >= 2 ==> Printed(s).value < 0.0
    ensures Printed(s) == Some((if s[0] <= 1 then LLONG_MAX + s[0] else s[0] - LLONG_MAX - 2) as real / 3.0)
  {
    hide *;
    var t := Sorted(s);
    SortsIs(s);
    SumSmall(s);
    SumSmall(t);
    OneSorted(s, t);
  }

  lemma OneSorted(s: seq<int>, t: seq<int>)
    requires Sorts(s, t) && |t| == |s| == 1 && Sum(t) == t[0] && Sum(s) == s[0]
    ensures !Meaningful(s) && Printed(s).Some? && (s[0] >= 2 ==> Printed(s).value < 0.0)
    ensures Printed(s) == Some((if s[0] <= 1 then LLONG_MAX + s[0] else s[0] - LLONG_MAX - 2) as real / 3.0)
  {
    hide Sorted, Sum, Numerator, Wrap64;
    OneFigure(t[0]);
  }

  // No sample at all.
  lemma NoSample()
    ensures Printed([]) == Some(-0.5)
  {
    hide Numerator, Wrap64;
    NumeratorWraps(0, LLONG_MAX, LLONG_MAX, 0, 0);
    WrapShift(0 - LLONG_MAX - LLONG_MAX, 1);
    WrapSmall(2);
  }

  lemma OneFigure(a: int)
    requires 0 <= a < LLONG_MAX
    ensures Numerator(Wrap64(a), a, LLONG_MAX, a, 0) == if a <= 1 then -LLONG_MAX - a else LLONG_MAX + 2 - a
  {
    NumeratorWraps(a, a, LLONG_MAX, a, 0);
    hide Numerator;
    if a <= 1 {
      WrapSmall(-LLONG_MAX - a);
    } else {
      WrapShift(-LLONG_MAX - a, 1);
      WrapSmall(LLONG_MAX + 2 - a);
    }
  }
}
