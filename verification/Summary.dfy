/**
  Minimum, maximum, mean and jitter of a list of durations, in integer nanoseconds. `ping`, `mtr`, `utils`,
  `tcp`, `monitoring` and the TCP ping loop each compute them in their own way; this is what they should get.
*/
module Summary {
  import opened Arithmetic
  import opened Folds

  /** Go's integer division, which truncates towards zero. */
  function GoDiv(a: int, b: int): int
    requires b > 0
  {
    if a >= 0 then a / b else -((-a) / b)
  }

  function Identity(x: int): int { x }

  function Sum(s: seq<int>): int {
    Total(Identity, s)
  }

  function Deviation(a: int): int -> int {
    (x: int) => if x >= a then x - a else a - x
  }

  function Min(s: seq<int>): int
    requires s != []
  {
    if |s| == 1 then s[0]
    else var m := Min(s[..|s| - 1]); if s[|s| - 1] < m then s[|s| - 1] else m
  }

  function Max(s: seq<int>): int
    requires s != []
  {
    if |s| == 1 then s[0]
    else var m := Max(s[..|s| - 1]); if s[|s| - 1] > m then s[|s| - 1] else m
  }

  function Average(s: seq<int>): int
    requires s != []
  {
    GoDiv(Sum(s), |s|)
  }

  /** Mean absolute deviation from the truncated mean, itself truncated. The program adds up the deviations
      in float64 and truncates the quotient, which is exact while the sum stays below 2^53. */
  function Jitter(s: seq<int>): int
    requires s != []
  {
    GoDiv(Total(Deviation(Average(s)), s), |s|)
  }

  datatype Summary = Summary(min: int, max: int, avg: int, jitter: int)

  function Summarize(s: seq<int>): Summary
    requires s != []
  {
    Summary(Min(s), Max(s), Average(s), Jitter(s))
  }

  // ---- Minimum and maximum ----

  lemma {:induction false} MinIsLeast(s: seq<int>)
    requires s != []
    ensures Min(s) in s
    ensures forall i :: 0 <= i < |s| ==> Min(s) <= s[i]
  {
    if |s| > 1 {
      MinIsLeast(s[..|s| - 1]);
      assert forall i :: 0 <= i < |s| - 1 ==> s[..|s| - 1][i] == s[i];
    }
  }

  lemma {:induction false} MaxIsGreatest(s: seq<int>)
    requires s != []
    ensures Max(s) in s
    ensures forall i :: 0 <= i < |s| ==> s[i] <= Max(s)
  {
    if |s| > 1 {
      MaxIsGreatest(s[..|s| - 1]);
      assert forall i :: 0 <= i < |s| - 1 ==> s[..|s| - 1][i] == s[i];
    }
  }

  /** One more element, as the loops see it. */
  lemma {:induction false} Extend(s: seq<int>, x: int)
    ensures Sum(s + [x]) == Sum(s) + x
    ensures Min(s + [x]) == if s == [] || x < Min(s) then x else Min(s)
    ensures Max(s + [x]) == if s == [] || x > Max(s) then x else Max(s)
  {
    TotalExtend(Identity, s, x);
    assert (s + [x])[..|s|] == s;
  }

  // ---- Sorting ----

  ghost predicate Sorted(s: seq<int>) {
    forall i, j :: 0 <= i < j < |s| ==> s[i] <= s[j]
  }

  function Insert(x: int, s: seq<int>): seq<int> {
    if s == [] || x <= s[0] then [x] + s else [s[0]] + Insert(x, s[1..])
  }

  /** What `sort.Slice` leaves behind. */
  function Sort(s: seq<int>): seq<int> {
    if s == [] then [] else Insert(s[0], Sort(s[1..]))
  }

  lemma {:induction false} InsertKeepsElements(x: int, s: seq<int>)
    ensures multiset(Insert(x, s)) == multiset(s) + multiset{x}
  {
    if s != [] && x > s[0] {
      InsertKeepsElements(x, s[1..]);
      assert s == [s[0]] + s[1..];
    }
  }

  lemma {:induction false} InsertSorts(x: int, s: seq<int>)
    requires Sorted(s)
    ensures Sorted(Insert(x, s))
  {
    if s != [] && x > s[0] {
      var t := Insert(x, s[1..]);
      InsertSorts(x, s[1..]);
      InsertKeepsElements(x, s[1..]);
      forall i | 0 <= i < |t|
        ensures s[0] <= t[i]
      {
        assert t[i] in multiset(t);
        assert t[i] == x || t[i] in multiset(s[1..]);
      }
    }
  }

  lemma {:induction false} SortSorts(s: seq<int>)
    ensures Sorted(Sort(s))
    ensures multiset(Sort(s)) == multiset(s)
    ensures |Sort(s)| == |s|
  {
    if s != [] {
      SortSorts(s[1..]);
      InsertSorts(s[0], Sort(s[1..]));
      InsertKeepsElements(s[0], Sort(s[1..]));
      assert s == [s[0]] + s[1..];
    }
    assert |multiset(Sort(s))| == |multiset(s)|;
  }

  lemma {:induction false} HeadIsLeast(s: seq<int>, x: int)
    requires Sorted(s) && x in multiset(s)
    ensures s != [] && s[0] <= x
  {
    var i :| 0 <= i < |s| && s[i] == x;
  }

  lemma TailMultiset(s: seq<int>)
    requires s != []
    ensures multiset(s[1..]) == multiset(s) - multiset{s[0]}
  {
    assert s == [s[0]] + s[1..];
  }

  lemma {:induction false} HeadsAgree(s: seq<int>, t: seq<int>)
    requires Sorted(s) && Sorted(t) && multiset(s) == multiset(t) && s != []
    ensures t != [] && s[0] == t[0] && multiset(s[1..]) == multiset(t[1..])
  {
    assert s[0] in multiset(s);
    HeadIsLeast(t, s[0]);
    assert t[0] in multiset(t);
    HeadIsLeast(s, t[0]);
    TailMultiset(s);
    TailMultiset(t);
  }

  /** A sorted list is determined by its elements. */
  lemma {:induction false} SortedUnique(s: seq<int>, t: seq<int>)
    requires Sorted(s) && Sorted(t) && multiset(s) == multiset(t)
    ensures s == t
  {
    if s == [] {
      assert |multiset(t)| == 0;
    } else {
      HeadsAgree(s, t);
      SortedUnique(s[1..], t[1..]);
      assert s == [s[0]] + s[1..] && t == [t[0]] + t[1..];
    }
  }

  lemma {:induction false} SortPermuted(s: seq<int>, t: seq<int>)
    requires multiset(s) == multiset(t)
    ensures Sort(s) == Sort(t)
  {
    SortSorts(s);
    SortSorts(t);
    SortedUnique(Sort(s), Sort(t));
  }

  /** Sorts in place, ascending. */
  method SortSlice(a: array<int>)
    modifies a
    ensures a[..] == Sort(old(a[..]))
  {
    SortSorts(a[..]);
    var s := Sort(a[..]);
    for i := 0 to a.Length
      invariant a[..i] == s[..i]
    {
      a[i] := s[i];
    }
  }

  // ---- Order of arrival ----

  lemma {:induction false} SameElements(s: seq<int>, t: seq<int>)
    requires multiset(s) == multiset(t)
    ensures |s| == |t| && forall x :: x in s <==> x in t
  {
    assert |multiset(s)| == |multiset(t)|;
    forall x
      ensures x in s <==> x in t
    {
      assert x in multiset(s) <==> x in multiset(t);
    }
  }

  /** The summary does not depend on the order in which the samples arrived. */
  lemma {:induction false} SummaryIgnoresOrder(s: seq<int>, t: seq<int>)
    requires s != [] && multiset(s) == multiset(t)
    ensures t != [] && Summarize(s) == Summarize(t)
  {
    SameElements(s, t);
    MinIsLeast(s);
    MinIsLeast(t);
    MaxIsGreatest(s);
    MaxIsGreatest(t);
    TotalPermuted(Identity, s, t);
    TotalPermuted(Deviation(Average(s)), s, t);
  }

  /** The first and the last of the sorted list are the extremes, and sorting leaves the rest alone too. */
  lemma {:induction false} SummaryOfSorted(s: seq<int>)
    requires s != []
    ensures |Sort(s)| == |s| && Summarize(Sort(s)) == Summarize(s)
    ensures Sort(s)[0] == Min(s) && Sort(s)[|s| - 1] == Max(s)
  {
    SortSorts(s);
    SummaryIgnoresOrder(s, Sort(s));
    MinIsLeast(Sort(s));
    MaxIsGreatest(Sort(s));
  }

  // ---- Bounds ----

  lemma GoDivRemainder(a: int, b: int)
    requires b > 0
    ensures -b < a - GoDiv(a, b) * b < b
    ensures a >= 0 ==> GoDiv(a, b) * b <= a
  {
    if a < 0 {
      assert (-((-a) / b)) * b == -(((-a) / b) * b);
    }
  }

  /** Truncated quotients are ordered as the exact ones. */
  lemma GoDivMonotonic(a: int, b: int, c: int, d: int)
    requires b > 0 && d > 0 && a * d <= c * b
    ensures GoDiv(a, b) <= GoDiv(c, d)
  {
    SignOfQuotient(a, b, c, d);
    if a >= 0 {
      FloorMonotonic(a, b, c, d);
    } else if c < 0 {
      FloorMonotonic(-c, d, -a, b);
    } else {
      QuotientNonNegative(-a, b);
      QuotientNonNegative(c, d);
    }
  }

  lemma SignOfQuotient(a: int, b: int, c: int, d: int)
    requires b > 0 && d > 0 && a * d <= c * b
    ensures a >= 0 ==> c >= 0
    ensures (-c) * b <= (-a) * d
  {
    if a >= 0 && c < 0 {
      TimesMonotonic(c, -1, b);
      TimesMonotonic(0, a, d);
    }
  }

  lemma {:induction false} AverageWithin(s: seq<int>)
    requires s != []
    ensures Min(s) <= Average(s) <= Max(s)
  {
    MinIsLeast(s);
    MaxIsGreatest(s);
    TotalWithin(Identity, s, Min(s), Max(s));
    GoDivMonotonic(Min(s), 1, Sum(s), |s|);
    GoDivMonotonic(Sum(s), |s|, Max(s), 1);
  }

  function Above(t: int): int -> int {
    (x: int) => x - t
  }

  lemma {:induction false} AboveSum(s: seq<int>, t: int)
    ensures Total(Above(t), s) == Sum(s) - t * |s|
  {
    if s != [] {
      AboveSum(s[1..], t);
      Distribute(|s[1..]|, 1, t);
    }
  }

  function Below(t: int): int -> int {
    (x: int) => t - x
  }

  lemma {:induction false} BelowSum(s: seq<int>, t: int)
    ensures Total(Below(t), s) == t * |s| - Sum(s)
  {
    if s != [] {
      BelowSum(s[1..], t);
      Distribute(|s[1..]|, 1, t);
    }
  }

  /** A point of the graph of |r - a| lies under the chord from `lo` to `hi`. */
  lemma Chord(r: int, a: int, lo: int, hi: int)
    requires lo <= r <= hi && lo <= a <= hi
    ensures Deviation(a)(r) * (hi - lo) <= Below(hi)(r) * (a - lo) + Above(lo)(r) * (hi - a)
  {
    var x, y := a - lo, hi - a;
    if r >= a {
      var u := r - a;
      assert (y - u) * x + (x + u) * y - u * (x + y) == 2 * ((y - u) * x);
      assert (y - u) * x >= 0;
    } else {
      var u := a - r;
      assert (y + u) * x + (x - u) * y - u * (x + y) == 2 * ((x - u) * y);
      assert (x - u) * y >= 0;
    }
  }

  lemma {:induction false} ChordSum(s: seq<int>, a: int, lo: int, hi: int, x: int, y: int, w: int)
    requires lo <= a <= hi && forall i :: 0 <= i < |s| ==> lo <= s[i] <= hi
    requires x == a - lo && y == hi - a && w == hi - lo
    ensures Total(Deviation(a), s) * w <= Total(Below(hi), s) * x + Total(Above(lo), s) * y
  {
    if s != [] {
      var r, t := s[0], s[1..];
      ChordSum(t, a, lo, hi, x, y, w);
      Chord(r, a, lo, hi);
      ChordAdd(Deviation(a)(r), Total(Deviation(a), t), w,
               Below(hi)(r), Total(Below(hi), t), x,
               Above(lo)(r), Total(Above(lo), t), y);
    }
  }

  lemma ChordAdd(d: int, d': int, w: int, u: int, u': int, x: int, v: int, v': int, y: int)
    requires d * w <= u * x + v * y && d' * w <= u' * x + v' * y
    ensures (d + d') * w <= (u + u') * x + (v + v') * y
  {
    Distribute(d, d', w);
    Distribute(u, u', x);
    Distribute(v, v', y);
  }

  /** Twice the jitter is at most the spread. The bound on each single deviation would give only the spread
      itself; the truncation of the mean must not spoil the factor of two. */
  lemma {:induction false} JitterBound(s: seq<int>)
    requires s != []
    ensures 0 <= Jitter(s) && 2 * Jitter(s) <= Max(s) - Min(s)
  {
    GoDivRemainder(Sum(s), |s|);
    AverageWithin(s);
    var dev := Total(Deviation(Average(s)), s);
    DeviationNonNegative(s, Average(s));
    GoDivRemainder(dev, |s|);
    MeanDeviationBound(s, Average(s), Jitter(s));
    GoDivMonotonic(0, 1, dev, |s|);
  }

  lemma {:induction false} DeviationNonNegative(s: seq<int>, a: int)
    ensures Total(Deviation(a), s) >= 0
  {
    if s != [] {
      DeviationNonNegative(s[1..], a);
    }
  }

  lemma {:induction false} MeanDeviationBound(s: seq<int>, a: int, j: int)
    requires s != [] && Min(s) <= a <= Max(s)
    requires -|s| < Sum(s) - a * |s| < |s|
    requires j * |s| <= Total(Deviation(a), s)
    ensures 2 * j <= Max(s) - Min(s)
  {
    var lo, hi := Min(s), Max(s);
    MinIsLeast(s);
    MaxIsGreatest(s);
    ChordSum(s, a, lo, hi, a - lo, hi - a, hi - lo);
    BelowSum(s, hi);
    AboveSum(s, lo);
    TotalWithin(Deviation(a), s, 0, hi - lo);
    SpreadArithmetic(|s|, Sum(s), Sum(s) - a * |s|, a, lo, hi,
                     Total(Below(hi), s), Total(Above(lo), s), Total(Deviation(a), s), j);
  }

  /** The arithmetic behind the bound: `sum` is the sum of `n` numbers between `lo` and `hi`, `a` its
      quotient by `n` and `rest` the remainder, `below` and `above` the sums of the distances from `hi` and
      from `lo`, `dev` the sum of the deviations and `j` its quotient by `n`. */
  lemma SpreadArithmetic(n: int, sum: int, rest: int, a: int, lo: int, hi: int, below: int, above: int, dev: int, j: int)
    requires n > 0 && lo <= a <= hi
    requires sum == a * n + rest && -n < rest < n
    requires below == hi * n - sum && above == sum - lo * n
    requires dev * (hi - lo) <= below * (a - lo) + above * (hi - a)
    requires dev <= (hi - lo) * n && j * n <= dev
    ensures 2 * j <= hi - lo
  {
    var x, y := a - lo, hi - a;
    Distribute(y, a, n);
    Distribute(x, lo, n);
    TwoTerms(n, rest, x, y, below, above);
    if 2 * j > x + y {
      BigDeviation(n, x + y, j, dev);
      NoRoom(n, x + y, y - x, rest);
    }
  }

  lemma TwoTerms(n: int, rest: int, x: int, y: int, below: int, above: int)
    requires below == y * n - rest && above == x * n + rest
    ensures 2 * (below * x + above * y) == n * ((x + y) * (x + y)) - n * ((y - x) * (y - x)) + 2 * (rest * (y - x))
  {
  }

  lemma BigDeviation(n: int, w: int, j: int, dev: int)
    requires n > 0 && w >= 0 && j * n <= dev && 2 * j > w
    ensures 2 * (dev * w) >= n * (w * w) + n * w
  {
    TimesMonotonic(w + 1, 2 * j, n);
    TimesMonotonic((w + 1) * n, 2 * dev, w);
    assert (w + 1) * n * w == n * (w * w) + n * w;
  }

  lemma NoRoom(n: int, w: int, d: int, rest: int)
    requires n > 0 && w >= 0 && -w <= d <= w && -n < rest < n
    requires n * w + n * (d * d) <= 2 * (rest * d)
    ensures w == 0
  {
    var e := if d >= 0 then d else -d;
    AbsBound(n, d, rest);
    TimesMonotonic(e, w, n);
    if e >= 1 {
      TimesMonotonic(1, e, e);
      TimesMonotonic(e, d * d, n);
    } else {
      TimesMonotonic(1, n, w);
    }
  }

  lemma AbsBound(n: int, d: int, rest: int)
    requires -n < rest < n
    ensures rest * d <= (n - 1) * if d >= 0 then d else -d
  {
    if d >= 0 {
      TimesMonotonic(rest, n - 1, d);
    } else {
      TimesMonotonic(-rest, n - 1, -d);
    }
  }

  /** The bound is sharp: a round trip time of 0 and one of 2k have jitter k. */
  lemma JitterBoundIsSharp(k: nat)
    ensures 2 * Jitter([0, 2 * k]) == Max([0, 2 * k]) - Min([0, 2 * k])
  {
    var s := [0, 2 * k];
    Extend([], 0);
    Extend([0], 2 * k);
    assert s == [0] + [2 * k] && [0] == [] + [0];
    TotalExtend(Deviation(k), [0], 2 * k);
    TotalExtend(Deviation(k), [], 0);
    assert Average(s) == k;
    assert Total(Deviation(k), s) == 2 * k;
  }

  /** What every report built on these numbers can rely on. */
  lemma {:induction false} SummaryBounds(s: seq<int>)
    requires s != []
    ensures var m := Summarize(s); m.min <= m.avg <= m.max && 0 <= m.jitter && 2 * m.jitter <= m.max - m.min
  {
    AverageWithin(s);
    JitterBound(s);
  }

  // ---- What the figures are ----

  /** The quotient is the exact one without its fraction. */
  lemma GoDivTruncates(a: int, b: int)
    requires b > 0
    ensures a >= 0 ==> GoDiv(a, b) * b <= a < (GoDiv(a, b) + 1) * b
    ensures a <= 0 ==> (GoDiv(a, b) - 1) * b < a <= GoDiv(a, b) * b
  {
    var q := GoDiv(a, b);
    GoDivRemainder(a, b);
    Distribute(q, 1, b);
    Distribute(q, -1, b);
    if a < 0 {
      GoDivRemainder(-a, b);
      Distribute(q, -q, b);
    }
  }

  /** Every sample lies between the minimum and the maximum, which are samples; the mean is the sum over the
      number of samples, and the jitter the sum of the distances from the mean over that number, without the
      fraction. */
  lemma {:induction false} Figures(s: seq<int>)
    requires s != []
    ensures var m := Summarize(s);
      && m.min in s && m.max in s && (forall i :: 0 <= i < |s| ==> m.min <= s[i] <= m.max)
      && m.avg == GoDiv(Total(x => x, s), |s|)
      && m.jitter == GoDiv(Total(x => if x >= m.avg then x - m.avg else m.avg - x, s), |s|)
  {
    MinIsLeast(s);
    MaxIsGreatest(s);
    TotalSame(Identity, x => x, s);
    var a := Average(s);
    TotalSame(Deviation(a), x => if x >= a then x - a else a - x, s);
  }

  // ---- The loops that are common to the sorting summaries ----

  /** The two summing loops, shared by `processResult`, `utils.Stats` and `mtr.calculateStats`. */
  method MeanAndJitter(a: array<int>) returns (avg: int, jitter: int)
    requires a.Length > 0
    ensures avg == Average(a[..]) && jitter == Jitter(a[..])
  {
    var total := 0;
    for i := 0 to a.Length
      invariant total == Sum(a[..i])
    {
      assert a[..i + 1] == a[..i] + [a[i]];
      TotalExtend(Identity, a[..i], a[i]);
      total := total + a[i];
    }
    assert a[..a.Length] == a[..];
    avg := GoDiv(total, a.Length);
    var jitterTotal := 0;
    for i := 0 to a.Length
      invariant jitterTotal == Total(Deviation(avg), a[..i])
    {
      assert a[..i + 1] == a[..i] + [a[i]];
      TotalExtend(Deviation(avg), a[..i], a[i]);
      jitterTotal := jitterTotal + (if a[i] >= avg then a[i] - avg else avg - a[i]);
    }
    jitter := GoDiv(jitterTotal, a.Length);
  }

  /** What the sorting summaries have in common: the slice is sorted, its ends are the extremes. */
  method SummarizeInPlace(a: array<int>) returns (m: Summary)
    requires a.Length > 0
    modifies a
    ensures a[..] == Sort(old(a[..])) && m == Summarize(old(a[..]))
  {
    SummaryOfSorted(a[..]);
    SortSlice(a);
    var avg, jitter := MeanAndJitter(a);
    m := Summary(a[0], a[a.Length - 1], avg, jitter);
  }
}
