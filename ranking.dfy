/** Rank statistics the dashboard prints about the selected zip code:
    `get_percentile` (the share of zip codes strictly below a value), the
    rank `(column > x).sum() + 1` and the "better than" percentage. */
module Ranking {

  /** `(series < value).sum()` */
  function CountBelow(v: real, s: seq<real>): (n: nat)
    ensures n <= |s|
    ensures n == |s| <==> forall i :: 0 <= i < |s| ==> s[i] < v
  {
    if s == [] then 0
    else
      assert forall i :: 1 <= i < |s| ==> s[i] == s[1..][i - 1];
      (if s[0] < v then 1 else 0) + CountBelow(v, s[1..])
  }

  /** `(series > value).sum()` */
  function CountAbove(v: real, s: seq<real>): (n: nat)
    ensures n <= |s|
    ensures n == |s| <==> forall i :: 0 <= i < |s| ==> s[i] > v
  {
    if s == [] then 0
    else
      assert forall i :: 1 <= i < |s| ==> s[i] == s[1..][i - 1];
      (if s[0] > v then 1 else 0) + CountAbove(v, s[1..])
  }

  function CountEqual(v: real, s: seq<real>): (n: nat)
    ensures n <= |s|
  {
    if s == [] then 0 else (if s[0] == v then 1 else 0) + CountEqual(v, s[1..])
  }

  /** Every element is below, equal to or above v. */
  lemma {:induction false} CountPartition(v: real, s: seq<real>)
    ensures CountBelow(v, s) + CountEqual(v, s) + CountAbove(v, s) == |s|
  {
    if s != [] {
      CountPartition(v, s[1..]);
    }
  }

  lemma {:induction false} CountEqualOfMember(v: real, s: seq<real>, i: int)
    requires 0 <= i < |s| && s[i] == v
    ensures CountEqual(v, s) >= 1
  {
    if i > 0 {
      CountEqualOfMember(v, s[1..], i - 1);
    }
  }

  lemma {:induction false} CountBelowMonotone(v: real, w: real, s: seq<real>)
    requires v <= w
    ensures CountBelow(v, s) <= CountBelow(w, s)
  {
    if s != [] {
      CountBelowMonotone(v, w, s[1..]);
    }
  }

  lemma {:induction false} CountAboveAntitone(v: real, w: real, s: seq<real>)
    requires v <= w
    ensures CountAbove(w, s) <= CountAbove(v, s)
  {
    if s != [] {
      CountAboveAntitone(v, w, s[1..]);
    }
  }

  /** No element is below v exactly when v is at or below every element. */
  lemma {:induction false} CountBelowZero(v: real, s: seq<real>)
    ensures CountBelow(v, s) == 0 <==> forall i :: 0 <= i < |s| ==> v <= s[i]
  {
    if s != [] {
      CountBelowZero(v, s[1..]);
      assert forall i :: 1 <= i < |s| ==> s[i] == s[1..][i - 1];
    }
  }

  /** No element is above v exactly when v is at or above every element. */
  lemma {:induction false} CountAboveZero(v: real, s: seq<real>)
    ensures CountAbove(v, s) == 0 <==> forall i :: 0 <= i < |s| ==> s[i] <= v
  {
    if s != [] {
      CountAboveZero(v, s[1..]);
      assert forall i :: 1 <= i < |s| ==> s[i] == s[1..][i - 1];
    }
  }

  /** A strictly higher element y of s has strictly fewer elements above it than x. */
  lemma {:induction false} CountAboveStrict(x: real, s: seq<real>, i: int)
    requires 0 <= i < |s| && x < s[i]
    ensures CountAbove(s[i], s) < CountAbove(x, s)
  {
    if i == 0 {
      CountAboveAntitone(x, s[0], s[1..]);
    } else {
      CountAboveStrict(x, s[1..], i - 1);
      assert s[1..][i - 1] == s[i];
    }
  }

  /** `get_percentile(value, series)`: `int(count / len * 100)`; the count is
      non-negative, so Python's truncation is the floor. The result is the
      integer quotient of 100 times the count by the length. */
  function Percentile(v: real, s: seq<real>): (p: int)
    requires |s| > 0
    ensures p == (100 * CountBelow(v, s)) / |s|
  {
    var c, n := CountBelow(v, s), |s|;
    TruncatedShare(c, n);
    ((c as real) / (n as real) * 100.0).Floor
  }

  /** `int(c / n * 100)` on exact reals is the integer quotient of 100 * c by n. */
  lemma TruncatedShare(c: nat, n: nat)
    requires n > 0
    ensures ((c as real) / (n as real) * 100.0).Floor == (100 * c) / n
  {
    var x := (c as real) / (n as real) * 100.0;
    var q := (100 * c) / n;
    assert (100 * c) as real == (q as real) * (n as real) + ((100 * c) % n) as real;
    assert x * (n as real) == (100 * c) as real;
    FloorOfQuotient(x, q, n);
  }

  /** A real x with q * n <= x * n < (q + 1) * n has floor q. */
  lemma FloorOfQuotient(x: real, q: int, n: nat)
    requires n > 0
    requires (q as real) * (n as real) <= x * (n as real) < ((q + 1) as real) * (n as real)
    ensures x.Floor == q
  {
  }

  lemma PercentileBounds(v: real, s: seq<real>)
    requires |s| > 0
    ensures 0 <= Percentile(v, s) <= 100
  {
    var c, n := CountBelow(v, s), |s|;
    assert 100 * c <= 100 * n;
    DivAtMost(100 * c, n, 100);
  }

  /** a <= k * n implies a / n <= k. */
  lemma DivAtMost(a: nat, n: nat, k: nat)
    requires n > 0 && a <= k * n
    ensures a / n <= k
  {
  }

  /** a < k * n implies a / n < k. */
  lemma DivBelow(a: nat, n: nat, k: nat)
    requires n > 0 && a < k * n
    ensures a / n < k
  {
    if a / n >= k {
      MulLe(k, a / n, n);
    }
  }

  lemma MulLe(a: int, b: int, n: nat)
    requires a <= b
    ensures a * n <= b * n
  {
  }

  lemma DivMonotone(a: nat, b: nat, n: nat)
    requires n > 0 && a <= b
    ensures a / n <= b / n
  {
    if a / n > b / n {
      MulLe(b / n + 1, a / n, n);
    }
  }

  lemma MulDivCancel(k: nat, n: nat)
    requires n > 0
    ensures (k * n) / n == k
  {
    var q := (k * n) / n;
    if q < k {
      MulLe(q + 1, k, n);
    } else if q > k {
      MulLe(k + 1, q, n);
    }
  }

  /** A value at or below the series minimum is at percentile 0. */
  lemma PercentileOfMinimum(v: real, s: seq<real>)
    requires |s| > 0
    requires forall i :: 0 <= i < |s| ==> v <= s[i]
    ensures Percentile(v, s) == 0
  {
    CountBelowZero(v, s);
  }

  /** A value above every element of the series is at percentile 100. */
  lemma {:induction false} PercentileAboveAll(v: real, s: seq<real>)
    requires |s| > 0
    requires forall i :: 0 <= i < |s| ==> s[i] < v
    ensures Percentile(v, s) == 100
  {
    assert CountBelow(v, s) == |s|;
    MulDivCancel(100, |s|);
  }

  /** A value that occurs in the series is never at percentile 100. */
  lemma PercentileOfMemberBelowHundred(s: seq<real>, i: int)
    requires 0 <= i < |s|
    ensures Percentile(s[i], s) < 100
  {
    var v := s[i];
    CountPartition(v, s);
    CountEqualOfMember(v, s, i);
    DivBelow(100 * CountBelow(v, s), |s|, 100);
  }

  lemma PercentileMonotone(v: real, w: real, s: seq<real>)
    requires |s| > 0 && v <= w
    ensures Percentile(v, s) <= Percentile(w, s)
  {
    CountBelowMonotone(v, w, s);
    DivMonotone(100 * CountBelow(v, s), 100 * CountBelow(w, s), |s|);
  }

  /** The rank of a score in its column: one more than the number of
      strictly higher scores, so tied scores share a rank. */
  function Rank(x: real, s: seq<real>): (r: nat)
    ensures r >= 1
  {
    CountAbove(x, s) + 1
  }

  /** The rank of a row of the table lies between 1 and the number of rows. */
  lemma RankBounds(s: seq<real>, i: int)
    requires 0 <= i < |s|
    ensures 1 <= Rank(s[i], s) <= |s|
  {
    CountPartition(s[i], s);
    CountEqualOfMember(s[i], s, i);
  }

  /** Rank 1 means no score in the column is higher. */
  lemma RankOneIffMaximum(x: real, s: seq<real>)
    ensures Rank(x, s) == 1 <==> forall i :: 0 <= i < |s| ==> s[i] <= x
  {
    CountAboveZero(x, s);
  }

  /** A higher score never has a worse rank. */
  lemma RankMonotone(x: real, y: real, s: seq<real>)
    requires x <= y
    ensures Rank(y, s) <= Rank(x, s)
  {
    CountAboveAntitone(x, y, s);
  }

  /** A score of the column strictly higher than x has a strictly better rank. */
  lemma RankStrict(x: real, s: seq<real>, i: int)
    requires 0 <= i < |s| && x < s[i]
    ensures Rank(s[i], s) < Rank(x, s)
  {
    CountAboveStrict(x, s, i);
  }

  /** "Better than": `(len(df) - rank) / len(df) * 100`. */
  function BetterThanPct(rank: nat, n: nat): (pct: real)
    requires n > 0
    ensures 1 <= rank <= n ==> 0.0 <= pct < 100.0
  {
    var d := n as real;
    var share := ((n - rank) as real) / d * 100.0;
    assert ((n - rank) as real / d) * d == (n - rank) as real;
    share
  }

  /** For a row of the table the "better than" share counts the other rows
      not strictly above it: those below, plus the ties other than itself.
      Without ties it is exactly the share of rows below it, the quantity
      `get_percentile` truncates. */
  lemma BetterThanCountsRowsNotAbove(s: seq<real>, i: int)
    requires 0 <= i < |s|
    ensures BetterThanPct(Rank(s[i], s), |s|)
            == ((CountBelow(s[i], s) + CountEqual(s[i], s) - 1) as real) / (|s| as real) * 100.0
    ensures CountEqual(s[i], s) == 1 ==>
              BetterThanPct(Rank(s[i], s), |s|) == (CountBelow(s[i], s) as real) / (|s| as real) * 100.0
  {
    CountPartition(s[i], s);
    CountEqualOfMember(s[i], s, i);
  }
}
