/** Shared vocabulary of the model: result wrappers, JavaScript's Math.round on
    rationals, first-occurrence grouping of keys, ASCII lower-casing and the
    decimal rendering of numbers inside template strings. */
module Common {

  datatype Option<+T> = None | Some(value: T)

  /** The `{ success, data }` / `{ success: false, error }` objects every service returns. */
  datatype Outcome<+T> = Success(data: T) | Failure(error: string)

  const NotAuthenticated: string := "User not authenticated"

  /** Identifier of a record in the `users` collection. */
  type UserId = string

  /** A calendar date, counted in days; stands for a `YYYY-MM-DD` string. */
  type Day = int

  // ---------------------------------------------------------------------------
  // Math.round
  // ---------------------------------------------------------------------------

  /** Math.round(a / b) for b > 0: the integer nearest to a/b, halves rounded up. */
  function Round(a: int, b: int): (r: int)
    requires b > 0
    ensures 2 * b * r <= 2 * a + b < 2 * b * r + 2 * b
  {
    var q := (2 * a + b) / (2 * b);
    DivBounds(2 * a + b, 2 * b);
    q
  }

  /** Math.round(a / b) for a divisor of either sign. */
  function RoundQuotient(a: int, b: int): (r: int)
    requires b != 0
    ensures b > 0 ==> r == Round(a, b)
    ensures b < 0 ==> r == Round(-a, -b)
  {
    if b > 0 then Round(a, b) else Round(-a, -b)
  }

  /** A non-negative quotient never rounds below zero. */
  lemma RoundNonNegative(a: int, b: int)
    requires a >= 0 && b > 0
    ensures Round(a, b) >= 0
  {
    var r := Round(a, b);
    assert 2 * b * (-1) < 2 * b * r;
    MulStrictMonotone(2 * b, -1, r);
  }

  lemma DivBounds(x: int, d: int)
    requires d > 0
    ensures d * (x / d) <= x < d * (x / d) + d
  {
  }

  lemma MulStrictMonotone(n: int, x: int, y: int)
    requires n > 0 && n * x < n * y
    ensures x < y
  {
  }

  /** A rounded average never leaves the range of the averaged values: if the
      total of n values in [lo, hi] is t, then Math.round(t / n) is in [lo, hi]. */
  lemma RoundWithin(t: int, n: int, lo: int, hi: int)
    requires n > 0 && n * lo <= t <= n * hi
    ensures lo <= Round(t, n) <= hi
  {
    var r := Round(t, n);
    assert 2 * n * r <= 2 * t + n;
    assert 2 * n * r < 2 * n * (hi + 1) by {
      assert 2 * n * (hi + 1) == 2 * (n * hi) + 2 * n;
    }
    MulStrictMonotone(2 * n, r, hi + 1);
    assert 2 * n * (lo - 1) < 2 * n * (r + 1) - 2 * n by {
      assert 2 * n * (lo - 1) == 2 * (n * lo) - 2 * n;
      assert 2 * n * (r + 1) - 2 * n == 2 * n * r;
    }
    assert 2 * n * lo < 2 * n * (r + 1) by {
      assert 2 * n * lo == 2 * (n * lo);
      assert 2 * n * (r + 1) == 2 * n * r + 2 * n;
    }
    MulStrictMonotone(2 * n, lo, r + 1);
  }

  // ---------------------------------------------------------------------------
  // Grouping by key, in first-occurrence order
  // ---------------------------------------------------------------------------

  predicate Distinct<K(==)>(ds: seq<K>) {
    forall i, j :: 0 <= i < j < |ds| ==> ds[i] != ds[j]
  }

  /** Index of the first occurrence of k in ks. */
  function FirstIndex<K(==)>(ks: seq<K>, k: K): (i: nat)
    requires k in ks
    ensures i < |ks| && ks[i] == k
    ensures forall j :: 0 <= j < i ==> ks[j] != k
  {
    if ks[0] == k then 0 else 1 + FirstIndex(ks[1..], k)
  }

  lemma {:induction false} FirstIndexSnoc<K>(ks: seq<K>, x: K, k: K)
    requires k in ks
    ensures FirstIndex(ks + [x], k) == FirstIndex(ks, k)
  {
    if ks[0] != k {
      assert (ks + [x])[1..] == ks[1..] + [x];
      FirstIndexSnoc(ks[1..], x, k);
    }
  }

  /** The keys of ks, each once, in the order in which they first occur:
      the key order of a JavaScript object filled by walking ks. */
  function FirstOccurrences<K(==)>(ks: seq<K>): seq<K> {
    if ks == [] then []
    else
      var ds0 := FirstOccurrences(ks[..|ks| - 1]);
      if ks[|ks| - 1] in ds0 then ds0 else ds0 + [ks[|ks| - 1]]
  }

  /** Every key of ks is listed, nothing else is, and each once. */
  lemma {:induction false} FirstOccurrencesFacts<K>(ks: seq<K>)
    ensures forall k :: k in FirstOccurrences(ks) <==> k in ks
    ensures Distinct(FirstOccurrences(ks))
    ensures |FirstOccurrences(ks)| <= |ks|
  {
    if ks != [] {
      var pre, x := ks[..|ks| - 1], ks[|ks| - 1];
      FirstOccurrencesFacts(pre);
      assert ks == pre + [x];
    }
  }

  lemma FirstOccurrencesSnoc<K>(ks: seq<K>, x: K)
    ensures x in FirstOccurrences(ks) <==> x in ks
    ensures FirstOccurrences(ks + [x]) ==
      if x in ks then FirstOccurrences(ks) else FirstOccurrences(ks) + [x]
  {
    FirstOccurrencesFacts(ks);
    assert (ks + [x])[..|ks|] == ks;
  }

  /** Keys come out ordered by where they first occur in the input. */
  lemma {:induction false} FirstOccurrencesOrdered<K>(ks: seq<K>)
    ensures forall i, j :: 0 <= i < j < |FirstOccurrences(ks)| ==>
      && FirstOccurrences(ks)[i] in ks && FirstOccurrences(ks)[j] in ks
      && FirstIndex(ks, FirstOccurrences(ks)[i]) < FirstIndex(ks, FirstOccurrences(ks)[j])
  {
    FirstOccurrencesFacts(ks);
    if ks != [] {
      var pre, x := ks[..|ks| - 1], ks[|ks| - 1];
      assert ks == pre + [x];
      var ds0 := FirstOccurrences(pre);
      FirstOccurrencesFacts(pre);
      FirstOccurrencesOrdered(pre);
      forall k | k in pre ensures FirstIndex(ks, k) == FirstIndex(pre, k) {
        FirstIndexSnoc(pre, x, k);
      }
      if x !in ds0 {
        var ds := ds0 + [x];
        assert FirstIndex(ks, x) == |pre|;
        forall i, j | 0 <= i < j < |ds|
          ensures FirstIndex(ks, ds[i]) < FirstIndex(ks, ds[j])
        {
          assert ds[i] in ds0;
          if j < |ds0| {
            assert ds[j] in ds0;
          }
        }
      }
    }
  }

  /** The distinct keys of a non-decreasing sequence come out strictly
      increasing. */
  lemma {:induction false} FirstOccurrencesAscending(ks: seq<int>)
    requires forall i, j :: 0 <= i < j < |ks| ==> ks[i] <= ks[j]
    ensures forall i, j :: 0 <= i < j < |FirstOccurrences(ks)| ==> FirstOccurrences(ks)[i] < FirstOccurrences(ks)[j]
  {
    if ks != [] {
      var pre, x := ks[..|ks| - 1], ks[|ks| - 1];
      FirstOccurrencesAscending(pre);
      FirstOccurrencesFacts(pre);
      var ds0 := FirstOccurrences(pre);
      if x !in ds0 {
        forall j | 0 <= j < |ds0| ensures ds0[j] < x {
          assert ds0[j] in ds0;
          var i :| 0 <= i < |pre| && pre[i] == ds0[j];
          assert ks[i] <= ks[|ks| - 1];
        }
      }
    }
  }

  /** Number of occurrences of k in ks. */
  function CountOf<K(==)>(ks: seq<K>, k: K): (n: nat)
    ensures n <= |ks|
    ensures n > 0 <==> k in ks
  {
    if ks == [] then 0
    else CountOf(ks[..|ks| - 1], k) + (if ks[|ks| - 1] == k then 1 else 0)
  }

  /** Sum of the counts of the keys ds in ks. */
  function SumCounts<K(==)>(ks: seq<K>, ds: seq<K>): nat
  {
    if ds == [] then 0 else CountOf(ks, ds[0]) + SumCounts(ks, ds[1..])
  }

  lemma {:induction false} SumCountsAppend<K>(ks: seq<K>, a: seq<K>, b: seq<K>)
    ensures SumCounts(ks, a + b) == SumCounts(ks, a) + SumCounts(ks, b)
  {
    if a != [] {
      assert (a + b)[0] == a[0];
      assert (a + b)[1..] == a[1..] + b;
      SumCountsAppend(ks, a[1..], b);
    } else {
      assert a + b == b;
    }
  }

  lemma {:induction false} SumCountsSnoc<K>(ks: seq<K>, x: K, ds: seq<K>)
    requires Distinct(ds)
    ensures SumCounts(ks + [x], ds) == SumCounts(ks, ds) + (if x in ds then 1 else 0)
  {
    if ds != [] {
      assert (ks + [x])[..|ks + [x]| - 1] == ks;
      assert Distinct(ds[1..]) by {
        forall i, j | 0 <= i < j < |ds[1..]| ensures ds[1..][i] != ds[1..][j] {
          assert ds[1..][i] == ds[i + 1] && ds[1..][j] == ds[j + 1];
        }
      }
      SumCountsSnoc(ks, x, ds[1..]);
      assert x in ds <==> x == ds[0] || x in ds[1..];
      assert forall j :: 0 <= j < |ds[1..]| ==> ds[1..][j] != ds[0];
    }
  }

  /** Every element is counted under exactly one key: the counts of the
      distinct keys add up to the length of the input. */
  lemma {:induction false} SumCountsFirstOccurrences<K>(ks: seq<K>)
    ensures SumCounts(ks, FirstOccurrences(ks)) == |ks|
  {
    if ks != [] {
      var pre, x := ks[..|ks| - 1], ks[|ks| - 1];
      assert ks == pre + [x];
      var ds0 := FirstOccurrences(pre);
      FirstOccurrencesFacts(pre);
      SumCountsFirstOccurrences(pre);
      SumCountsSnoc(pre, x, ds0);
      if x !in ds0 {
        SumCountsAppend(ks, ds0, [x]);
        assert CountOf(pre, x) == 0;
        assert SumCounts(ks, [x]) == CountOf(ks, x);
      }
    }
  }

  // ---------------------------------------------------------------------------
  // Strings
  // ---------------------------------------------------------------------------

  /** Lower case of one character, for the ASCII letters. */
  function LowerChar(c: char): char {
    if 'A' <= c <= 'Z' then (c as int - 'A' as int + 'a' as int) as char else c
  }

  /** String.prototype.toLowerCase, restricted to the ASCII letters. */
  function ToLower(s: string): (r: string)
    ensures |r| == |s|
    ensures forall i :: 0 <= i < |s| ==> r[i] == LowerChar(s[i])
  {
    seq(|s|, i requires 0 <= i < |s| => LowerChar(s[i]))
  }

  predicate IsDigit(c: char) { '0' <= c <= '9' }

  /** The decimal text of n, as a template literal `${n}` writes it. */
  function NatToString(n: nat): (s: string)
    ensures |s| >= 1
    ensures forall i :: 0 <= i < |s| ==> IsDigit(s[i])
    ensures n > 0 ==> s[0] != '0'
  {
    if n < 10 then [('0' as int + n) as char]
    else NatToString(n / 10) + [('0' as int + n % 10) as char]
  }

  /** Reads a string of decimal digits back as a number. */
  function DigitsValue(s: string): int
    requires forall i :: 0 <= i < |s| ==> IsDigit(s[i])
  {
    if s == [] then 0 else DigitsValue(s[..|s| - 1]) * 10 + (s[|s| - 1] as int - '0' as int)
  }

  /** The rendering is faithful: reading it back gives the number. */
  lemma {:induction false} NatToStringRoundTrip(n: nat)
    ensures DigitsValue(NatToString(n)) == n
  {
    if n >= 10 {
      var s := NatToString(n);
      assert s[..|s| - 1] == NatToString(n / 10);
      NatToStringRoundTrip(n / 10);
    }
  }

  /** Distinct numbers are rendered as distinct strings. */
  lemma NatToStringInjective(m: nat, n: nat)
    requires NatToString(m) == NatToString(n)
    ensures m == n
  {
    NatToStringRoundTrip(m);
    NatToStringRoundTrip(n);
  }
}
