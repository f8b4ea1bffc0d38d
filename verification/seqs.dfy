/** Integer sequences: sums and constant sequences, with the algebra the distributor needs. */
module Seqs {

  function Sum(s: seq<int>): int
    decreases |s|
  {
    if |s| == 0 then 0 else s[0] + Sum(s[1..])
  }

  function Zeros(n: nat): (r: seq<int>)
    ensures |r| == n
    ensures forall i :: 0 <= i < n ==> r[i] == 0
  {
    seq(n, _ => 0)
  }

  lemma {:induction false} SumAppend(a: seq<int>, b: seq<int>)
    ensures Sum(a + b) == Sum(a) + Sum(b)
    decreases |a|
  {
    if |a| == 0 {
      assert a + b == b;
    } else {
      assert (a + b)[1..] == a[1..] + b;
      SumAppend(a[1..], b);
    }
  }

  lemma {:induction false} SumZeros(n: nat)
    ensures Sum(Zeros(n)) == 0
    decreases n
  {
    if n > 0 {
      assert Zeros(n)[1..] == Zeros(n - 1);
      SumZeros(n - 1);
    }
  }

  lemma {:induction false} SumUpdate(s: seq<int>, i: int, v: int)
    requires 0 <= i < |s|
    ensures Sum(s[i := v]) == Sum(s) - s[i] + v
    decreases |s|
  {
    if i > 0 {
      assert s[i := v][1..] == s[1..][i - 1 := v];
      SumUpdate(s[1..], i - 1, v);
    }
  }

  /** A sum of non-negative terms each bounded by `b` is at most `|s| * b`. */
  lemma {:induction false} SumBounds(s: seq<int>, b: int)
    requires forall i :: 0 <= i < |s| ==> 0 <= s[i] <= b
    ensures 0 <= Sum(s) <= |s| * b
    decreases |s|
  {
    if |s| > 0 {
      SumBounds(s[1..], b);
    }
  }

  /** Summing `a[i] + b[i]` pointwise. */
  lemma {:induction false} SumPointwise(a: seq<int>, b: seq<int>, c: seq<int>)
    requires |a| == |b| == |c|
    requires forall i :: 0 <= i < |c| ==> c[i] == a[i] + b[i]
    ensures Sum(c) == Sum(a) + Sum(b)
    decreases |c|
  {
    if |c| > 0 {
      SumPointwise(a[1..], b[1..], c[1..]);
    }
  }

  /** Scaling every term scales the sum. */
  lemma {:induction false} SumScale(a: seq<int>, k: int, c: seq<int>)
    requires |a| == |c|
    requires forall i :: 0 <= i < |c| ==> c[i] == k * a[i]
    ensures Sum(c) == k * Sum(a)
    decreases |c|
  {
    if |c| > 0 {
      SumScale(a[1..], k, c[1..]);
      assert Sum(c) == k * a[0] + k * Sum(a[1..]);
    }
  }
}
