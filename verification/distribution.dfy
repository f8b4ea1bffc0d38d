/**
 * The largest-remainder split `distributeIntegerByWeights` of the token-usage
 * service: a non-negative integer total is divided among weighted slots so that
 * every slot gets the floor of its exact share, and the units lost to flooring
 * are handed out one at a time to the slots with the largest fractional parts.
 *
 * Arithmetic is exact. The source divides JavaScript doubles; here
 * `floor(total * w / sum)` is `FloorDiv`, and since every fractional part has
 * the same denominator `|sum|`, comparing fractional parts is comparing the
 * numerators `FracKey`.
 */
module Distribution {
  import opened Seqs

  /** floor(x / s) over the rationals, for either sign of `s`. */
  function FloorDiv(x: int, s: int): int
    requires s != 0
  {
    if s > 0 then x / s else (-x) / (-s)
  }

  /** The fractional part of x / s, as a numerator over |s|. */
  function FracKey(x: int, s: int): int
    requires s != 0
  {
    if s > 0 then x % s else (-x) % (-s)
  }

  /** FloorDiv is the floor of x / s and FracKey its fractional part scaled by |s|. */
  lemma FloorDivIsFloor(x: int, s: int)
    requires s != 0
    ensures s > 0 ==> FloorDiv(x, s) * s <= x < FloorDiv(x, s) * s + s
    ensures s < 0 ==> FloorDiv(x, s) * s >= x > FloorDiv(x, s) * s + s
    ensures 0 <= FracKey(x, s) < (if s > 0 then s else -s)
    ensures (if s > 0 then s else -s) * FloorDiv(x, s) + FracKey(x, s) == (if s > 0 then x else -x)
  {
  }

  /** `Math.floor((total * weight) / sum)` for every weight. */
  function Shares(total: int, weights: seq<int>, sum: int): (r: seq<int>)
    requires sum != 0
    ensures |r| == |weights|
    ensures forall i :: 0 <= i < |weights| ==> r[i] == FloorDiv(total * weights[i], sum)
  {
    seq(|weights|, i requires 0 <= i < |weights| => FloorDiv(total * weights[i], sum))
  }

  /** The fractional part of every exact share, scaled by |sum|. */
  function FracKeys(total: int, weights: seq<int>, sum: int): (r: seq<int>)
    requires sum != 0
    ensures |r| == |weights|
    ensures forall i :: 0 <= i < |weights| ==> r[i] == FracKey(total * weights[i], sum)
  {
    seq(|weights|, i requires 0 <= i < |weights| => FracKey(total * weights[i], sum))
  }

  /**
   * The order of the source's `sort((a, b) => b.fractional - a.fractional)`:
   * slot `i` comes before slot `j` when its fractional part is larger, and on
   * equal fractional parts (the sort is stable) when its index is smaller.
   */
  predicate Before(keys: seq<int>, i: int, j: int) {
    && 0 <= i < |keys| && 0 <= j < |keys|
    && (keys[i] > keys[j] || (keys[i] == keys[j] && i < j))
  }

  predicate Sorted(keys: seq<int>, order: seq<int>) {
    forall a, b :: 0 <= a < b < |order| ==> Before(keys, order[a], order[b])
  }

  /** Inserts slot `x` in front of the first slot it comes before. */
  function Insert(keys: seq<int>, x: int, order: seq<int>): (r: seq<int>)
    requires 0 <= x < |keys|
    requires Sorted(keys, order) && x !in order
    requires forall y :: y in order ==> 0 <= y < |keys|
    ensures |r| == |order| + 1
    ensures forall y :: y in r <==> y == x || y in order
    ensures Sorted(keys, r)
    decreases |order|
  {
    if |order| == 0 then [x]
    else if Before(keys, x, order[0]) then [x] + order
    else
      var rest := Insert(keys, x, order[1..]);
      assert forall y :: y in rest ==> Before(keys, order[0], y) by {
        forall y | y in rest ensures Before(keys, order[0], y) {
          assert order[0] in order;
          if y != x {
            assert y in order[1..];
            var b :| 0 <= b < |order[1..]| && order[1..][b] == y;
            assert order[b + 1] == y;
          }
        }
      }
      [order[0]] + rest
  }

  /** Slots `0 .. k-1` in the source's sort order. */
  function Order(keys: seq<int>, k: nat): (r: seq<int>)
    requires k <= |keys|
    ensures |r| == k
    ensures forall y :: y in r <==> 0 <= y < k
    ensures forall p :: 0 <= p < |r| ==> 0 <= r[p] < k
    ensures Sorted(keys, r)
    decreases k
  {
    if k == 0 then []
    else
      var r := Insert(keys, k - 1, Order(keys, k - 1));
      assert forall p :: 0 <= p < |r| ==> r[p] in r;
      r
  }

  /**
   * The source's remainder loop: while units remain, give one to slot
   * `order[idx % order.length]` and move on.
   */
  function HandOut(alloc: seq<int>, order: seq<int>, remainder: int, idx: nat): (r: seq<int>)
    requires |order| > 0
    requires forall p :: 0 <= p < |order| ==> 0 <= order[p] < |alloc|
    ensures |r| == |alloc|
    decreases remainder
  {
    if remainder <= 0 then alloc
    else
      var slot := order[idx % |order|];
      HandOut(alloc[slot := alloc[slot] + 1], order, remainder - 1, idx + 1)
  }

  /** `distributeIntegerByWeights(total, weights)`. */
  function Distribute(total: int, weights: seq<int>): (r: seq<int>)
    ensures |r| == |weights|
  {
    if total <= 0 || |weights| == 0 then Zeros(|weights|)
    else
      var sum := Sum(weights);
      if sum == 0 then [total] + Zeros(|weights| - 1)
      else
        var base := Shares(total, weights, sum);
        var remainder := total - Sum(base);
        if remainder > 0 then HandOut(base, Order(FracKeys(total, weights, sum), |weights|), remainder, 0)
        else base
  }

  // ---------------------------------------------------------------------------
  // Properties

  /** The remainder loop adds exactly `remainder` units. */
  lemma {:induction false} HandOutSum(alloc: seq<int>, order: seq<int>, remainder: int, idx: nat)
    requires |order| > 0
    requires forall p :: 0 <= p < |order| ==> 0 <= order[p] < |alloc|
    ensures Sum(HandOut(alloc, order, remainder, idx)) == Sum(alloc) + (if remainder > 0 then remainder else 0)
    decreases remainder
  {
    if remainder > 0 {
      var slot := order[idx % |order|];
      SumUpdate(alloc, slot, alloc[slot] + 1);
      HandOutSum(alloc[slot := alloc[slot] + 1], order, remainder - 1, idx + 1);
    }
  }

  /**
   * When the units to hand out do not wrap around the order, slot `i` gets one
   * unit exactly when it is among `order[idx .. idx + remainder]`.
   */
  lemma {:induction false} HandOutOnce(alloc: seq<int>, order: seq<int>, remainder: nat, idx: nat, i: int)
    requires |order| > 0 && idx + remainder <= |order|
    requires forall p :: 0 <= p < |order| ==> 0 <= order[p] < |alloc|
    requires forall a, b :: 0 <= a < b < |order| ==> order[a] != order[b]
    requires 0 <= i < |alloc|
    ensures HandOut(alloc, order, remainder, idx)[i] == alloc[i] + (if i in order[idx..idx + remainder] then 1 else 0)
    decreases remainder
  {
    if remainder > 0 {
      var slot := order[idx % |order|];
      assert idx % |order| == idx;
      var next := alloc[slot := alloc[slot] + 1];
      HandOutOnce(next, order, remainder - 1, idx + 1, i);
      assert order[idx..idx + remainder] == [slot] + order[idx + 1..idx + remainder];
      if i == slot {
        var rest := order[idx + 1..idx + remainder];
        forall b | 0 <= b < |rest| ensures rest[b] != i {
          assert rest[b] == order[idx + 1 + b];
        }
        assert i !in rest;
      }
    }
  }

  /** |sum|, the common denominator of every fractional part. */
  function Denominator(sum: int): (d: int)
    requires sum != 0
    ensures d > 0 && (d == sum || d == -sum)
  {
    if sum > 0 then sum else -sum
  }

  /** Every exact share, scaled by |sum|, is its floor times |sum| plus its fractional key. */
  lemma ShareIdentity(total: int, weights: seq<int>, sum: int, i: int)
    requires sum != 0 && 0 <= i < |weights|
    ensures Denominator(sum) * Shares(total, weights, sum)[i] + FracKeys(total, weights, sum)[i]
            == (if sum > 0 then total * weights[i] else -(total * weights[i]))
    ensures 0 <= FracKeys(total, weights, sum)[i] < Denominator(sum)
  {
    FloorDivIsFloor(total * weights[i], sum);
  }

  /** The keys add up to |sum| times the units lost to flooring. */
  lemma KeysSumToRemainder(total: int, weights: seq<int>)
    requires Sum(weights) != 0
    ensures Denominator(Sum(weights)) * (total - Sum(Shares(total, weights, Sum(weights))))
            == Sum(FracKeys(total, weights, Sum(weights)))
  {
    var sum := Sum(weights);
    var n := |weights|;
    var d := Denominator(sum);
    var k := if sum > 0 then total else -total;
    var base := Shares(total, weights, sum);
    var keys := FracKeys(total, weights, sum);
    var xs := seq(n, i requires 0 <= i < n => k * weights[i]);
    var scaled := seq(n, i requires 0 <= i < n => d * base[i]);
    SplitEachShare(total, weights, sum, k, xs, scaled);
    SumPointwise(scaled, keys, xs);
    SumScale(base, d, scaled);
    SumScale(weights, k, xs);
    SignProduct(total, sum);
    Rearrange(d, total, Sum(base), Sum(keys), Sum(xs));
  }

  /** Each scaled exact share splits into its scaled floor and its key. */
  lemma SplitEachShare(total: int, weights: seq<int>, sum: int, k: int, xs: seq<int>, scaled: seq<int>)
    requires sum != 0 && k == (if sum > 0 then total else -total)
    requires |xs| == |weights| && forall i :: 0 <= i < |xs| ==> xs[i] == k * weights[i]
    requires |scaled| == |weights| && forall i :: 0 <= i < |scaled| ==> scaled[i] == Denominator(sum) * Shares(total, weights, sum)[i]
    ensures forall i :: 0 <= i < |xs| ==> xs[i] == scaled[i] + FracKeys(total, weights, sum)[i]
  {
    forall i | 0 <= i < |xs| ensures xs[i] == scaled[i] + FracKeys(total, weights, sum)[i] {
      ShareIdentity(total, weights, sum, i);
      NegateProduct(total, weights[i], sum > 0);
    }
  }

  lemma NegateProduct(a: int, b: int, positive: bool)
    ensures (if positive then a else -a) * b == (if positive then a * b else -(a * b))
  {
  }

  lemma SignProduct(total: int, sum: int)
    requires sum != 0
    ensures (if sum > 0 then total else -total) * sum == Denominator(sum) * total
  {
  }

  lemma Rearrange(d: int, total: int, sb: int, sk: int, sx: int)
    requires sx == d * total && sx == d * sb + sk
    ensures d * (total - sb) == sk
  {
  }

  /** d * rem is a sum of n keys each in [0, d): so rem is in [0, n). */
  lemma RemainderFromKeys(d: int, remainder: int, n: int, sk: int)
    requires d > 0 && n > 0
    requires d * remainder == sk && 0 <= sk <= n * (d - 1)
    ensures 0 <= remainder < n
  {
    assert d * remainder < d * n;
  }

  /**
   * The units lost to flooring are fewer than the number of slots: with exact
   * arithmetic the shares sum to `total`, so the floors lose less than one
   * unit per slot, whatever the signs of the weights.
   */
  lemma RemainderBounds(total: int, weights: seq<int>)
    requires Sum(weights) != 0
    ensures 0 <= total - Sum(Shares(total, weights, Sum(weights))) < |weights|
  {
    var sum := Sum(weights);
    var d := Denominator(sum);
    var keys := FracKeys(total, weights, sum);
    var remainder := total - Sum(Shares(total, weights, sum));
    KeysSumToRemainder(total, weights);
    forall i | 0 <= i < |weights| ensures 0 <= keys[i] <= d - 1 {
      ShareIdentity(total, weights, sum, i);
    }
    SumBounds(keys, d - 1);
    RemainderFromKeys(d, remainder, |weights|, Sum(keys));
  }

  /**
   * For a positive total and a non-zero weight sum: the split conserves the
   * total, every slot gets the floor of its exact share or one more, and a
   * slot that got the extra unit has a larger fractional part than one that
   * did not (or an equal one and a smaller index).
   */
  lemma {:induction false} DistributeLargestRemainder(total: int, weights: seq<int>)
    requires total > 0 && |weights| > 0 && Sum(weights) != 0
    ensures var r := Distribute(total, weights);
            var sum := Sum(weights);
            && Sum(r) == total
            && (forall i :: 0 <= i < |weights| ==>
                  r[i] == FloorDiv(total * weights[i], sum) || r[i] == FloorDiv(total * weights[i], sum) + 1)
            && (forall i, j :: 0 <= i < |weights| && 0 <= j < |weights|
                  && r[i] == FloorDiv(total * weights[i], sum) + 1 && r[j] == FloorDiv(total * weights[j], sum)
                  ==> Before(FracKeys(total, weights, sum), i, j))
  {
    var sum := Sum(weights);
    var n := |weights|;
    var base := Shares(total, weights, sum);
    var keys := FracKeys(total, weights, sum);
    var remainder := total - Sum(base);
    RemainderBounds(total, weights);
    if remainder > 0 {
      HandOutLargest(base, keys, Order(keys, n), remainder);
    }
  }

  /**
   * Handing out fewer units than there are slots along a sorted order of all
   * slots adds the units, at most one per slot, and every slot that got one
   * comes before every slot that did not.
   */
  lemma HandOutLargest(base: seq<int>, keys: seq<int>, order: seq<int>, remainder: int)
    requires |keys| == |base| && |order| == |base| && 0 < remainder < |base|
    requires Sorted(keys, order)
    requires forall y :: y in order <==> 0 <= y < |base|
    requires forall p :: 0 <= p < |order| ==> 0 <= order[p] < |base|
    ensures var r := HandOut(base, order, remainder, 0);
            && Sum(r) == Sum(base) + remainder
            && (forall i :: 0 <= i < |base| ==> r[i] == base[i] || r[i] == base[i] + 1)
            && (forall i, j :: 0 <= i < |base| && 0 <= j < |base| && r[i] == base[i] + 1 && r[j] == base[j]
                  ==> Before(keys, i, j))
  {
    var n := |base|;
    var r := HandOut(base, order, remainder, 0);
    HandOutSum(base, order, remainder, 0);
    forall a, b | 0 <= a < b < |order| ensures order[a] != order[b] {
      assert Before(keys, order[a], order[b]);
    }
    forall i | 0 <= i < n ensures r[i] == base[i] + (if i in order[..remainder] then 1 else 0) {
      HandOutOnce(base, order, remainder, 0, i);
      assert order[0..0 + remainder] == order[..remainder];
    }
    forall i, j | 0 <= i < n && 0 <= j < n && r[i] == base[i] + 1 && r[j] == base[j]
      ensures Before(keys, i, j)
    {
      var p :| 0 <= p < remainder && order[p] == i;
      assert j in order;
      var q :| 0 <= q < n && order[q] == j;
      forall b | 0 <= b < remainder ensures order[b] != j {
        assert order[..remainder][b] == order[b];
      }
    }
  }

  /** A non-positive total or no slots: every slot gets 0. */
  lemma NothingToSplit(total: int, weights: seq<int>)
    requires total <= 0 || |weights| == 0
    ensures forall i :: 0 <= i < |weights| ==> Distribute(total, weights)[i] == 0
  {
  }

  /** Weights summing to zero: the whole positive total goes to the first slot. */
  lemma {:induction false} ZeroWeightSumGoesFirst(total: int, weights: seq<int>)
    requires total > 0 && |weights| > 0 && Sum(weights) == 0
    ensures Distribute(total, weights)[0] == total
    ensures forall i :: 1 <= i < |weights| ==> Distribute(total, weights)[i] == 0
    ensures Sum(Distribute(total, weights)) == total
  {
    SumZeros(|weights| - 1);
    SumAppend([total], Zeros(|weights| - 1));
  }

  /** Conservation: a non-negative total over a non-empty weight list is split without loss. */
  lemma Conservation(total: int, weights: seq<int>)
    requires total >= 0 && |weights| > 0
    ensures Sum(Distribute(total, weights)) == total
  {
    if total == 0 {
      SumZeros(|weights|);
    } else if Sum(weights) == 0 {
      ZeroWeightSumGoesFirst(total, weights);
    } else {
      DistributeLargestRemainder(total, weights);
    }
  }

  /** With non-negative weights and a positive sum no slot gets a negative share. */
  lemma {:induction false} NonNegativeShares(total: int, weights: seq<int>)
    requires total >= 0 && |weights| > 0
    requires forall i :: 0 <= i < |weights| ==> weights[i] >= 0
    ensures forall i :: 0 <= i < |weights| ==> Distribute(total, weights)[i] >= 0
  {
    if total > 0 && Sum(weights) != 0 {
      DistributeLargestRemainder(total, weights);
      NonNegativeSum(weights);
      SharesNonNegative(total, weights, Sum(weights));
    }
  }

  lemma SharesNonNegative(total: int, weights: seq<int>, sum: int)
    requires total >= 0 && sum > 0
    requires forall i :: 0 <= i < |weights| ==> weights[i] >= 0
    ensures forall i :: 0 <= i < |weights| ==> FloorDiv(total * weights[i], sum) >= 0
  {
    forall i | 0 <= i < |weights| ensures FloorDiv(total * weights[i], sum) >= 0 {
      ProductNonNegative(total, weights[i]);
    }
  }

  lemma ProductNonNegative(a: int, b: int)
    requires a >= 0 && b >= 0
    ensures a * b >= 0
  {
  }

  lemma {:induction false} NonNegativeSum(s: seq<int>)
    requires forall i :: 0 <= i < |s| ==> s[i] >= 0
    ensures Sum(s) >= 0
    decreases |s|
  {
    if |s| > 0 {
      NonNegativeSum(s[1..]);
    }
  }

  /** The worked example: 150 split 2 : 1 is 100 and 50. */
  lemma ExampleSplit()
    ensures Distribute(150, [2, 1]) == [100, 50]
  {
    assert Sum([2, 1]) == 3;
    assert Shares(150, [2, 1], 3) == [100, 50];
  }
}
