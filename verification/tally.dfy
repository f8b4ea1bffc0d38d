/**
 * A `Record<string, number>` built by repeated `target[key] = (target[key] || 0) + value`:
 * an insertion-ordered list of (key, count) pairs. `Get` reads the count of a
 * key (0 when absent), summing duplicates, so every property below holds
 * whether or not keys are distinct; `Add` keeps them distinct.
 */
module Tally {

  type Tally = seq<(string, int)>

  function Keys(t: Tally): set<string>
    decreases |t|
  {
    if |t| == 0 then {} else {t[0].0} + Keys(t[1..])
  }

  predicate DistinctKeys(t: Tally)
    decreases |t|
  {
    |t| == 0 || (t[0].0 !in Keys(t[1..]) && DistinctKeys(t[1..]))
  }

  /** The count recorded for `key`. */
  function Get(t: Tally, key: string): int
    decreases |t|
  {
    if |t| == 0 then 0 else (if t[0].0 == key then t[0].1 else 0) + Get(t[1..], key)
  }

  /** The sum of every recorded count. */
  function Total(t: Tally): int
    decreases |t|
  {
    if |t| == 0 then 0 else t[0].1 + Total(t[1..])
  }

  /** `t[key] = (t[key] || 0) + value`: a new key goes last, an existing one is updated in place. */
  function Add(t: Tally, key: string, value: int): (r: Tally)
    ensures forall k :: Get(r, k) == Get(t, k) + (if k == key then value else 0)
    ensures Keys(r) == Keys(t) + {key}
    ensures DistinctKeys(t) ==> DistinctKeys(r)
    ensures Total(r) == Total(t) + value
    decreases |t|
  {
    if |t| == 0 then [(key, value)]
    else if t[0].0 == key then [(key, t[0].1 + value)] + t[1..]
    else [t[0]] + Add(t[1..], key, value)
  }

  /** A key absent from the tally reads as 0. */
  lemma {:induction false} GetAbsent(t: Tally, key: string)
    requires key !in Keys(t)
    ensures Get(t, key) == 0
    decreases |t|
  {
    if |t| > 0 {
      GetAbsent(t[1..], key);
    }
  }

  /** Insertion order: updating a key already present keeps every position; a new key is appended. */
  lemma {:induction false} AddKeepsOrder(t: Tally, key: string, value: int)
    ensures key in Keys(t) ==> |Add(t, key, value)| == |t| && forall i :: 0 <= i < |t| ==> Add(t, key, value)[i].0 == t[i].0
    ensures key !in Keys(t) ==> Add(t, key, value) == t + [(key, value)]
    decreases |t|
  {
    if |t| > 0 && t[0].0 != key {
      AddKeepsOrder(t[1..], key, value);
    }
  }

  /** `addAdditionalBreakdown(target, source)`: every entry of `source` added in order. */
  function AddAll(target: Tally, source: Tally): (r: Tally)
    ensures forall k :: Get(r, k) == Get(target, k) + Get(source, k)
    ensures Keys(r) == Keys(target) + Keys(source)
    ensures DistinctKeys(target) ==> DistinctKeys(r)
    decreases |source|
  {
    if |source| == 0 then target
    else AddAll(Add(target, source[0].0, source[0].1), source[1..])
  }
}
