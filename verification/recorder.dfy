/**
 * The pure core of `recordTokenUsage`: usage entries are extracted from every
 * payload, their derived metrics are summed into one execution record, the
 * credential accesses are grouped, and every counter and breakdown key of the
 * execution is split across the groups in proportion to how often each
 * credential was used. What would be written to the database is returned as
 * an `Outcome` instead.
 */
module Recorder {
  import opened Wrappers
  import opened Seqs
  import opened Payload
  import opened Tally
  import opened Metrics
  import opened Derivation
  import opened Extraction
  import opened Distribution

  // ---------------------------------------------------------------------------
  // Aggregation

  /**
   * `usagePayloads.flatMap(extractUsageEntriesFromPayload)`: the payloads are
   * walked one after another, exactly as the items of one array would be.
   */
  function ExtractAll(payloads: seq<Json>): (r: seq<Entry>)
    ensures |payloads| == 0 ==> r == []
    ensures r == Walk(Arr(payloads), None)
  {
    ArrayConcatenates(payloads, None);
    WalkAll(payloads, None)
  }

  /** `flatMap` over one payload is that payload's extraction. */
  lemma ExtractOne(payload: Json)
    ensures ExtractAll([payload]) == Extract(payload)
  {
    assert [payload][0] == payload && [payload][1..] == [];
    assert WalkAll([payload], None) == Walk(payload, None) + WalkAll([], None);
  }

  /** `flatMap` over two lists of payloads concatenates their entries, in order. */
  lemma ExtractAllAppend(a: seq<Json>, b: seq<Json>)
    ensures ExtractAll(a + b) == ExtractAll(a) + ExtractAll(b)
  {
    WalkAllAppend(a, b, None);
  }

  /** `entry.model || 'unknown'`. */
  function ModelKey(e: Entry): string {
    if e.model.Some? && e.model.value != "" then e.model.value else "unknown"
  }

  /** Each entry with its model key and its derived metrics, in order. */
  function Derived(entries: seq<Entry>): (r: seq<(string, Metrics)>)
    ensures |r| == |entries|
    ensures forall i :: 0 <= i < |entries| ==> r[i] == (ModelKey(entries[i]), Derive(entries[i].usage))
  {
    seq(|entries|, i requires 0 <= i < |entries| => (ModelKey(entries[i]), Derive(entries[i].usage)))
  }

  /** The column of one counter over the derived metrics. */
  function Column(ds: seq<(string, Metrics)>, f: Field): (r: seq<int>)
    ensures |r| == |ds| && forall i :: 0 <= i < |ds| ==> r[i] == ds[i].1.Get(f)
  {
    seq(|ds|, i requires 0 <= i < |ds| => ds[i].1.Get(f))
  }

  /** The column of one breakdown key over the derived metrics. */
  function KeyColumn(ds: seq<(string, Metrics)>, key: string): (r: seq<int>)
    ensures |r| == |ds| && forall i :: 0 <= i < |ds| ==> r[i] == Get(ds[i].1.additionalBreakdown, key)
  {
    seq(|ds|, i requires 0 <= i < |ds| => Get(ds[i].1.additionalBreakdown, key))
  }

  /** The aggregated metrics: `addMetrics(aggregatedMetrics, usageMetrics)` over the entries, in order. */
  function Aggregate(ds: seq<(string, Metrics)>): (r: Metrics)
    ensures DistinctKeys(r.additionalBreakdown)
    decreases |ds|
  {
    if |ds| == 0 then Empty else AddMetrics(Aggregate(ds[..|ds| - 1]), ds[|ds| - 1].1)
  }

  /** `modelTotals[entry.model || 'unknown'] += usageMetrics.totalTokens` over the entries, in order. */
  function ModelTotals(ds: seq<(string, Metrics)>): (r: Tally)
    ensures DistinctKeys(r)
    ensures forall i :: 0 <= i < |ds| ==> ds[i].0 in Keys(r)
    decreases |ds|
  {
    if |ds| == 0 then []
    else
      var r := Add(ModelTotals(ds[..|ds| - 1]), ds[|ds| - 1].0, ds[|ds| - 1].1.totalTokens);
      assert forall i :: 0 <= i < |ds| - 1 ==> ds[..|ds| - 1][i] == ds[i];
      r
  }

  /** The totals of the entries filed under model key `key`, in order (0 for the other entries). */
  function ModelColumn(ds: seq<(string, Metrics)>, key: string): (r: seq<int>)
    ensures |r| == |ds| && forall i :: 0 <= i < |ds| ==> r[i] == (if ds[i].0 == key then ds[i].1.totalTokens else 0)
  {
    seq(|ds|, i requires 0 <= i < |ds| => if ds[i].0 == key then ds[i].1.totalTokens else 0)
  }

  /** Every model key's total is the sum of `totalTokens` over the entries with that key, and nothing else. */
  lemma {:induction false} ModelTotalsGet(ds: seq<(string, Metrics)>, key: string)
    ensures Get(ModelTotals(ds), key) == Sum(ModelColumn(ds, key))
    decreases |ds|
  {
    if |ds| > 0 {
      var init := ds[..|ds| - 1];
      ModelTotalsGet(init, key);
      SumSnoc(ModelColumn(ds, key));
      assert ModelColumn(ds, key)[..|ds| - 1] == ModelColumn(init, key);
    }
  }

  lemma SumSnoc(s: seq<int>)
    requires |s| > 0
    ensures Sum(s) == Sum(s[..|s| - 1]) + s[|s| - 1]
  {
    SumAppend(s[..|s| - 1], [s[|s| - 1]]);
    assert s[..|s| - 1] + [s[|s| - 1]] == s;
  }

  /** Every aggregated counter is the sum of that counter over the entries. */
  lemma {:induction false} AggregateCounts(ds: seq<(string, Metrics)>, f: Field)
    ensures Aggregate(ds).Get(f) == Sum(Column(ds, f))
    decreases |ds|
  {
    if |ds| > 0 {
      var init := ds[..|ds| - 1];
      AggregateCounts(init, f);
      SumSnoc(Column(ds, f));
      assert Column(ds, f)[..|ds| - 1] == Column(init, f);
    }
  }

  /** Every aggregated breakdown key is the sum of that key over the entries. */
  lemma {:induction false} AggregateBreakdown(ds: seq<(string, Metrics)>, key: string)
    ensures Get(Aggregate(ds).additionalBreakdown, key) == Sum(KeyColumn(ds, key))
    decreases |ds|
  {
    if |ds| > 0 {
      var init := ds[..|ds| - 1];
      AggregateBreakdown(init, key);
      SumSnoc(KeyColumn(ds, key));
      assert KeyColumn(ds, key)[..|ds| - 1] == KeyColumn(init, key);
    }
  }

  /** The per-model totals split the aggregated total without loss. */
  lemma {:induction false} ModelTotalsConserve(ds: seq<(string, Metrics)>)
    ensures Total(ModelTotals(ds)) == Aggregate(ds).totalTokens
    decreases |ds|
  {
    if |ds| > 0 {
      ModelTotalsConserve(ds[..|ds| - 1]);
    }
  }

  /** `getTopModel`: the model with the largest total, the first one on ties; none for no models. */
  function TopModel(totals: Tally): (r: Option<string>)
    ensures r.None? <==> |totals| == 0
    ensures r.Some? ==> exists i :: Tops(totals, i) && r.value == totals[i].0
  {
    var n := |totals|;
    if n == 0 then None
    else
      var i := TopIndex(totals, n);
      assert totals[..n] == totals;
      Some(totals[i].0)
  }

  /**
   * Entry `i` is what a stable descending sort puts first: nothing is
   * larger, and everything before it is smaller.
   */
  predicate Tops(totals: Tally, i: int) {
    && 0 <= i < |totals|
    && (forall j :: 0 <= j < |totals| ==> totals[j].1 <= totals[i].1)
    && (forall j :: 0 <= j < i ==> totals[j].1 < totals[i].1)
  }

  /** The top entry among `totals[..n]`. */
  function TopIndex(totals: Tally, n: nat): (r: nat)
    requires 0 < n <= |totals|
    ensures Tops(totals[..n], r)
    decreases n
  {
    if n == 1 then 0
    else
      var b := TopIndex(totals, n - 1);
      assert forall j :: 0 <= j < n - 1 ==> totals[..n - 1][j] == totals[..n][j];
      if totals[n - 1].1 > totals[b].1 then n - 1 else b
  }

  /** At most one entry tops a tally. */
  lemma TopUnique(totals: Tally, i: int, k: int)
    requires Tops(totals, i) && Tops(totals, k)
    ensures i == k
  {
    assert totals[i].1 <= totals[k].1 && totals[k].1 <= totals[i].1;
  }

  // ---------------------------------------------------------------------------
  // Grouping by key

  /** A key, the position of its first occurrence, and how often it occurs. */
  datatype Bucket = Bucket(key: string, first: nat, count: nat)

  /** How many of `keys` equal `key`. */
  function Count(keys: seq<string>, key: string): (r: nat)
    ensures r <= |keys|
    decreases |keys|
  {
    if |keys| == 0 then 0
    else Count(keys[..|keys| - 1], key) + (if keys[|keys| - 1] == key then 1 else 0)
  }

  /** `keys[j]` is the first occurrence of `key`. */
  predicate FirstWith(keys: seq<string>, key: string, j: int) {
    0 <= j < |keys| && keys[j] == key && forall l :: 0 <= l < j ==> keys[l] != key
  }

  /** No key has two buckets. */
  predicate Distinct(bs: seq<Bucket>) {
    forall i, k :: 0 <= i < k < |bs| ==> bs[i].key != bs[k].key
  }

  /** Every bucket counts the occurrences of its key. */
  predicate Counted(keys: seq<string>, bs: seq<Bucket>) {
    forall i :: 0 <= i < |bs| ==> bs[i].count == Count(keys, bs[i].key)
  }

  /** Every bucket points at the first occurrence of its key. */
  predicate Located(keys: seq<string>, bs: seq<Bucket>) {
    forall i :: 0 <= i < |bs| ==> FirstWith(keys, bs[i].key, bs[i].first)
  }

  /** Every key has a bucket. */
  ghost predicate Covers(keys: seq<string>, bs: seq<Bucket>) {
    forall j :: 0 <= j < |keys| ==> exists i :: 0 <= i < |bs| && bs[i].key == keys[j]
  }

  /** The position of `key` among the buckets, if it is there. */
  function IndexOf(bs: seq<Bucket>, key: string): (r: Option<nat>)
    ensures r.Some? ==> r.value < |bs| && bs[r.value].key == key
    ensures r.None? ==> forall i :: 0 <= i < |bs| ==> bs[i].key != key
    decreases |bs|
  {
    if |bs| == 0 then None
    else if bs[|bs| - 1].key == key then Some(|bs| - 1)
    else IndexOf(bs[..|bs| - 1], key)
  }

  /** One step of the grouping loop over the key at position `at`: count it in its bucket, or open a new bucket last. */
  function Bump(bs: seq<Bucket>, key: string, at: nat): (r: seq<Bucket>)
    ensures IndexOf(bs, key).Some? ==>
              var k := IndexOf(bs, key).value;
              r == bs[k := bs[k].(count := bs[k].count + 1)]
    ensures IndexOf(bs, key).None? ==> r == bs + [Bucket(key, at, 1)]
  {
    var k := IndexOf(bs, key);
    if k.Some? then bs[k.value := bs[k.value].(count := bs[k.value].count + 1)]
    else bs + [Bucket(key, at, 1)]
  }

  lemma BumpDistinct(bs: seq<Bucket>, key: string, at: nat)
    requires Distinct(bs)
    ensures Distinct(Bump(bs, key, at))
  {
  }

  lemma CountSnoc(keys: seq<string>, x: string)
    requires |keys| > 0
    ensures Count(keys, x) == Count(keys[..|keys| - 1], x) + (if keys[|keys| - 1] == x then 1 else 0)
  {
  }

  lemma {:induction false} CountAbsent(keys: seq<string>, x: string)
    requires forall j :: 0 <= j < |keys| ==> keys[j] != x
    ensures Count(keys, x) == 0
    decreases |keys|
  {
    if |keys| > 0 {
      CountAbsent(keys[..|keys| - 1], x);
    }
  }

  lemma BumpCounted(keys: seq<string>, bs: seq<Bucket>)
    requires |keys| > 0 && Distinct(bs) && Counted(keys[..|keys| - 1], bs) && Covers(keys[..|keys| - 1], bs)
    ensures Counted(keys, Bump(bs, keys[|keys| - 1], |keys| - 1))
  {
    var n := |keys| - 1;
    var key := keys[n];
    var r := Bump(bs, key, n);
    if IndexOf(bs, key).None? {
      forall l | 0 <= l < n ensures keys[..n][l] != key {
        var i :| 0 <= i < |bs| && bs[i].key == keys[..n][l];
      }
      CountAbsent(keys[..n], key);
    }
    forall i | 0 <= i < |r| ensures r[i].count == Count(keys, r[i].key) {
      CountSnoc(keys, r[i].key);
      if i < |bs| && r[i].key == key {
        assert IndexOf(bs, key) == Some(i);
      }
    }
  }

  lemma BumpCovers(keys: seq<string>, bs: seq<Bucket>)
    requires |keys| > 0 && Covers(keys[..|keys| - 1], bs)
    ensures Covers(keys, Bump(bs, keys[|keys| - 1], |keys| - 1))
  {
    var n := |keys| - 1;
    var key := keys[n];
    var r := Bump(bs, key, n);
    forall j | 0 <= j < |keys|
      ensures exists i :: 0 <= i < |r| && r[i].key == keys[j]
    {
      if j < n {
        assert keys[..n][j] == keys[j];
        var i :| 0 <= i < |bs| && bs[i].key == keys[..n][j];
        assert r[i].key == bs[i].key;
      } else if IndexOf(bs, key).Some? {
        assert r[IndexOf(bs, key).value].key == key;
      } else {
        assert r[|bs|].key == key;
      }
    }
  }

  lemma BumpLocated(keys: seq<string>, bs: seq<Bucket>)
    requires |keys| > 0 && Located(keys[..|keys| - 1], bs) && Covers(keys[..|keys| - 1], bs)
    ensures Located(keys, Bump(bs, keys[|keys| - 1], |keys| - 1))
  {
    var n := |keys| - 1;
    var init := keys[..n];
    var key := keys[n];
    assert forall j :: 0 <= j < n ==> init[j] == keys[j];
    if IndexOf(bs, key).None? {
      forall l | 0 <= l < n ensures keys[l] != key {
        var i :| 0 <= i < |bs| && bs[i].key == init[l];
      }
      assert FirstWith(keys, key, n);
    }
  }

  /** The grouping loop: a `Map` from key to bucket, in insertion order. */
  function GroupBy(keys: seq<string>): (r: seq<Bucket>)
    ensures Distinct(r) && Counted(keys, r) && Located(keys, r) && Covers(keys, r)
    decreases |keys|
  {
    if |keys| == 0 then []
    else
      var n := |keys| - 1;
      var bs := GroupBy(keys[..n]);
      BumpDistinct(bs, keys[n], n);
      BumpCounted(keys, bs);
      BumpCovers(keys, bs);
      BumpLocated(keys, bs);
      Bump(bs, keys[n], n)
  }

  /** One step of the loop adds one to the sum of the counts. */
  lemma BumpAddsOne(bs: seq<Bucket>, key: string, at: nat)
    ensures Sum(Counts(Bump(bs, key, at))) == Sum(Counts(bs)) + 1
  {
    var k := IndexOf(bs, key);
    if k.Some? {
      SumUpdate(Counts(bs), k.value, Counts(bs)[k.value] + 1);
      assert Counts(Bump(bs, key, at)) == Counts(bs)[k.value := Counts(bs)[k.value] + 1];
    } else {
      SumAppend(Counts(bs), [1]);
      assert Counts(Bump(bs, key, at)) == Counts(bs) + [1];
    }
  }

  /** The counts of the buckets add up to the number of keys. */
  lemma {:induction false} CountsAddUp(keys: seq<string>)
    ensures Sum(Counts(GroupBy(keys))) == |keys|
    decreases |keys|
  {
    if |keys| > 0 {
      var n := |keys| - 1;
      CountsAddUp(keys[..n]);
      BumpAddsOne(GroupBy(keys[..n]), keys[n], n);
    }
  }

  /** The weights of the split: the count of every bucket. */
  function Counts(bs: seq<Bucket>): (r: seq<int>)
    ensures |r| == |bs| && forall i :: 0 <= i < |bs| ==> r[i] == bs[i].count
  {
    seq(|bs|, i requires 0 <= i < |bs| => bs[i].count as int)
  }

  // ---------------------------------------------------------------------------
  // Credential groups

  datatype Access = Access(credentialId: Option<string>, credentialName: Option<string>, model: Option<string>)

  /** `access.credentialId || ''`. */
  function IdText(a: Access): string {
    if a.credentialId.Some? then a.credentialId.value else ""
  }

  /** `access.credentialName || 'Unknown Credential'`. */
  function NameText(a: Access): string {
    if a.credentialName.Some? && a.credentialName.value != "" then a.credentialName.value else "Unknown Credential"
  }

  /** `${credentialId || ''}:${credentialName || 'Unknown Credential'}`. */
  function GroupKey(a: Access): string {
    IdText(a) + ":" + NameText(a)
  }

  function GroupKeys(accesses: seq<Access>): (r: seq<string>)
    ensures |r| == |accesses| && forall j :: 0 <= j < |accesses| ==> r[j] == GroupKey(accesses[j])
  {
    seq(|accesses|, j requires 0 <= j < |accesses| => GroupKey(accesses[j]))
  }

  /** A credential group: the first access with its key, and how many accesses share the key. */
  datatype Group = Group(first: Access, usageCount: nat)

  /** `groupedCredentialAccess.values()`, in insertion order. */
  function GroupAccesses(accesses: seq<Access>): (r: seq<Group>)
    ensures var bs := GroupBy(GroupKeys(accesses));
            |r| == |bs| && forall i :: 0 <= i < |bs| ==> r[i] == Group(accesses[bs[i].first], bs[i].count)
  {
    var bs := GroupBy(GroupKeys(accesses));
    seq(|bs|, i requires 0 <= i < |bs| => Group(accesses[bs[i].first], bs[i].count))
  }

  // The groups of a list of accesses: their keys are distinct, each keeps the
  // first access with its key and counts every access with it, every access
  // is in a group, and the counts add up to the number of accesses.

  /** Each group's key is its bucket's key. */
  lemma GroupKeyOfGroup(accesses: seq<Access>)
    ensures var bs := GroupBy(GroupKeys(accesses));
            var gs := GroupAccesses(accesses);
            forall i :: 0 <= i < |gs| ==> GroupKey(gs[i].first) == bs[i].key && gs[i].usageCount == bs[i].count
  {
    var keys := GroupKeys(accesses);
    var bs := GroupBy(keys);
    forall i | 0 <= i < |bs| ensures GroupKey(accesses[bs[i].first]) == bs[i].key {
      assert FirstWith(keys, bs[i].key, bs[i].first);
    }
  }

  lemma GroupsDistinct(accesses: seq<Access>)
    ensures var gs := GroupAccesses(accesses);
            forall i, k :: 0 <= i < k < |gs| ==> GroupKey(gs[i].first) != GroupKey(gs[k].first)
  {
    GroupKeyOfGroup(accesses);
  }

  lemma GroupsCounted(accesses: seq<Access>)
    ensures var gs := GroupAccesses(accesses);
            forall i :: 0 <= i < |gs| ==> gs[i].usageCount == Count(GroupKeys(accesses), GroupKey(gs[i].first))
  {
    GroupKeyOfGroup(accesses);
  }

  lemma GroupsFirst(accesses: seq<Access>)
    ensures var gs := GroupAccesses(accesses);
            forall i :: 0 <= i < |gs| ==> exists j :: FirstWith(GroupKeys(accesses), GroupKey(gs[i].first), j) && gs[i].first == accesses[j]
  {
    var bs := GroupBy(GroupKeys(accesses));
    var gs := GroupAccesses(accesses);
    GroupKeyOfGroup(accesses);
    forall i | 0 <= i < |gs|
      ensures exists j :: FirstWith(GroupKeys(accesses), GroupKey(gs[i].first), j) && gs[i].first == accesses[j]
    {
      var j := bs[i].first;
      assert FirstWith(GroupKeys(accesses), GroupKey(gs[i].first), j) && gs[i].first == accesses[j];
    }
  }

  lemma GroupsCover(accesses: seq<Access>)
    ensures var gs := GroupAccesses(accesses);
            forall j :: 0 <= j < |accesses| ==> exists i :: 0 <= i < |gs| && GroupKey(gs[i].first) == GroupKey(accesses[j])
  {
    var keys := GroupKeys(accesses);
    var bs := GroupBy(keys);
    var gs := GroupAccesses(accesses);
    GroupKeyOfGroup(accesses);
    forall j | 0 <= j < |accesses| ensures exists i :: 0 <= i < |gs| && GroupKey(gs[i].first) == GroupKey(accesses[j]) {
      assert keys[j] == GroupKey(accesses[j]);
      var i :| 0 <= i < |bs| && bs[i].key == keys[j];
      assert GroupKey(gs[i].first) == GroupKey(accesses[j]);
    }
  }

  lemma GroupsAddUp(accesses: seq<Access>)
    ensures Sum(Weights(GroupAccesses(accesses))) == |accesses|
  {
    var keys := GroupKeys(accesses);
    var bs := GroupBy(keys);
    var gs := GroupAccesses(accesses);
    CountsAddUp(keys);
    assert Weights(gs) == Counts(bs);
  }

  /** The weights of the split: the usage count of every group. */
  function Weights(groups: seq<Group>): (r: seq<int>)
    ensures |r| == |groups| && forall i :: 0 <= i < |groups| ==> r[i] == groups[i].usageCount
  {
    seq(|groups|, i requires 0 <= i < |groups| => groups[i].usageCount as int)
  }

  // ---------------------------------------------------------------------------
  // Credential rows

  /** The position of a counter in `AllFields`. */
  function FieldIndex(f: Field): (r: nat)
    ensures r < |AllFields| && AllFields[r] == f
  {
    match f
    case InputTokens => 0
    case OutputTokens => 1
    case TotalTokens => 2
    case CacheReadTokens => 3
    case CacheWriteTokens => 4
    case ReasoningTokens => 5
    case AcceptedPredictionTokens => 6
    case RejectedPredictionTokens => 7
    case AudioInputTokens => 8
    case AudioOutputTokens => 9
  }

  /** `distributedMetrics`: the split of every canonical counter, in the order of `AllFields`. */
  function Splits(agg: Metrics, weights: seq<int>): (r: seq<seq<int>>)
    ensures |r| == |AllFields|
    ensures forall c :: 0 <= c < |AllFields| ==> r[c] == Distribute(agg.Get(AllFields[c]), weights)
    ensures forall c :: 0 <= c < |AllFields| ==> |r[c]| == |weights|
    ensures |weights| > 0 ==>
              forall c :: 0 <= c < |AllFields| && agg.Get(AllFields[c]) >= 0 ==> Sum(r[c]) == agg.Get(AllFields[c])
  {
    var r := seq(|AllFields|, c requires 0 <= c < |AllFields| => Distribute(agg.Get(AllFields[c]), weights));
    assert |weights| > 0 ==>
             forall c :: 0 <= c < |AllFields| && agg.Get(AllFields[c]) >= 0 ==> Sum(r[c]) == agg.Get(AllFields[c]) by {
      if |weights| > 0 {
        forall c | 0 <= c < |AllFields| && agg.Get(AllFields[c]) >= 0 ensures Sum(r[c]) == agg.Get(AllFields[c]) {
          Conservation(agg.Get(AllFields[c]), weights);
        }
      }
    }
    r
  }

  /** One share of the additional breakdown: every aggregated key, with this group's share of it. */
  function ShareBreakdown(t: Tally, weights: seq<int>, i: int): (r: Tally)
    requires 0 <= i < |weights|
    ensures Keys(r) == Keys(t)
    decreases |t|
  {
    if |t| == 0 then [] else [(t[0].0, Distribute(t[0].1, weights)[i])] + ShareBreakdown(t[1..], weights, i)
  }

  /** With distinct aggregated keys, a group's breakdown entry for any key is its share of that key. */
  lemma {:induction false} ShareBreakdownGet(t: Tally, weights: seq<int>, i: int, key: string)
    requires 0 <= i < |weights| && DistinctKeys(t)
    ensures Get(ShareBreakdown(t, weights, i), key) == Distribute(Get(t, key), weights)[i]
    decreases |t|
  {
    if |t| == 0 {
      NothingToSplit(0, weights);
    } else {
      var rest := ShareBreakdown(t[1..], weights, i);
      var head := Distribute(t[0].1, weights)[i];
      ShareBreakdownGet(t[1..], weights, i, key);
      assert ([(t[0].0, head)] + rest)[1..] == rest;
      assert Get(ShareBreakdown(t, weights, i), key) == (if t[0].0 == key then head else 0) + Get(rest, key);
      if t[0].0 == key {
        GetAbsent(t[1..], key);
        NothingToSplit(0, weights);
        assert Get(t, key) == t[0].1;
      } else {
        assert Get(t, key) == Get(t[1..], key);
      }
    }
  }

  /** Group `i`'s row of counters, read from the splits. */
  function Share(splits: seq<seq<int>>, i: int, breakdown: Tally): (r: Metrics)
    requires |splits| == |AllFields| && forall c :: 0 <= c < |splits| ==> 0 <= i < |splits[c]|
    ensures forall f :: r.Get(f) == splits[FieldIndex(f)][i]
    ensures r.additionalBreakdown == breakdown
  {
    Metrics(splits[0][i], splits[1][i], splits[2][i], splits[3][i], splits[4][i],
            splits[5][i], splits[6][i], splits[7][i], splits[8][i], splits[9][i], breakdown)
  }

  /** A `TokenUsageCredential` row. */
  datatype Row = Row(credentialId: Option<string>, credentialName: string, model: Option<string>, usageCount: nat, metrics: Metrics)

  /** `group.model || topModel`. */
  function RowModel(g: Group, top: Option<string>): Option<string> {
    if g.first.model.Some? && g.first.model.value != "" then g.first.model else top
  }

  /** The credential rows, one per group in insertion order. */
  function Rows(groups: seq<Group>, agg: Metrics, top: Option<string>): (r: seq<Row>)
    ensures |r| == |groups|
    ensures forall i :: 0 <= i < |groups| ==>
              && r[i].credentialId == groups[i].first.credentialId
              && r[i].credentialName == NameText(groups[i].first)
              && r[i].model == RowModel(groups[i], top)
              && r[i].usageCount == groups[i].usageCount
              && (forall f :: r[i].metrics.Get(f) == Distribute(agg.Get(f), Weights(groups))[i])
              && r[i].metrics.additionalBreakdown == ShareBreakdown(agg.additionalBreakdown, Weights(groups), i)
  {
    var weights := Weights(groups);
    var splits := Splits(agg, weights);
    seq(|groups|, i requires 0 <= i < |groups| =>
      Row(groups[i].first.credentialId, NameText(groups[i].first), RowModel(groups[i], top),
          groups[i].usageCount, Share(splits, i, ShareBreakdown(agg.additionalBreakdown, weights, i))))
  }

  // ---------------------------------------------------------------------------
  // The whole record

  /** `recordTokenUsage(input)`, without persistence: only what decides the outcome. */
  datatype Input = Input(userId: Option<string>, payloads: seq<Json>, accesses: seq<Access>)

  datatype SkipReason = EmptyPayloads | NoEntries | ZeroUsage

  /** What is passed to `consumeCreditByCredentialUsages` for one row. */
  datatype Usage = Usage(credentialId: Option<string>, credentialName: string, totalTokens: int)

  datatype Outcome =
    | Skipped(reason: SkipReason)
    | Recorded(execution: Metrics, modelTotals: Tally, rows: seq<Row>, billing: Option<seq<Usage>>)

  /** `!input.userId`. */
  predicate HasUser(input: Input) {
    input.userId.Some? && input.userId.value != ""
  }

  function Billing(rows: seq<Row>): (r: seq<Usage>)
    ensures |r| == |rows|
    ensures forall i :: 0 <= i < |rows| ==>
              r[i] == Usage(rows[i].credentialId, rows[i].credentialName, rows[i].metrics.totalTokens)
  {
    seq(|rows|, i requires 0 <= i < |rows| =>
      Usage(rows[i].credentialId, rows[i].credentialName, rows[i].metrics.totalTokens))
  }

  function Record(input: Input): (r: Outcome)
    ensures r == Skipped(EmptyPayloads) <==> |input.payloads| == 0
    ensures r == Skipped(NoEntries) <==> |input.payloads| > 0 && |ExtractAll(input.payloads)| == 0
    ensures r == Skipped(ZeroUsage) <==>
              |ExtractAll(input.payloads)| > 0 && !HasAnyUsage(Aggregate(Derived(ExtractAll(input.payloads))))
    ensures r.Recorded? ==> HasAnyUsage(r.execution) && r.execution == Aggregate(Derived(ExtractAll(input.payloads)))
    ensures r.Recorded? ==> (|r.rows| == 0 <==> |input.accesses| == 0)
    ensures r.Recorded? && r.billing.Some? ==> HasUser(input) && |input.accesses| > 0
    ensures r.Recorded? ==> r.modelTotals == ModelTotals(Derived(ExtractAll(input.payloads)))
    ensures r.Recorded? && |input.accesses| > 0 ==>
              && r.rows == Rows(GroupAccesses(input.accesses), r.execution, TopModel(r.modelTotals))
              && (HasUser(input) ==> r.billing == Some(Billing(r.rows)))
  {
    if |input.payloads| == 0 then Skipped(EmptyPayloads)
    else
      var entries := ExtractAll(input.payloads);
      if |entries| == 0 then Skipped(NoEntries)
      else
        var ds := Derived(entries);
        var agg := Aggregate(ds);
        if !HasAnyUsage(agg) then Skipped(ZeroUsage)
        else
          var totals := ModelTotals(ds);
          if |input.accesses| == 0 then Recorded(agg, totals, [], None)
          else
            var groups := GroupAccesses(input.accesses);
            assert |groups| > 0 by {
              GroupsCover(input.accesses);
            }
            var rows := Rows(groups, agg, TopModel(totals));
            Recorded(agg, totals, rows, if HasUser(input) then Some(Billing(rows)) else None)
  }

  // ---------------------------------------------------------------------------
  // Properties of the record

  /** One counter across the credential rows. */
  function RowColumn(rows: seq<Row>, f: Field): (r: seq<int>)
    ensures |r| == |rows| && forall i :: 0 <= i < |rows| ==> r[i] == rows[i].metrics.Get(f)
  {
    seq(|rows|, i requires 0 <= i < |rows| => rows[i].metrics.Get(f))
  }

  /** One breakdown key across the credential rows. */
  function RowKeyColumn(rows: seq<Row>, key: string): (r: seq<int>)
    ensures |r| == |rows| && forall i :: 0 <= i < |rows| ==> r[i] == Get(rows[i].metrics.additionalBreakdown, key)
  {
    seq(|rows|, i requires 0 <= i < |rows| => Get(rows[i].metrics.additionalBreakdown, key))
  }

  /** The rows split every non-negative counter without loss. */
  lemma RowsConserveCounter(groups: seq<Group>, agg: Metrics, top: Option<string>, f: Field)
    requires |groups| > 0 && agg.Get(f) >= 0
    ensures Sum(RowColumn(Rows(groups, agg, top), f)) == agg.Get(f)
  {
    assert RowColumn(Rows(groups, agg, top), f) == Distribute(agg.Get(f), Weights(groups));
    Conservation(agg.Get(f), Weights(groups));
  }

  /** The rows split every non-negative breakdown key without loss. */
  lemma RowsConserveKey(groups: seq<Group>, agg: Metrics, top: Option<string>, key: string)
    requires |groups| > 0 && DistinctKeys(agg.additionalBreakdown) && Get(agg.additionalBreakdown, key) >= 0
    ensures Sum(RowKeyColumn(Rows(groups, agg, top), key)) == Get(agg.additionalBreakdown, key)
  {
    var weights := Weights(groups);
    forall i | 0 <= i < |groups|
      ensures RowKeyColumn(Rows(groups, agg, top), key)[i] == Distribute(Get(agg.additionalBreakdown, key), weights)[i]
    {
      ShareBreakdownGet(agg.additionalBreakdown, weights, i, key);
    }
    assert RowKeyColumn(Rows(groups, agg, top), key) == Distribute(Get(agg.additionalBreakdown, key), weights);
    Conservation(Get(agg.additionalBreakdown, key), weights);
  }

  /**
   * Conservation of a recorded execution: with at least one credential
   * access, the credential rows' shares of every non-negative counter add up
   * to the execution's counter, and likewise for every breakdown key.
   */
  lemma RecordConserves(input: Input, f: Field, key: string)
    requires Record(input).Recorded? && |input.accesses| > 0
    ensures var r := Record(input);
            r.execution.Get(f) >= 0 ==> Sum(RowColumn(r.rows, f)) == r.execution.Get(f)
    ensures var r := Record(input);
            Get(r.execution.additionalBreakdown, key) >= 0 ==>
              Sum(RowKeyColumn(r.rows, key)) == Get(r.execution.additionalBreakdown, key)
  {
    var r := Record(input);
    var groups := GroupAccesses(input.accesses);
    GroupsCover(input.accesses);
    assert |groups| > 0 by {
      assert exists i :: 0 <= i < |groups| && GroupKey(groups[i].first) == GroupKey(input.accesses[0]);
    }
    if r.execution.Get(f) >= 0 {
      RowsConserveCounter(groups, r.execution, TopModel(r.modelTotals), f);
    }
    if Get(r.execution.additionalBreakdown, key) >= 0 {
      RowsConserveKey(groups, r.execution, TopModel(r.modelTotals), key);
    }
  }

  /** A row whose group has no model of its own takes the top model: the first model with the largest total. */
  lemma FallbackModel(input: Input, i: int)
    requires Record(input).Recorded? && 0 <= i < |Record(input).rows|
    requires var g := GroupAccesses(input.accesses)[i]; g.first.model.None? || g.first.model == Some("")
    ensures var r := Record(input);
            r.rows[i].model == TopModel(r.modelTotals)
            && (r.rows[i].model.Some? ==> exists k :: Tops(r.modelTotals, k) && r.rows[i].model.value == r.modelTotals[k].0)
  {
  }

  /** The billed token totals, line by line. */
  function BilledColumn(b: seq<Usage>): (r: seq<int>)
    ensures |r| == |b| && forall i :: 0 <= i < |b| ==> r[i] == b[i].totalTokens
  {
    seq(|b|, i requires 0 <= i < |b| => b[i].totalTokens)
  }

  /** What is billed is each row's total, so the bill adds up to the rows' totals. */
  lemma BilledTotals(rows: seq<Row>)
    ensures Sum(BilledColumn(Billing(rows))) == Sum(RowColumn(rows, TotalTokens))
  {
    assert BilledColumn(Billing(rows)) == RowColumn(rows, TotalTokens);
  }

  /**
   * A recorded run with a user and at least one credential access is billed
   * for exactly the execution's total tokens: the credential lines handed to
   * billing add up to the total of the execution record.
   */
  lemma BilledIsExecutionTotal(input: Input)
    ensures var o := Record(input);
            o.Recorded? && HasUser(input) && |input.accesses| > 0 && o.execution.totalTokens >= 0 ==>
              o.billing.Some? && Sum(BilledColumn(o.billing.value)) == o.execution.totalTokens
  {
    var o := Record(input);
    if o.Recorded? && HasUser(input) && |input.accesses| > 0 && o.execution.totalTokens >= 0 {
      GroupsNonEmpty(input.accesses);
      BilledFromRows(o, GroupAccesses(input.accesses), TopModel(o.modelTotals));
    }
  }

  lemma GroupsNonEmpty(accesses: seq<Access>)
    requires |accesses| > 0
    ensures |GroupAccesses(accesses)| > 0
  {
    GroupsCover(accesses);
    var groups := GroupAccesses(accesses);
    assert exists i :: 0 <= i < |groups| && GroupKey(groups[i].first) == GroupKey(accesses[0]);
  }

  lemma BilledFromRows(o: Outcome, groups: seq<Group>, top: Option<string>)
    requires o.Recorded? && |groups| > 0 && o.execution.totalTokens >= 0
    requires o.rows == Rows(groups, o.execution, top) && o.billing == Some(Billing(o.rows))
    ensures Sum(BilledColumn(o.billing.value)) == o.execution.totalTokens
  {
    RowsConserveCounter(groups, o.execution, top, TotalTokens);
    BilledTotals(o.rows);
  }

  /** Without a user nothing is billed; without credential accesses there are no rows and nothing is billed. */
  lemma NoBilling(input: Input)
    requires Record(input).Recorded?
    ensures !HasUser(input) ==> Record(input).billing.None?
    ensures |input.accesses| == 0 ==> Record(input).rows == [] && Record(input).billing.None?
  {
  }
}
