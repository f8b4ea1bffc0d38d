/**
 * `deriveMetricsFromUsage`: a usage object is flattened into dotted-path
 * numeric leaves (`flattenNumericFields`), every leaf's key is normalised and
 * routed through the alias table to one canonical counter or, failing that,
 * into the additional breakdown; then a few well-known top-level fields are
 * read directly and may raise (never add to) the input, output and total
 * counters.
 */
module Derivation {
  import opened Wrappers
  import opened Payload
  import opened Tally
  import opened Metrics
  import opened KeyText

  // ---------------------------------------------------------------------------
  // flattenNumericFields

  /** The sum of every number in `v`: the independent reference for flattening. */
  function NumericSum(v: Json): int
    decreases v, 1
  {
    match v
    case Num(n) => n
    case Arr(_) => ChildrenSum(v, 0)
    case Obj(_) => ChildrenSum(v, 0)
    case _ => 0
  }

  function ChildCount(v: Json): nat {
    match v
    case Arr(items) => |items|
    case Obj(fields) => |fields|
    case _ => 0
  }

  function ChildrenSum(v: Json, i: nat): int
    requires IsContainer(v) && i <= ChildCount(v)
    decreases v, 0, ChildCount(v) - i
  {
    if i == ChildCount(v) then 0
    else
      var child := if v.Arr? then v.items[i] else v.fields[i].1;
      NumericSum(child) + ChildrenSum(v, i + 1)
  }

  /**
   * The sum of the numbers below `v` whose dotted path, `path` extended by
   * the way down, is `key`: the reference for what flattening records under
   * one key. A number reached with an empty path has no key.
   */
  function NumbersAt(v: Json, path: seq<string>, key: string): int
    decreases v, 1
  {
    match v
    case Num(n) => if |path| > 0 && Join(path) == key then n else 0
    case Arr(_) => ChildrenAt(v, 0, path, key)
    case Obj(_) => ChildrenAt(v, 0, path, key)
    case _ => 0
  }

  function ChildrenAt(v: Json, i: nat, path: seq<string>, key: string): int
    requires IsContainer(v) && i <= ChildCount(v)
    decreases v, 0, ChildCount(v) - i
  {
    if i == ChildCount(v) then 0
    else
      var child := if v.Arr? then v.items[i] else v.fields[i].1;
      var segment := if v.Arr? then NatToString(i) else v.fields[i].0;
      NumbersAt(child, path + [segment], key) + ChildrenAt(v, i + 1, path, key)
  }

  /**
   * `flattenNumericFields(value, path, output)`: every number below `value` is
   * added into `output` under its dotted path (array positions as decimal
   * indices). A number with an empty path is dropped.
   */
  function FlattenInto(v: Json, path: seq<string>, out: Tally): (r: Tally)
    ensures DistinctKeys(out) ==> DistinctKeys(r)
    ensures |path| > 0 ==> Total(r) == Total(out) + NumericSum(v)
    ensures !v.Num? ==> Total(r) == Total(out) + NumericSum(v)
    decreases v, 2
  {
    match v
    case Num(n) => if |path| > 0 then Add(out, Join(path), n) else out
    case Arr(_) => FlattenChildren(v, 0, path, out)
    case Obj(_) => FlattenChildren(v, 0, path, out)
    case _ => out
  }

  /** The children of an array (by index) or an object (by key), from the `i`-th on. */
  function FlattenChildren(v: Json, i: nat, path: seq<string>, out: Tally): (r: Tally)
    requires IsContainer(v) && i <= ChildCount(v)
    ensures DistinctKeys(out) ==> DistinctKeys(r)
    ensures Total(r) == Total(out) + ChildrenSum(v, i)
    decreases v, 1, ChildCount(v) - i
  {
    if i == ChildCount(v) then out
    else
      var child := if v.Arr? then v.items[i] else v.fields[i].1;
      var segment := if v.Arr? then NatToString(i) else v.fields[i].0;
      FlattenChildren(v, i + 1, path, FlattenInto(child, path + [segment], out))
  }

  /** `flattenNumericFields(usage)`. */
  function Flatten(usage: Json): (r: Tally)
    ensures forall k :: Get(r, k) == NumbersAt(usage, [], k)
    ensures DistinctKeys(r)
    ensures Total(r) == (if usage.Num? then 0 else NumericSum(usage))
  {
    var r := FlattenInto(usage, [], []);
    assert forall k :: Get(r, k) == NumbersAt(usage, [], k) by {
      forall k {
        FlattenIntoAt(usage, [], [], k);
      }
    }
    r
  }

  /** Flattening below `path` adds, under every key, exactly the numbers below `v` with that path. */
  lemma {:induction false} FlattenIntoAt(v: Json, path: seq<string>, out: Tally, k: string)
    ensures Get(FlattenInto(v, path, out), k) == Get(out, k) + NumbersAt(v, path, k)
    decreases v, 2
  {
    match v
    case Arr(_) => FlattenChildrenAt(v, 0, path, out, k);
    case Obj(_) => FlattenChildrenAt(v, 0, path, out, k);
    case _ =>
  }

  lemma {:induction false} FlattenChildrenAt(v: Json, i: nat, path: seq<string>, out: Tally, k: string)
    requires IsContainer(v) && i <= ChildCount(v)
    ensures Get(FlattenChildren(v, i, path, out), k) == Get(out, k) + ChildrenAt(v, i, path, k)
    decreases v, 1, ChildCount(v) - i
  {
    if i < ChildCount(v) {
      var child := if v.Arr? then v.items[i] else v.fields[i].1;
      var segment := if v.Arr? then NatToString(i) else v.fields[i].0;
      var mid := FlattenInto(child, path + [segment], out);
      FlattenIntoAt(child, path + [segment], out, k);
      FlattenChildrenAt(v, i + 1, path, mid, k);
    }
  }

  // ---------------------------------------------------------------------------
  // tokenAliasMap

  /**
   * An alias table: normalised keys and the counter each names. Routing is
   * stated for any table; `TokenAliases` is the service's own.
   */
  type Aliases = seq<(string, Field)>

  /** `tokenAliasMap`, in its declaration order. */
  const TokenAliases: Aliases := [
    ("input_tokens", InputTokens),
    ("prompt_tokens", InputTokens),
    ("inputtokencount", InputTokens),
    ("output_tokens", OutputTokens),
    ("completion_tokens", OutputTokens),
    ("outputtokencount", OutputTokens),
    ("total_tokens", TotalTokens),
    ("totaltokens", TotalTokens),
    ("cache_read_tokens", CacheReadTokens),
    ("prompt_tokens_details.cached_tokens", CacheReadTokens),
    ("input_token_details.cache_read", CacheReadTokens),
    ("input_token_details.cache_read_input_tokens", CacheReadTokens),
    ("cache_write_tokens", CacheWriteTokens),
    ("cache_creation_input_tokens", CacheWriteTokens),
    ("prompt_tokens_details.cache_creation_tokens", CacheWriteTokens),
    ("input_token_details.cache_creation", CacheWriteTokens),
    ("reasoning_tokens", ReasoningTokens),
    ("completion_tokens_details.reasoning_tokens", ReasoningTokens),
    ("output_token_details.reasoning", ReasoningTokens),
    ("accepted_prediction_tokens", AcceptedPredictionTokens),
    ("completion_tokens_details.accepted_prediction_tokens", AcceptedPredictionTokens),
    ("rejected_prediction_tokens", RejectedPredictionTokens),
    ("completion_tokens_details.rejected_prediction_tokens", RejectedPredictionTokens),
    ("audio_tokens", AudioInputTokens),
    ("prompt_tokens_details.audio_tokens", AudioInputTokens),
    ("audio_output_tokens", AudioOutputTokens),
    ("completion_tokens_details.audio_tokens", AudioOutputTokens)
  ]

  /** `aliases[key]`: the counter of the first entry named `key`. */
  function Alias(aliases: Aliases, key: string): (r: Option<Field>)
    ensures r.Some? ==> exists i :: 0 <= i < |aliases| && aliases[i] == (key, r.value)
    ensures r.None? ==> forall i :: 0 <= i < |aliases| ==> aliases[i].0 != key
    decreases |aliases|
  {
    if |aliases| == 0 then None
    else if aliases[0].0 == key then Some(aliases[0].1)
    else
      var r := Alias(aliases[1..], key);
      assert forall i :: 0 <= i < |aliases[1..]| ==> aliases[1..][i] == aliases[i + 1];
      r
  }

  /** The lookup finds the entry at `i` when no earlier entry has the same key. */
  lemma {:induction false} AliasFirst(aliases: Aliases, key: string, i: nat)
    requires i < |aliases| && aliases[i].0 == key
    requires forall j :: 0 <= j < i ==> aliases[j].0 != key
    ensures Alias(aliases, key) == Some(aliases[i].1)
    decreases i
  {
    if i > 0 {
      assert forall j :: 0 <= j < i - 1 ==> aliases[1..][j] == aliases[j + 1];
      AliasFirst(aliases[1..], key, i - 1);
    }
  }

  /** The keys of the table, in order. */
  function AliasKeys(aliases: Aliases): (r: seq<string>)
    ensures |r| == |aliases| && forall j :: 0 <= j < |aliases| ==> r[j] == aliases[j].0
  {
    seq(|aliases|, j requires 0 <= j < |aliases| => aliases[j].0)
  }

  /** A key no entry names has no alias. */
  lemma AliasAbsent(aliases: Aliases, key: string)
    requires key !in AliasKeys(aliases)
    ensures Alias(aliases, key) == None
  {
    assert forall j :: 0 <= j < |aliases| ==> AliasKeys(aliases)[j] != key;
  }

  /** A key some entry names has an alias. */
  lemma AliasPresent(aliases: Aliases, key: string)
    ensures key in AliasKeys(aliases) ==> Alias(aliases, key).Some?
  {
    if key in AliasKeys(aliases) {
      var j :| 0 <= j < |aliases| && AliasKeys(aliases)[j] == key;
    }
  }

  /** `tokenAliasMap[key] || tokenAliasMap[key.split('.').pop() || '']`. */
  function Resolve(aliases: Aliases, key: string): Option<Field> {
    if Alias(aliases, key).Some? then Alias(aliases, key) else Alias(aliases, LastSegment(key))
  }

  /** Where a flattened leaf with raw key `rawKey` is counted. */
  function Route(aliases: Aliases, rawKey: string): Option<Field> {
    Resolve(aliases, NormalizeBreakdownKey(rawKey))
  }

  // ---------------------------------------------------------------------------
  // Routing the flattened leaves

  /** The flattened values routed to counter `f`. */
  function RoutedTo(aliases: Aliases, flat: Tally, f: Field): int
    decreases |flat|
  {
    if |flat| == 0 then 0
    else (if Route(aliases, flat[0].0) == Some(f) then flat[0].1 else 0) + RoutedTo(aliases, flat[1..], f)
  }

  /** The flattened values that no alias claims and whose normalised key is `key`. */
  function Unrouted(aliases: Aliases, flat: Tally, key: string): int
    decreases |flat|
  {
    if |flat| == 0 then 0
    else (if Route(aliases, flat[0].0).None? && NormalizeBreakdownKey(flat[0].0) == key then flat[0].1 else 0)
         + Unrouted(aliases, flat[1..], key)
  }

  /** A key the additional breakdown may hold: in normalised form, and claimed by no alias. */
  predicate BreakdownKey(aliases: Aliases, k: string) {
    NoUpper(k) && NoDoubleUnderscore(k) && !StartsWith(k, '_') && NoIndexSegment(k) && Resolve(aliases, k).None?
  }

  /** The sum of the ten canonical counters. */
  function CounterSum(m: Metrics): int {
    m.inputTokens + m.outputTokens + m.totalTokens + m.cacheReadTokens + m.cacheWriteTokens
    + m.reasoningTokens + m.acceptedPredictionTokens + m.rejectedPredictionTokens
    + m.audioInputTokens + m.audioOutputTokens
  }

  lemma CounterSumSet(m: Metrics, f: Field, value: int)
    ensures CounterSum(m.Set(f, value)) == CounterSum(m) - m.Get(f) + value
  {
  }

  /** One step of the loop: the value goes to the counter its key routes to, or else to the breakdown. */
  function Put(aliases: Aliases, m: Metrics, rawKey: string, value: int): (r: Metrics)
    ensures forall f :: r.Get(f) == m.Get(f) + (if Route(aliases, rawKey) == Some(f) then value else 0)
    ensures forall k :: Get(r.additionalBreakdown, k)
                        == Get(m.additionalBreakdown, k)
                           + (if Route(aliases, rawKey).None? && NormalizeBreakdownKey(rawKey) == k then value else 0)
    ensures CounterSum(r) + Total(r.additionalBreakdown) == CounterSum(m) + Total(m.additionalBreakdown) + value
    ensures DistinctKeys(m.additionalBreakdown) ==> DistinctKeys(r.additionalBreakdown)
    ensures forall k :: k in Keys(r.additionalBreakdown) ==> k in Keys(m.additionalBreakdown) || BreakdownKey(aliases, k)
  {
    var key := NormalizeBreakdownKey(rawKey);
    var target := Resolve(aliases, key);
    if target.Some? then
      CounterSumSet(m, target.value, m.Get(target.value) + value);
      m.Set(target.value, m.Get(target.value) + value)
    else
      m.(additionalBreakdown := Add(m.additionalBreakdown, key, value))
  }

  /**
   * The loop over the flattened entries: each value lands in exactly one
   * place, the counter its key routes to, or else the breakdown entry of its
   * normalised key; nothing is lost or counted twice.
   */
  function Place(aliases: Aliases, flat: Tally, m: Metrics): (r: Metrics)
    ensures forall f :: r.Get(f) == m.Get(f) + RoutedTo(aliases, flat, f)
    ensures forall k :: Get(r.additionalBreakdown, k) == Get(m.additionalBreakdown, k) + Unrouted(aliases, flat, k)
    ensures CounterSum(r) + Total(r.additionalBreakdown) == CounterSum(m) + Total(m.additionalBreakdown) + Total(flat)
    ensures DistinctKeys(m.additionalBreakdown) ==> DistinctKeys(r.additionalBreakdown)
    ensures (forall k :: k in Keys(m.additionalBreakdown) ==> BreakdownKey(aliases, k))
            ==> forall k :: k in Keys(r.additionalBreakdown) ==> BreakdownKey(aliases, k)
    decreases |flat|
  {
    if |flat| == 0 then m
    else Place(aliases, flat[1..], Put(aliases, m, flat[0].0, flat[0].1))
  }

  // ---------------------------------------------------------------------------
  // Direct top-level fields

  predicate AllDigits(s: string) {
    forall i :: 0 <= i < |s| ==> IsDigit(s[i])
  }

  /** The number a string of decimal digits spells, most significant digit first. */
  function DigitsValue(s: string): int
    requires AllDigits(s)
    decreases |s|
  {
    if |s| == 0 then 0 else DigitsValue(s[..|s| - 1]) * 10 + (s[|s| - 1] as int - '0' as int)
  }

  /**
   * `safeToNumber(value)` on integer JSON: a number reads as itself, a
   * non-empty string of decimal digits as the number it spells, and anything
   * else (absent, null, a boolean, an array, an object, any other string) as 0.
   */
  function SafeToNumber(v: Option<Json>): (r: int)
    ensures v.Some? && v.value.Num? ==> r == v.value.n
    ensures v.Some? && v.value.Str? ==> r >= 0
    ensures v.Some? && v.value.Str? && r > 0 ==> |v.value.s| > 0 && AllDigits(v.value.s)
    ensures v.None? || v.value.Null? || v.value.Bool? || v.value.Arr? || v.value.Obj? ==> r == 0
  {
    if v.Some? && v.value.Num? then v.value.n
    else if v.Some? && v.value.Str? && |v.value.s| > 0 && AllDigits(v.value.s) then
      DigitsNonNegative(v.value.s);
      DigitsValue(v.value.s)
    else 0
  }

  lemma {:induction false} DigitsNonNegative(s: string)
    requires AllDigits(s)
    ensures DigitsValue(s) >= 0
    decreases |s|
  {
    if |s| > 0 {
      DigitsNonNegative(s[..|s| - 1]);
    }
  }

  /** Reading the decimal digits of `n` gives `n` back. */
  lemma {:induction false} DigitsOfNat(n: nat)
    ensures AllDigits(NatToString(n)) && DigitsValue(NatToString(n)) == n
    decreases n
  {
    var d := ['0' + (n % 10) as char];
    if n >= 10 {
      DigitsOfNat(n / 10);
      var s := NatToString(n / 10) + d;
      assert s[..|s| - 1] == NatToString(n / 10);
    }
  }

  /** A digit string such as `"1200"` reads as the number it spells. */
  lemma SafeToNumberReadsDecimal(n: nat)
    ensures SafeToNumber(Some(Str(NatToString(n)))) == n
  {
    DigitsOfNat(n);
  }

  function DirectInput(usage: Json): int {
    SafeToNumber(Property(usage, "input_tokens")) + SafeToNumber(Property(usage, "prompt_tokens"))
    + SafeToNumber(Property(usage, "promptTokens")) + SafeToNumber(Property(usage, "inputTokenCount"))
    + SafeToNumber(Property(usage, "inputTokens"))
  }

  function DirectOutput(usage: Json): int {
    SafeToNumber(Property(usage, "output_tokens")) + SafeToNumber(Property(usage, "completion_tokens"))
    + SafeToNumber(Property(usage, "outputTokenCount")) + SafeToNumber(Property(usage, "completionTokens"))
  }

  function DirectTotal(usage: Json): int {
    SafeToNumber(Property(usage, "total_tokens")) + SafeToNumber(Property(usage, "totalTokens"))
  }

  function Max(a: int, b: int): int { if a >= b then a else b }

  /**
   * The direct value only ever raises the flattened one: to the larger of the
   * two when it is positive, and not at all otherwise. It is never added on top.
   */
  predicate RaisedTo(result: int, flattened: int, direct: int) {
    && (direct > 0 ==> result >= flattened && result >= direct && (result == flattened || result == direct))
    && (direct <= 0 ==> result == flattened)
  }

  /** `if (direct > 0) value = Math.max(value, direct)` */
  function Raise(m: Metrics, f: Field, direct: int): (r: Metrics)
    ensures RaisedTo(r.Get(f), m.Get(f), direct)
    ensures forall g :: g != f ==> r.Get(g) == m.Get(g)
    ensures r.additionalBreakdown == m.additionalBreakdown
  {
    if direct > 0 then m.Set(f, Max(m.Get(f), direct)) else m
  }

  /** The counters routed from the flattened leaves alone, before the direct fields are consulted. */
  function Placed(aliases: Aliases, usage: Json): Metrics {
    Place(aliases, Flatten(usage), Empty)
  }

  /** `deriveMetricsFromUsage(usage)` over the alias table `aliases`. */
  function DeriveWith(aliases: Aliases, usage: Json): (r: Metrics)
    ensures var p := Placed(aliases, usage);
            && RaisedTo(r.inputTokens, p.inputTokens, DirectInput(usage))
            && RaisedTo(r.outputTokens, p.outputTokens, DirectOutput(usage))
            && (p.totalTokens != 0 || DirectTotal(usage) > 0 ==> RaisedTo(r.totalTokens, p.totalTokens, DirectTotal(usage)))
            && (p.totalTokens == 0 && DirectTotal(usage) <= 0 ==>
                  r.totalTokens == (if r.inputTokens != 0 || r.outputTokens != 0 then r.inputTokens + r.outputTokens else 0))
            && (forall f :: f != InputTokens && f != OutputTokens && f != TotalTokens ==> r.Get(f) == p.Get(f))
            && r.additionalBreakdown == p.additionalBreakdown
    ensures DistinctKeys(r.additionalBreakdown)
  {
    var placed := Placed(aliases, usage);
    var raised := Raise(Raise(Raise(placed, InputTokens, DirectInput(usage)), OutputTokens, DirectOutput(usage)),
                        TotalTokens, DirectTotal(usage));
    if raised.totalTokens == 0 && (raised.inputTokens != 0 || raised.outputTokens != 0) then
      raised.Set(TotalTokens, raised.inputTokens + raised.outputTokens)
    else raised
  }

  /**
   * `deriveMetricsFromUsage(usage)`. Every additional-breakdown key appears
   * once, is in normalised form, and is neither a key of `tokenAliasMap` nor
   * ends in a dotted segment that is one.
   */
  function Derive(usage: Json): (r: Metrics)
    ensures DistinctKeys(r.additionalBreakdown)
    ensures forall k :: k in Keys(r.additionalBreakdown) ==>
              && NoUpper(k) && NoDoubleUnderscore(k) && !StartsWith(k, '_') && NoIndexSegment(k)
              && k !in AliasKeys(TokenAliases) && LastSegment(k) !in AliasKeys(TokenAliases)
  {
    var r := DeriveWith(TokenAliases, usage);
    assert r.additionalBreakdown == Placed(TokenAliases, usage).additionalBreakdown;
    assert Keys(Empty.additionalBreakdown) == {};
    assert forall k :: Resolve(TokenAliases, k).None? ==> k !in AliasKeys(TokenAliases) && LastSegment(k) !in AliasKeys(TokenAliases) by {
      forall k | Resolve(TokenAliases, k).None? ensures k !in AliasKeys(TokenAliases) && LastSegment(k) !in AliasKeys(TokenAliases) {
        AliasPresent(TokenAliases, k);
        AliasPresent(TokenAliases, LastSegment(k));
      }
    }
    assert forall k :: k in Keys(r.additionalBreakdown) ==> BreakdownKey(TokenAliases, k);
    r
  }

  // ---------------------------------------------------------------------------
  // Properties

  /**
   * Every flattened number is accounted for exactly once: the canonical
   * counters and the breakdown of the routed metrics add up to the sum of all
   * numbers in the usage object.
   */
  lemma PlacedConservesLeaves(aliases: Aliases, usage: Json)
    ensures CounterSum(Placed(aliases, usage)) + Total(Placed(aliases, usage).additionalBreakdown)
            == (if usage.Num? then 0 else NumericSum(usage))
  {
  }
}
