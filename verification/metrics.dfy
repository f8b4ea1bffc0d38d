/**
 * The canonical usage counters (`ITokenUsageMetrics`), their sum and the
 * "any usage" test the recorder uses to decide whether to persist anything.
 */
module Metrics {
  import opened Tally

  /** The ten canonical counters (`TokenUsageMetricKeys`). */
  datatype Field =
    | InputTokens
    | OutputTokens
    | TotalTokens
    | CacheReadTokens
    | CacheWriteTokens
    | ReasoningTokens
    | AcceptedPredictionTokens
    | RejectedPredictionTokens
    | AudioInputTokens
    | AudioOutputTokens

  const AllFields: seq<Field> := [
    InputTokens, OutputTokens, TotalTokens, CacheReadTokens, CacheWriteTokens, ReasoningTokens,
    AcceptedPredictionTokens, RejectedPredictionTokens, AudioInputTokens, AudioOutputTokens
  ]

  datatype Metrics = Metrics(
    inputTokens: int,
    outputTokens: int,
    totalTokens: int,
    cacheReadTokens: int,
    cacheWriteTokens: int,
    reasoningTokens: int,
    acceptedPredictionTokens: int,
    rejectedPredictionTokens: int,
    audioInputTokens: int,
    audioOutputTokens: int,
    additionalBreakdown: Tally)
  {
    /** `metrics[field]`. */
    function Get(f: Field): int {
      match f
      case InputTokens => inputTokens
      case OutputTokens => outputTokens
      case TotalTokens => totalTokens
      case CacheReadTokens => cacheReadTokens
      case CacheWriteTokens => cacheWriteTokens
      case ReasoningTokens => reasoningTokens
      case AcceptedPredictionTokens => acceptedPredictionTokens
      case RejectedPredictionTokens => rejectedPredictionTokens
      case AudioInputTokens => audioInputTokens
      case AudioOutputTokens => audioOutputTokens
    }

    /** `metrics[field] = value`; nothing else changes. */
    function Set(f: Field, value: int): (r: Metrics)
      ensures r.Get(f) == value
      ensures forall g :: g != f ==> r.Get(g) == Get(g)
      ensures r.additionalBreakdown == additionalBreakdown
    {
      match f
      case InputTokens => this.(inputTokens := value)
      case OutputTokens => this.(outputTokens := value)
      case TotalTokens => this.(totalTokens := value)
      case CacheReadTokens => this.(cacheReadTokens := value)
      case CacheWriteTokens => this.(cacheWriteTokens := value)
      case ReasoningTokens => this.(reasoningTokens := value)
      case AcceptedPredictionTokens => this.(acceptedPredictionTokens := value)
      case RejectedPredictionTokens => this.(rejectedPredictionTokens := value)
      case AudioInputTokens => this.(audioInputTokens := value)
      case AudioOutputTokens => this.(audioOutputTokens := value)
    }
  }

  /** `createEmptyMetrics()`. */
  const Empty := Metrics(0, 0, 0, 0, 0, 0, 0, 0, 0, 0, [])

  /**
   * `addMetrics(target, source)`: every canonical counter and every breakdown
   * key of `source` is added onto `target`.
   */
  function AddMetrics(target: Metrics, source: Metrics): (r: Metrics)
    ensures forall f :: r.Get(f) == target.Get(f) + source.Get(f)
    ensures forall k :: Get(r.additionalBreakdown, k) == Get(target.additionalBreakdown, k) + Get(source.additionalBreakdown, k)
    ensures Keys(r.additionalBreakdown) == Keys(target.additionalBreakdown) + Keys(source.additionalBreakdown)
    ensures DistinctKeys(target.additionalBreakdown) ==> DistinctKeys(r.additionalBreakdown)
  {
    Metrics(
      target.inputTokens + source.inputTokens,
      target.outputTokens + source.outputTokens,
      target.totalTokens + source.totalTokens,
      target.cacheReadTokens + source.cacheReadTokens,
      target.cacheWriteTokens + source.cacheWriteTokens,
      target.reasoningTokens + source.reasoningTokens,
      target.acceptedPredictionTokens + source.acceptedPredictionTokens,
      target.rejectedPredictionTokens + source.rejectedPredictionTokens,
      target.audioInputTokens + source.audioInputTokens,
      target.audioOutputTokens + source.audioOutputTokens,
      AddAll(target.additionalBreakdown, source.additionalBreakdown))
  }

  /** `hasAnyUsage`: some canonical counter is positive. The breakdown is not consulted. */
  predicate HasAnyUsage(m: Metrics): (r: bool)
    ensures r <==> exists f: Field :: m.Get(f) > 0
  {
    var r := || m.inputTokens > 0
             || m.outputTokens > 0
             || m.totalTokens > 0
             || m.cacheReadTokens > 0
             || m.cacheWriteTokens > 0
             || m.reasoningTokens > 0
             || m.acceptedPredictionTokens > 0
             || m.rejectedPredictionTokens > 0
             || m.audioInputTokens > 0
             || m.audioOutputTokens > 0;
    SomeFieldPositive(m);
    assert (exists f: Field :: m.Get(f) > 0) ==> r by {
      if exists f: Field :: m.Get(f) > 0 {
        var f: Field :| m.Get(f) > 0;
      }
    }
    r
  }

  /** A positive counter is a positive `Get`. */
  lemma SomeFieldPositive(m: Metrics)
    ensures (|| m.inputTokens > 0 || m.outputTokens > 0 || m.totalTokens > 0 || m.cacheReadTokens > 0
             || m.cacheWriteTokens > 0 || m.reasoningTokens > 0 || m.acceptedPredictionTokens > 0
             || m.rejectedPredictionTokens > 0 || m.audioInputTokens > 0 || m.audioOutputTokens > 0)
            ==> exists f: Field :: m.Get(f) > 0
  {
    if m.inputTokens > 0 { assert m.Get(InputTokens) > 0; }
    else if m.outputTokens > 0 { assert m.Get(OutputTokens) > 0; }
    else if m.totalTokens > 0 { assert m.Get(TotalTokens) > 0; }
    else if m.cacheReadTokens > 0 { assert m.Get(CacheReadTokens) > 0; }
    else if m.cacheWriteTokens > 0 { assert m.Get(CacheWriteTokens) > 0; }
    else if m.reasoningTokens > 0 { assert m.Get(ReasoningTokens) > 0; }
    else if m.acceptedPredictionTokens > 0 { assert m.Get(AcceptedPredictionTokens) > 0; }
    else if m.rejectedPredictionTokens > 0 { assert m.Get(RejectedPredictionTokens) > 0; }
    else if m.audioInputTokens > 0 { assert m.Get(AudioInputTokens) > 0; }
    else if m.audioOutputTokens > 0 { assert m.Get(AudioOutputTokens) > 0; }
  }

  /** `hasAnyUsage` ignores the additional breakdown. */
  lemma HasAnyUsageMeansSomeField(m: Metrics, b: Tally)
    ensures HasAnyUsage(m) <==> exists f: Field :: m.Get(f) > 0
    ensures HasAnyUsage(m) <==> HasAnyUsage(m.(additionalBreakdown := b))
  {
    var m' := m.(additionalBreakdown := b);
    assert forall f: Field :: m'.Get(f) == m.Get(f);
  }

  /** The empty metrics are the identity of `addMetrics`. */
  lemma AddEmpty(m: Metrics)
    ensures forall f :: AddMetrics(Empty, m).Get(f) == m.Get(f)
    ensures forall k :: Get(AddMetrics(Empty, m).additionalBreakdown, k) == Get(m.additionalBreakdown, k)
    ensures !HasAnyUsage(Empty)
  {
  }
}
