/**
 * Consequences of `deriveMetricsFromUsage` for particular keys and usage
 * objects: where the alias table sends the audio and prompt/completion
 * counts, and the `inputTokenCount` spelling that no alias can catch.
 */
module DerivationFacts {
  import opened Wrappers
  import opened Payload
  import opened Tally
  import opened Metrics
  import opened KeyText
  import opened Derivation

  // ---------------------------------------------------------------------------
  // Lookups in the service's alias table

  lemma AliasCompletionAudio()
    ensures Alias(TokenAliases, "completion_tokens_details.audio_tokens") == Some(AudioOutputTokens)
  {
    AliasFirst(TokenAliases, "completion_tokens_details.audio_tokens", 26);
  }

  lemma AliasPromptAudio()
    ensures Alias(TokenAliases, "prompt_tokens_details.audio_tokens") == Some(AudioInputTokens)
  {
    AliasFirst(TokenAliases, "prompt_tokens_details.audio_tokens", 24);
  }

  lemma AliasAudio()
    ensures Alias(TokenAliases, "audio_tokens") == Some(AudioInputTokens)
  {
    AliasFirst(TokenAliases, "audio_tokens", 23);
  }

  lemma AliasOutputDetailsAudio()
    ensures Alias(TokenAliases, "output_token_details.audio_tokens") == None
  {
    AliasAbsent(TokenAliases, "output_token_details.audio_tokens");
  }

  lemma AliasPrompt()
    ensures Alias(TokenAliases, "prompt_tokens") == Some(InputTokens)
  {
    AliasFirst(TokenAliases, "prompt_tokens", 1);
  }

  lemma AliasCompletion()
    ensures Alias(TokenAliases, "completion_tokens") == Some(OutputTokens)
  {
    AliasFirst(TokenAliases, "completion_tokens", 4);
  }

  lemma AliasInputTokenCount()
    ensures Alias(TokenAliases, "input_token_count") == None
  {
    AliasAbsent(TokenAliases, "input_token_count");
  }

  // ---------------------------------------------------------------------------
  // Routing by whole key, then by last segment

  /**
   * Aliases are looked up on the whole normalised key first, then on its last
   * dotted segment: an audio count under `completion_tokens_details` is output
   * audio, under `prompt_tokens_details` it is input audio.
   */
  lemma AudioTokensRouting()
    ensures Resolve(TokenAliases, "completion_tokens_details.audio_tokens") == Some(AudioOutputTokens)
    ensures Resolve(TokenAliases, "prompt_tokens_details.audio_tokens") == Some(AudioInputTokens)
  {
    AliasCompletionAudio();
    AliasPromptAudio();
  }

  lemma LastOfOutputDetailsAudio()
    ensures LastSegment("output_token_details.audio_tokens") == "audio_tokens"
  {
    assert "output_token_details.audio_tokens" == "output_token_details" + "." + "audio_tokens";
    LastSegmentAfterDot("output_token_details", "audio_tokens");
  }

  lemma LastOfInputTokenCount()
    ensures LastSegment("input_token_count") == "input_token_count"
  {
    LastSegmentNoDot("input_token_count");
  }

  /** Under any other parent the last segment `audio_tokens` decides: input audio. */
  lemma AudioTokensFallback()
    ensures Resolve(TokenAliases, "output_token_details.audio_tokens") == Some(AudioInputTokens)
  {
    AliasOutputDetailsAudio();
    LastOfOutputDetailsAudio();
    AliasAudio();
  }

  /** `prompt_tokens` is already normalised and routes to the input counter. */
  lemma PromptTokensRouting()
    ensures Route(TokenAliases, "prompt_tokens") == Some(InputTokens)
  {
    SnakeKeyIsNormal("prompt_tokens");
    AliasPrompt();
  }

  /** `completion_tokens` is already normalised and routes to the output counter. */
  lemma CompletionTokensRouting()
    ensures Route(TokenAliases, "completion_tokens") == Some(OutputTokens)
  {
    SnakeKeyIsNormal("completion_tokens");
    AliasCompletion();
  }

  lemma InputTokenCountPieces()
    ensures "input" + ['T'] + "oken" + ['C'] + "ount" == "inputTokenCount"
    ensures "input" + ['_', 't'] + "oken" + ['_', 'c'] + "ount" == "input_token_count"
  {
  }

  lemma InputTokenCountNormal()
    ensures NormalizeBreakdownKey("inputTokenCount") == "input_token_count"
  {
    InputTokenCountPieces();
    NormalizeCamelCase("input", 'T', "oken", 'C', "ount");
  }

  /**
   * The alias `inputtokencount` is unreachable for the camelCase spelling:
   * `inputTokenCount` normalises to `input_token_count`, which names no alias,
   * not even by its last segment.
   */
  lemma InputTokenCountRouting()
    ensures NormalizeBreakdownKey("inputTokenCount") == "input_token_count"
    ensures Route(TokenAliases, "inputTokenCount") == None
  {
    InputTokenCountNormal();
    LastOfInputTokenCount();
    AliasInputTokenCount();
  }

  // ---------------------------------------------------------------------------
  // Small usage objects

  /** A usage object with one numeric field flattens to that one leaf. */
  lemma FlattenOne(key: string, n: int)
    ensures Flatten(Obj([(key, Num(n))])) == [(key, n)]
  {
    var usage := Obj([(key, Num(n))]);
    var one := [(key, n)];
    assert [] + [key] == [key];
    assert Join([key]) == key;
    assert FlattenInto(Num(n), [key], []) == one;
    assert FlattenChildren(usage, 1, [], one) == one;
    assert FlattenChildren(usage, 0, [], []) == one;
  }

  /** A usage object with two distinct numeric fields flattens to both leaves, in order. */
  lemma FlattenTwo(k1: string, n1: int, k2: string, n2: int)
    requires k1 != k2
    ensures Flatten(Obj([(k1, Num(n1)), (k2, Num(n2))])) == [(k1, n1), (k2, n2)]
  {
    var usage := Obj([(k1, Num(n1)), (k2, Num(n2))]);
    var one := [(k1, n1)];
    var two := [(k1, n1), (k2, n2)];
    assert [] + [k1] == [k1];
    assert [] + [k2] == [k2];
    assert Join([k1]) == k1;
    assert Join([k2]) == k2;
    assert FlattenInto(Num(n1), [k1], []) == one;
    assert Add(one, k2, n2) == two;
    assert FlattenInto(Num(n2), [k2], one) == two;
    assert FlattenChildren(usage, 2, [], two) == two;
    assert FlattenChildren(usage, 1, [], one) == two;
    assert FlattenChildren(usage, 0, [], []) == two;
  }

  /** A leaf routed to counter `f` adds to that counter and to no other. */
  lemma PutRouted(aliases: Aliases, m: Metrics, key: string, value: int, f: Field)
    requires Route(aliases, key) == Some(f)
    ensures Put(aliases, m, key, value).Get(f) == m.Get(f) + value
    ensures forall g :: g != f ==> Put(aliases, m, key, value).Get(g) == m.Get(g)
  {
  }

  /** A leaf no alias claims leaves every counter alone and adds to its breakdown entry. */
  lemma PutUnrouted(aliases: Aliases, m: Metrics, key: string, value: int)
    requires Route(aliases, key).None?
    ensures forall g :: Put(aliases, m, key, value).Get(g) == m.Get(g)
    ensures Get(Put(aliases, m, key, value).additionalBreakdown, NormalizeBreakdownKey(key))
            == Get(m.additionalBreakdown, NormalizeBreakdownKey(key)) + value
  {
  }

  /** Placing one leaf is one step of the loop. */
  lemma PlaceOne(aliases: Aliases, m: Metrics, key: string, n: int)
    ensures Place(aliases, [(key, n)], m) == Put(aliases, m, key, n)
  {
    assert [(key, n)][1..] == [];
  }

  /** Placing two leaves is two steps of the loop, in order. */
  lemma PlaceTwo(aliases: Aliases, m: Metrics, k1: string, n1: int, k2: string, n2: int)
    ensures Place(aliases, [(k1, n1), (k2, n2)], m) == Put(aliases, Put(aliases, m, k1, n1), k2, n2)
  {
    var flat := [(k1, n1), (k2, n2)];
    assert flat[1..] == [(k2, n2)];
    PlaceOne(aliases, Put(aliases, m, k1, n1), k2, n2);
  }

  lemma InputTokenCountDirect(n: int)
    ensures DirectInput(Obj([("inputTokenCount", Num(n))])) == n
    ensures DirectOutput(Obj([("inputTokenCount", Num(n))])) == 0
    ensures DirectTotal(Obj([("inputTokenCount", Num(n))])) == 0
  {
  }

  /**
   * `{inputTokenCount: n}`: the flattened value goes to the breakdown under
   * `input_token_count`, while the direct read still fills `inputTokens`
   * (and the total falls back to it).
   */
  lemma InputTokenCountQuirk(usage: Json, n: int)
    requires n > 0 && usage == Obj([("inputTokenCount", Num(n))])
    ensures Derive(usage).inputTokens == n
    ensures Derive(usage).totalTokens == n
    ensures Get(Derive(usage).additionalBreakdown, "input_token_count") == n
  {
    InputTokenCountRouting();
    InputTokenCountDirect(n);
    FlattenOne("inputTokenCount", n);
    LoneUnroutedDerived(TokenAliases, usage, "inputTokenCount", n);
  }

  /**
   * A usage object whose only leaf no alias claims, but whose direct input
   * read sees the same count: the count lands both in the breakdown and in
   * `inputTokens`, and the total falls back to it.
   */
  lemma LoneUnroutedDerived(aliases: Aliases, usage: Json, key: string, n: int)
    requires n > 0 && Route(aliases, key).None? && Flatten(usage) == [(key, n)]
    requires DirectInput(usage) == n && DirectOutput(usage) == 0 && DirectTotal(usage) == 0
    ensures DeriveWith(aliases, usage).inputTokens == n
    ensures DeriveWith(aliases, usage).totalTokens == n
    ensures Get(DeriveWith(aliases, usage).additionalBreakdown, NormalizeBreakdownKey(key)) == n
  {
    UnroutedLeaf(aliases, key, n);
    var p := Placed(aliases, usage);
    assert p == Place(aliases, [(key, n)], Empty);
    var r := DeriveWith(aliases, usage);
    assert RaisedTo(r.inputTokens, p.inputTokens, DirectInput(usage));
    assert r.inputTokens == n;
    assert r.outputTokens == 0;
  }

  /** A lone leaf no alias claims adds nothing to any counter and all of itself to the breakdown. */
  lemma UnroutedLeaf(aliases: Aliases, key: string, n: int)
    requires Route(aliases, key).None?
    ensures var m := Place(aliases, [(key, n)], Empty);
            && m.inputTokens == 0 && m.outputTokens == 0 && m.totalTokens == 0
            && Get(m.additionalBreakdown, NormalizeBreakdownKey(key)) == n
  {
    var m := Place(aliases, [(key, n)], Empty);
    PlaceOne(aliases, Empty, key, n);
    PutUnrouted(aliases, Empty, key, n);
    assert m.Get(InputTokens) == 0 && m.Get(OutputTokens) == 0 && m.Get(TotalTokens) == 0;
  }

  lemma PromptCompletionDirect(p: int, c: int)
    ensures DirectInput(Obj([("prompt_tokens", Num(p)), ("completion_tokens", Num(c))])) == p
    ensures DirectOutput(Obj([("prompt_tokens", Num(p)), ("completion_tokens", Num(c))])) == c
    ensures DirectTotal(Obj([("prompt_tokens", Num(p)), ("completion_tokens", Num(c))])) == 0
  {
    var fields := [("prompt_tokens", Num(p)), ("completion_tokens", Num(c))];
    assert fields[1..] == [("completion_tokens", Num(c))];
    assert Find(fields, "completion_tokens") == Some(Num(c));
  }

  /** Two leaves routed to input and output place those counts there, and nothing in the total. */
  lemma InputOutputLeaves(aliases: Aliases, k1: string, p: int, k2: string, c: int)
    requires Route(aliases, k1) == Some(InputTokens) && Route(aliases, k2) == Some(OutputTokens)
    ensures var m := Place(aliases, [(k1, p), (k2, c)], Empty);
            m.inputTokens == p && m.outputTokens == c && m.totalTokens == 0
  {
    PlaceTwo(aliases, Empty, k1, p, k2, c);
    PutRouted(aliases, Empty, k1, p, InputTokens);
    PutRouted(aliases, Put(aliases, Empty, k1, p), k2, c, OutputTokens);
  }

  /** `{prompt_tokens: p, completion_tokens: c}` derives input p, output c and total p + c. */
  lemma PromptCompletionExample(usage: Json, p: nat, c: nat)
    requires usage == Obj([("prompt_tokens", Num(p)), ("completion_tokens", Num(c))])
    ensures Derive(usage).inputTokens == p
    ensures Derive(usage).outputTokens == c
    ensures Derive(usage).totalTokens == p + c
  {
    PromptTokensRouting();
    CompletionTokensRouting();
    PromptCompletionDirect(p, c);
    FlattenTwo("prompt_tokens", p, "completion_tokens", c);
    InputOutputDerived(TokenAliases, usage, "prompt_tokens", p, "completion_tokens", c);
  }

  /**
   * Two leaves routed to input and output whose direct reads agree: the
   * derived counters are those counts and the total is their sum.
   */
  lemma InputOutputDerived(aliases: Aliases, usage: Json, k1: string, p: nat, k2: string, c: nat)
    requires Route(aliases, k1) == Some(InputTokens) && Route(aliases, k2) == Some(OutputTokens)
    requires Flatten(usage) == [(k1, p), (k2, c)]
    requires DirectInput(usage) == p && DirectOutput(usage) == c && DirectTotal(usage) == 0
    ensures DeriveWith(aliases, usage).inputTokens == p
    ensures DeriveWith(aliases, usage).outputTokens == c
    ensures DeriveWith(aliases, usage).totalTokens == p + c
  {
    InputOutputLeaves(aliases, k1, p, k2, c);
  }
}
